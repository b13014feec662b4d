/** A client that keeps reading: it ends up with everything that was written, after a bounded number of steps. */
module ReplicationProgress {
  import opened Framing
  import opened Views
  import opened ViewRuns
  import opened WatcherStream
  import opened Replication
  import WB = WatchBuffer
  import Safety = WatchBufferSafety
  import Progress = WatchBufferProgress

  // ----- Every chunk is a frame, so the buffer never deadlocks

  ghost predicate HealthInv(y: System) { Progress.NoEmptyInv(y.wb) && Safety.RepliesInv(y.wb) }

  lemma BufferHealth(wb: WB.State<char>, b: WB.Action<char>)
    requires Safety.ChannelsInv(wb) && Progress.NoEmptyInv(wb) && Safety.RepliesInv(wb) && WB.Enabled(wb, b)
    requires b.CallWrite? ==> b.data != []
    ensures Progress.NoEmptyInv(WB.Apply(wb, b)) && Safety.RepliesInv(WB.Apply(wb, b))
  {
    Progress.NoEmptyStep(wb, b);
    Safety.RepliesStep(wb, b);
  }

  lemma HealthStep(c: Codec, y: System, a: Action)
    requires Safety.ChannelsInv(y.wb) && HealthInv(y) && Enabled(y, a)
    ensures HealthInv(Apply(c, y, a))
  {
    match a
    case StoreOp(_) =>
    case Emit =>
      var e := Encoded(y.todo[0].ty, c.enc(y.todo[0].obj));
      FrameNotEmpty(e);
      BufferHealth(y.wb, WB.CallWrite(Frame(e)));
    case Buffer(b) => BufferHealth(y.wb, b);
  }

  ghost predicate AllInv(c: Codec, y: System) { BufferInv(y) && WritesInv(c, y) && EventsInv(y) && HealthInv(y) }

  lemma AllInvStep(c: Codec, y: System, a: Action)
    requires AllInv(c, y) && Enabled(y, a)
    ensures AllInv(c, Apply(c, y, a))
  {
    BufferStep(c, y, a);
    WritesStep(c, y, a);
    EventsStep(c, y, a);
    HealthStep(c, y, a);
  }

  lemma {:induction false} AllInvRun(c: Codec, y: System, acts: seq<Action>)
    requires AllInv(c, y) && Runs(c, y, acts)
    ensures AllInv(c, Exec(c, y, acts))
    decreases |acts|
  {
    if acts != [] {
      AllInvStep(c, y, acts[0]);
      AllInvRun(c, Apply(c, y, acts[0]), acts[1..]);
    }
  }

  lemma Reached(c: Codec, y: System, acts: seq<Action>)
    requires Starts(y) && Runs(c, y, acts)
    ensures AllInv(c, Exec(c, y, acts))
  {
    StartsGood(c, y);
    AllInvRun(c, y, acts);
  }

  // ----- The measure

  /** A step of a client that keeps reading: any step but a new store operation, and no Read into an empty slice. */
  predicate Reading(a: Action) { !a.StoreOp? && !(a.Buffer? && a.a.CallRead? && a.a.cap == 0) }

  predicate AllReading(acts: seq<Action>) { forall i :: 0 <= i < |acts| ==> Reading(acts[i]) }

  /** Bytes of the frames of the operations so far that the client has not read. */
  function Unread(c: Codec, y: System): int { |Stream(Encode(c, y.emitted + y.todo))| - |y.wb.returned| }

  /** What one more Read may cost: nothing while one is under way that will return bytes. */
  function Slack(r: WB.ReaderPc): nat { if r.RIdle? then 16 else if r.cap == 0 then 17 else 0 }

  /** How many more steps a client that keeps reading can take. */
  function DrainMeasure(c: Codec, y: System): int {
    16 * Unread(c, y) + Slack(y.wb.reader) + Progress.Measure(y.wb) + 6 * |y.todo|
  }

  lemma UnreadIsNat(c: Codec, y: System)
    requires StreamInv(c, y)
    ensures Unread(c, y) >= 0
  {
    var es := Encode(c, y.emitted + y.todo);
    ReadBytesAreStream(c, y);
    StreamMonotone(es, |y.emitted|);
    assert es[..|y.emitted|] == Encode(c, y.emitted);
  }

  /** A step of the buffer leaves the Read as it is, or ends it with at least one byte if its slice has room. */
  lemma ReadUnderWay(wb: WB.State<char>, b: WB.Action<char>)
    requires Safety.ChannelsInv(wb) && Safety.HandshakeInv(wb) && Progress.Open(wb) && Safety.RepliesInv(wb)
    requires Progress.Internal(b) && WB.Enabled(wb, b)
    ensures var t := WB.Apply(wb, b);
            if b.GiveReply? then !wb.reader.RIdle? && t.reader.RIdle? && |t.returned| >= |wb.returned|
                                 && (wb.reader.cap > 0 ==> |t.returned| > |wb.returned|)
            else t.returned == wb.returned && Slack(t.reader) == Slack(wb.reader)
  {
  }

  lemma BufferDrains(c: Codec, y: System, b: WB.Action<char>)
    requires AllInv(c, y) && Enabled(y, Buffer(b)) && !b.CallRead?
    ensures DrainMeasure(c, Apply(c, y, Buffer(b))) < DrainMeasure(c, y)
  {
    Progress.MeasureFalls(y.wb, b);
    ReadUnderWay(y.wb, b);
  }

  lemma CallReadDrains(c: Codec, y: System, cap: nat)
    requires Enabled(y, Buffer(WB.CallRead(cap))) && cap > 0
    ensures DrainMeasure(c, Apply(c, y, Buffer(WB.CallRead(cap)))) < DrainMeasure(c, y)
  {
  }

  lemma EmitDrains(c: Codec, y: System)
    requires Enabled(y, Emit)
    ensures DrainMeasure(c, Apply(c, y, Emit)) < DrainMeasure(c, y)
  {
    var e, z := y.todo[0], Apply(c, y, Emit);
    var data := Frame(Encoded(e.ty, c.enc(e.obj)));
    MoveFirst(y.emitted, y.todo);
    assert z.wb == y.wb.(writers := y.wb.writers + [WB.WStart(data)]);
    Progress.NewWriterWeight(y.wb.writers, data);
  }

  lemma DrainMeasureFalls(c: Codec, y: System, a: Action)
    requires AllInv(c, y) && Enabled(y, a) && Reading(a)
    ensures DrainMeasure(c, Apply(c, y, a)) < DrainMeasure(c, y)
  {
    if a.Emit? {
      EmitDrains(c, y);
    } else if a.a.CallRead? {
      CallReadDrains(c, y, a.a.cap);
    } else {
      BufferDrains(c, y, a.a);
    }
  }

  lemma DrainStep(c: Codec, y: System, a: Action)
    requires AllInv(c, y) && Enabled(y, a) && Reading(a)
    ensures AllInv(c, Apply(c, y, a)) && Apply(c, y, a).cache == y.cache
    ensures DrainMeasure(c, Apply(c, y, a)) < DrainMeasure(c, y)
  {
    AllInvStep(c, y, a);
    DrainMeasureFalls(c, y, a);
  }

  lemma {:induction false} DrainRun(c: Codec, y: System, acts: seq<Action>)
    requires AllInv(c, y) && Runs(c, y, acts) && AllReading(acts)
    ensures |acts| + DrainMeasure(c, Exec(c, y, acts)) <= DrainMeasure(c, y) && Exec(c, y, acts).cache == y.cache
    decreases |acts|
  {
    if acts != [] {
      DrainStep(c, y, acts[0]);
      DrainRun(c, Apply(c, y, acts[0]), acts[1..]);
    }
  }

  // ----- Where it ends

  /** The client has a Read under way and nothing can move until the next store operation. */
  ghost predicate Waiting(y: System) { forall a :: Reading(a) ==> !Enabled(y, a) }

  lemma WaitingIsDrained(c: Codec, y: System)
    requires BufferInv(y) && HealthInv(y) && Waiting(y)
    ensures Drained(y)
  {
    assert !Enabled(y, Buffer(WB.CallRead(1)));
    forall b: WB.Action<char> | Progress.Internal(b) ensures !WB.Enabled(y.wb, b) {
      assert !Enabled(y, Buffer(b));
    }
    Progress.StuckIff(y.wb);
    assert !Enabled(y, Emit);
  }

  /** Progress of replication: from every reachable state, a client that keeps reading takes a bounded number of steps
      until nothing can move; then everything written has been read, and its copy agrees with the current store on
      what matches; it is the current store if the watcher selects everything and nothing was replaced. */
  lemma KeepsReadingCatchesUp(c: Codec, y: System, before: seq<Action>, acts: seq<Action>)
    requires Good(c) && Starts(y) && Runs(c, y, before)
    requires Runs(c, Exec(c, y, before), acts) && AllReading(acts)
    ensures var x, z := Exec(c, y, before), Exec(c, Exec(c, y, before), acts);
            && |acts| <= DrainMeasure(c, x)
            && (Waiting(z) ==>
                  && Drained(z) && z.cache == x.cache && Agrees(z.m, x.cache, z.sel, ClientCopy(c, Read(z)))
                  && (z.m == EVERYTHING && NoReplace(z.ops) ==> ClientCopy(c, Read(z)) == x.cache))
  {
    var x := Exec(c, y, before);
    Reached(c, y, before);
    DrainRun(c, x, acts);
    AllInvRun(c, x, acts);
    var z := Exec(c, x, acts);
    UnreadIsNat(c, z);
    if Waiting(z) {
      WaitingIsDrained(c, z);
      CaughtUp(c, z);
    }
  }

  lemma CaughtUp(c: Codec, y: System)
    requires Good(c) && StreamInv(c, y) && EventsInv(y) && Drained(y)
    ensures Agrees(y.m, y.cache, y.sel, ClientCopy(c, Read(y)))
    ensures y.m == EVERYTHING && NoReplace(y.ops) ==> ClientCopy(c, Read(y)) == y.cache
  {
    var k := CopyAgreesInState(c, y);
    if y.m == EVERYTHING && NoReplace(y.ops) {
      CopyIsStoreInState(c, y);
    }
  }
}
