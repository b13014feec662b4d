/**
 A store, an open watcher with any selector, and a client, end to end: every interleaving of store operations with
 chunked Reads of the watcher's byte stream.

 Store operations and the creation of the watcher run one at a time: each emits its events one after the other, and
 each emission is a Write call that returns before the next begins.  Everything else interleaves freely.
 */
module Replication {
  import opened Objects
  import opened Json
  import opened Framing
  import opened Views
  import opened ViewRuns
  import opened WatcherStream
  import WB = WatchBuffer
  import Safety = WatchBufferSafety
  import Progress = WatchBufferProgress

  /** How objects become JSON text and come back from JSON values. */
  datatype Codec = Codec(enc: Object -> Text, dec: Value -> Object)

  /** Encoding yields valid JSON text, and decoding its value gives the object back. */
  ghost predicate Good(c: Codec) {
    forall o: Object :: ValidText(c.enc(o)) && c.dec(TextValue(c.enc(o))) == o
  }

  function Encode(c: Codec, es: seq<Event>): (r: seq<Encoded>)
    ensures |r| == |es|
    ensures forall i :: 0 <= i < |es| ==> r[i] == Encoded(es[i].ty, c.enc(es[i].obj))
  {
    seq(|es|, i requires 0 <= i < |es| => Encoded(es[i].ty, c.enc(es[i].obj)))
  }

  // ----- The client

  function TypeOf(name: Text): EventType {
    if name == "ADDED" then Added else if name == "MODIFIED" then Modified else Deleted
  }

  /** The event a decoded frame stands for. */
  function EventOf(c: Codec, v: Value): Event {
    if v.Obj? && |v.members| == 2 && v.members[0].value.Str?
    then Event(TypeOf(v.members[0].value.raw), c.dec(v.members[1].value))
    else Event(Deleted, c.dec(Null))
  }

  function EventsFrom(c: Codec, vs: seq<Value>): (es: seq<Event>)
    ensures |es| == |vs|
    ensures forall i :: 0 <= i < |vs| ==> es[i] == EventOf(c, vs[i])
  {
    seq(|vs|, i requires 0 <= i < |vs| => EventOf(c, vs[i]))
  }

  /** The copy of the store that a client has after reading some bytes. */
  function ClientCopy(c: Codec, bytes: Text): Cache { Replay(EventsFrom(c, Decode(bytes))) }

  lemma EventRoundTrip(c: Codec, e: Event)
    requires Good(c)
    ensures ValidText(c.enc(e.obj)) && EventOf(c, EventValue(e.ty, TextValue(c.enc(e.obj)))) == e
  {
    assert ValidText(c.enc(e.obj)) && c.dec(TextValue(c.enc(e.obj))) == e.obj;
  }

  lemma EventsRoundTrip(c: Codec, es: seq<Event>)
    requires Good(c)
    ensures EventsFrom(c, Values(Encode(c, es))) == es && AllValid(Encode(c, es))
  {
    forall i | 0 <= i < |es|
      ensures ValidText(c.enc(es[i].obj)) && EventOf(c, EventValue(es[i].ty, TextValue(c.enc(es[i].obj)))) == es[i]
    {
      EventRoundTrip(c, es[i]);
    }
  }

  // ----- The system

  datatype System = System(
    m: Match, sel: string,   // what the watcher selects
    start: Cache,            // the store when the watcher was created
    listing: seq<Object>,    // what the watcher was listed then
    ops: seq<Op>,            // the operations since
    cache: Cache,            // the store now
    emitted: seq<Event>,     // events whose Write has been called
    todo: seq<Event>,        // events of the operation under way, still to be written
    wb: WB.State<char>)

  datatype Action = StoreOp(op: Op) | Emit | Buffer(a: WB.Action<char>)

  ghost predicate Starts(y: System) {
    && KeyInv(y.start) && Lists(y.m, y.start, y.sel, y.listing)
    && y.ops == [] && y.cache == y.start && y.emitted == [] && y.todo == AddedEvents(y.listing)
    && y.wb == WB.Init<char>()
  }

  /** The last Write call has returned. */
  predicate WriteReturned(wb: WB.State<char>) { wb.writers == [] || wb.writers[|wb.writers| - 1].WDone? }

  predicate Enabled(y: System, a: Action) {
    match a
    case StoreOp(op) => y.todo == [] && WriteReturned(y.wb)
    case Emit => y.todo != [] && WriteReturned(y.wb) && !y.wb.fault
    case Buffer(b) => !b.CallWrite? && !b.CloseEnter? && WB.Enabled(y.wb, b)
  }

  function Apply(c: Codec, y: System, a: Action): System {
    if !Enabled(y, a) then y else
    match a
    case StoreOp(op) =>
      y.(cache := ApplyOp(y.cache, op), ops := y.ops + [op], todo := Matching(y.m, y.sel, EventsOf(op)))
    case Emit =>
      var e := y.todo[0];
      y.(emitted := y.emitted + [e], todo := y.todo[1..],
         wb := WB.Apply(y.wb, WB.CallWrite(Frame(Encoded(e.ty, c.enc(e.obj))))))
    case Buffer(b) => y.(wb := WB.Apply(y.wb, b))
  }

  predicate Runs(c: Codec, y: System, acts: seq<Action>)
    decreases |acts|
  {
    acts == [] || (Enabled(y, acts[0]) && Runs(c, Apply(c, y, acts[0]), acts[1..]))
  }

  function Exec(c: Codec, y: System, acts: seq<Action>): System
    decreases |acts|
  {
    if acts == [] then y else Exec(c, Apply(c, y, acts[0]), acts[1..])
  }

  // ----- What is written

  /** The n-th Write call carries the n-th frame, all but the last have returned, and the loop received them in order. */
  ghost predicate Written(c: Codec, es: seq<Event>, writers: seq<WB.WriterPc<char>>, accepted: seq<WB.Chunk<char>>) {
    && |writers| == |es|
    && (forall i :: 0 <= i < |es| ==> writers[i].data == Frame(Encoded(es[i].ty, c.enc(es[i].obj))))
    && (forall i :: 0 <= i < |writers| ==> (writers[i].WDone? <==> i < |accepted|))
    && |accepted| <= |writers| <= |accepted| + 1
    && (forall i :: 0 <= i < |accepted| ==> accepted[i].writer == i)
  }

  ghost predicate WritesInv(c: Codec, y: System) { Written(c, y.emitted, y.wb.writers, y.wb.accepted) }

  ghost predicate BufferInv(y: System) { Safety.Inv(y.wb) && Progress.Open(y.wb) }

  lemma BufferStep(c: Codec, y: System, a: Action)
    requires BufferInv(y) && Enabled(y, a)
    ensures BufferInv(Apply(c, y, a))
  {
    match a
    case StoreOp(_) =>
    case Emit =>
      var e := y.todo[0];
      Safety.InvStep(y.wb, WB.CallWrite(Frame(Encoded(e.ty, c.enc(e.obj)))));
    case Buffer(b) =>
      Safety.InvStep(y.wb, b);
      if !b.CallRead? {
        Progress.StaysOpen(y.wb, b);
      }
  }

  /** The only Write call that can take a step is the last one, which has not returned. */
  lemma OneWriter(wb: WB.State<char>, b: WB.Action<char>)
    requires Safety.ChannelsInv(wb) && Progress.Open(wb) && WB.ByWriter(b) && !b.CallWrite? && WB.Enabled(wb, b)
    requires forall i :: 0 <= i < |wb.writers| ==> (wb.writers[i].WDone? <==> i < |wb.accepted|)
    requires |wb.writers| <= |wb.accepted| + 1
    ensures b.i == |wb.accepted| < |wb.writers|
    ensures var wb' := WB.Apply(wb, b);
            && |wb'.writers| == |wb.writers| && wb'.writers == wb.writers[b.i := wb'.writers[b.i]]
            && wb'.writers[b.i].data == wb.writers[b.i].data && (wb'.writers[b.i].WDone? <==> b.Accept?)
            && wb'.accepted == wb.accepted + if b.Accept? then [WB.Chunk(b.i, wb.writers[b.i].data)] else []
  {
  }

  lemma OthersWriteNothing(wb: WB.State<char>, b: WB.Action<char>)
    requires WB.Enabled(wb, b) && !WB.ByWriter(b)
    ensures WB.Apply(wb, b).writers == wb.writers && WB.Apply(wb, b).accepted == wb.accepted
  {
  }

  lemma WritesBuffer(c: Codec, y: System, b: WB.Action<char>)
    requires Safety.ChannelsInv(y.wb) && Progress.Open(y.wb) && WritesInv(c, y) && Enabled(y, Buffer(b))
    ensures WritesInv(c, Apply(c, y, Buffer(b)))
  {
    if WB.ByWriter(b) {
      OneWriter(y.wb, b);
    } else {
      OthersWriteNothing(y.wb, b);
    }
  }

  lemma WritesEmit(c: Codec, y: System)
    requires WritesInv(c, y) && Enabled(y, Emit)
    ensures WritesInv(c, Apply(c, y, Emit))
  {
    var e := y.todo[0];
    var data := Frame(Encoded(e.ty, c.enc(e.obj)));
    var wb' := WB.Apply(y.wb, WB.CallWrite(data));
    assert wb'.writers == y.wb.writers + [WB.WStart(data)] && wb'.accepted == y.wb.accepted;
  }

  lemma WritesStep(c: Codec, y: System, a: Action)
    requires Safety.ChannelsInv(y.wb) && Progress.Open(y.wb) && WritesInv(c, y) && Enabled(y, a)
    ensures WritesInv(c, Apply(c, y, a))
  {
    if a.Buffer? {
      WritesBuffer(c, y, a.a);
    } else if a.Emit? {
      WritesEmit(c, y);
    }
  }

  // ----- What the events mean

  /** The events so far and still to come are those of the listing and of the operations. */
  ghost predicate EventsInv(y: System) {
    && KeyInv(y.start) && Lists(y.m, y.start, y.sel, y.listing)
    && y.emitted + y.todo == Sent(y.m, y.sel, y.listing, y.ops) && y.cache == StoreAfter(y.start, y.ops)
  }

  lemma EventsStep(c: Codec, y: System, a: Action)
    requires EventsInv(y) && Enabled(y, a)
    ensures EventsInv(Apply(c, y, a))
  {
    match a
    case Buffer(_) =>
    case Emit => MoveFirst(y.emitted, y.todo);
    case StoreOp(op) => EventsOp(c, y, op);
  }

  lemma MoveFirst(emitted: seq<Event>, todo: seq<Event>)
    requires todo != []
    ensures emitted + [todo[0]] + todo[1..] == emitted + todo
  {
  }

  lemma EventsOp(c: Codec, y: System, op: Op)
    requires EventsInv(y) && Enabled(y, StoreOp(op))
    ensures EventsInv(Apply(c, y, StoreOp(op)))
  {
    assert y.emitted + y.todo == y.emitted;
    StoreAfterSnoc(y.start, y.ops, op);
    SentSnoc(y.m, y.sel, y.listing, y.ops, op);
  }

  lemma StartsGood(c: Codec, y: System)
    requires Starts(y)
    ensures BufferInv(y) && WritesInv(c, y) && EventsInv(y)
  {
    Safety.InitInv<char>();
    assert y.emitted + y.todo == AddedEvents(y.listing);
  }

  ghost predicate SameWatcher(y: System, z: System) {
    z.m == y.m && z.sel == y.sel && z.start == y.start && z.listing == y.listing
  }

  lemma {:induction false} WritesRun(c: Codec, y: System, acts: seq<Action>)
    requires BufferInv(y) && WritesInv(c, y) && Runs(c, y, acts)
    ensures BufferInv(Exec(c, y, acts)) && WritesInv(c, Exec(c, y, acts))
    decreases |acts|
  {
    if acts != [] {
      BufferStep(c, y, acts[0]);
      WritesStep(c, y, acts[0]);
      WritesRun(c, Apply(c, y, acts[0]), acts[1..]);
    }
  }

  lemma {:induction false} EventsRun(c: Codec, y: System, acts: seq<Action>)
    requires EventsInv(y) && Runs(c, y, acts)
    ensures EventsInv(Exec(c, y, acts)) && SameWatcher(y, Exec(c, y, acts))
    decreases |acts|
  {
    if acts != [] {
      EventsStep(c, y, acts[0]);
      EventsRun(c, Apply(c, y, acts[0]), acts[1..]);
    }
  }

  /** What holds in every state of every run. */
  lemma InvRun(c: Codec, y: System, acts: seq<Action>)
    requires Starts(y) && Runs(c, y, acts)
    ensures var z := Exec(c, y, acts); BufferInv(z) && WritesInv(c, z) && EventsInv(z) && SameWatcher(y, z)
  {
    StartsGood(c, y);
    WritesRun(c, y, acts);
    EventsRun(c, y, acts);
  }

  // ----- What the client gets

  lemma {:induction false} AcceptedIsStream(chunks: seq<WB.Chunk<char>>, es: seq<Encoded>)
    requires |chunks| <= |es| && forall i :: 0 <= i < |chunks| ==> chunks[i].data == Frame(es[i])
    ensures WB.Accepted(chunks) == Stream(es[..|chunks|])
  {
    if chunks != [] {
      var n := |chunks| - 1;
      AcceptedIsStream(chunks[..n], es);
      StreamSnoc(es, n);
    }
  }

  lemma {:induction false} StreamMonotone(es: seq<Encoded>, k: nat)
    requires k <= |es|
    ensures Stream(es[..k]) <= Stream(es)
    decreases |es| - k
  {
    if k == |es| {
      assert es[..k] == es;
    } else {
      StreamSnoc(es, k);
      StreamMonotone(es, k + 1);
    }
  }

  /** The bytes the loop received are the frames of the events whose Write has returned. */
  lemma AcceptedFrames(c: Codec, es: seq<Event>, writers: seq<WB.WriterPc<char>>, accepted: seq<WB.Chunk<char>>)
    requires Written(c, es, writers, accepted) && Safety.Matched(accepted, writers)
    ensures WB.Accepted(accepted) == Stream(Encode(c, es)[..|accepted|])
  {
    var encoded := Encode(c, es);
    forall i | 0 <= i < |accepted| ensures accepted[i].data == Frame(encoded[i]) {
      assert writers[accepted[i].writer].data == accepted[i].data;
    }
    AcceptedIsStream(accepted, encoded);
  }

  /** What the bytes read depend on. */
  ghost predicate StreamInv(c: Codec, y: System) {
    Safety.BytesInv(y.wb) && Safety.HistoryInv(y.wb) && Safety.ChunksInv(y.wb) && !y.wb.closed && WritesInv(c, y)
  }

  /** The bytes the client has read are the first bytes of the stream of the emitted events. */
  lemma ReadBytesAreStream(c: Codec, y: System)
    requires StreamInv(c, y)
    ensures WB.Returned(y.wb.results) <= Stream(Encode(c, y.emitted))
    ensures WriteReturned(y.wb) && y.wb.buf == [] && !WB.HasReply(y.wb.loop) ==>
              WB.Returned(y.wb.results) == Stream(Encode(c, y.emitted))
  {
    ReturnedOfAccepted(y.wb);
    AcceptedPrefix(c, y.emitted, y.wb.writers, y.wb.accepted);
  }

  lemma ReturnedOfAccepted(wb: WB.State<char>)
    requires Safety.BytesInv(wb) && Safety.HistoryInv(wb) && !wb.closed
    ensures WB.Returned(wb.results) <= WB.Accepted(wb.accepted)
    ensures wb.buf == [] && !WB.HasReply(wb.loop) ==> WB.Returned(wb.results) == WB.Accepted(wb.accepted)
  {
    assert wb.returned + [] + [] == wb.returned;
  }

  lemma FirstOf(es: seq<Encoded>, k: nat)
    requires k <= |es|
    ensures Stream(es[..k]) <= Stream(es) && (k == |es| ==> Stream(es[..k]) == Stream(es))
  {
    StreamMonotone(es, k);
    assert es[..|es|] == es;
  }

  lemma AcceptedPrefix(c: Codec, es: seq<Event>, writers: seq<WB.WriterPc<char>>, accepted: seq<WB.Chunk<char>>)
    requires Written(c, es, writers, accepted) && Safety.Matched(accepted, writers)
    ensures WB.Accepted(accepted) <= Stream(Encode(c, es))
    ensures |accepted| == |es| ==> WB.Accepted(accepted) == Stream(Encode(c, es))
  {
    AcceptedFrames(c, es, writers, accepted);
    FirstOf(Encode(c, es), |accepted|);
  }

  /** The client's copy is the replay of the events whose frames are complete in what it has read. */
  lemma CopyIsReplay(c: Codec, es: seq<Event>, bytes: Text) returns (k: nat)
    requires Good(c) && bytes <= Stream(Encode(c, es))
    ensures k == |Decode(bytes)| <= |es| && ClientCopy(c, bytes) == Replay(es[..k])
    ensures bytes == Stream(Encode(c, es)) ==> k == |es|
  {
    var encoded := Encode(c, es);
    EventsRoundTrip(c, es);
    k := DecodePrefix(encoded, bytes);
    assert encoded[..k] == Encode(c, es[..k]);
    EventsRoundTrip(c, es[..k]);
    if k < |es| {
      StreamMonotone(encoded, k + 1);
    }
  }

  /** Nothing written is left unread. */
  predicate Drained(y: System) {
    y.todo == [] && WriteReturned(y.wb) && y.wb.buf == [] && !WB.HasReply(y.wb.loop)
  }

  /** The bytes the client has read. */
  function Read(y: System): Text { WB.Returned(y.wb.results) }

  /** The client's copy, from k complete frames: it is the view of a watcher that was sent the events of the first j
      operations, whenever they sent k events; so it agrees with the store after those operations on what matches,
      and with the current store once everything is read. */
  ghost predicate CopyAgrees(c: Codec, y: System, k: nat) {
    var copy := ClientCopy(c, Read(y));
    && k == |Decode(Read(y))|
    && (forall j :: 0 <= j <= |y.ops| && |Sent(y.m, y.sel, y.listing, y.ops[..j])| == k ==>
          Agrees(y.m, StoreAfter(y.start, y.ops[..j]), y.sel, copy))
    && (Drained(y) ==> Agrees(y.m, y.cache, y.sel, copy))
  }

  /** The copy made of the first k events, if the first j operations sent that many. */
  lemma CopyAfter(c: Codec, y: System, j: nat, k: nat)
    requires EventsInv(y) && j <= |y.ops| && k == |Sent(y.m, y.sel, y.listing, y.ops[..j])| <= |y.emitted|
    ensures Agrees(y.m, StoreAfter(y.start, y.ops[..j]), y.sel, Replay(y.emitted[..k]))
    ensures MatchesByKey(y.m, y.sel) && NoReplace(y.ops) ==>
              Replay(y.emitted[..k]) == Shown(y.m, StoreAfter(y.start, y.ops[..j]), y.sel)
  {
    var sent := Sent(y.m, y.sel, y.listing, y.ops[..j]);
    SentPrefix(y.m, y.sel, y.listing, y.ops, j);
    assert y.emitted[..k] == (y.emitted + y.todo)[..k] == sent;
    SentAgrees(y.m, y.sel, y.start, y.listing, y.ops[..j]);
    if MatchesByKey(y.m, y.sel) && NoReplace(y.ops) {
      SentExact(y.m, y.sel, y.start, y.listing, y.ops[..j]);
    }
  }

  /** What the invariant says of the client's copy, without the buffer: k events of it are complete. */
  lemma CopyInState(c: Codec, y: System) returns (k: nat)
    requires Good(c) && StreamInv(c, y) && EventsInv(y)
    ensures k == |Decode(Read(y))| <= |y.emitted| && ClientCopy(c, Read(y)) == Replay(y.emitted[..k])
    ensures Drained(y) ==> k == |y.emitted| == |Sent(y.m, y.sel, y.listing, y.ops)|
  {
    ReadBytesAreStream(c, y);
    k := CopyIsReplay(c, y.emitted, Read(y));
  }

  lemma CopyAgreesInState(c: Codec, y: System) returns (k: nat)
    requires Good(c) && StreamInv(c, y) && EventsInv(y)
    ensures CopyAgrees(c, y, k)
  {
    k := CopyInState(c, y);
    forall j | 0 <= j <= |y.ops| && |Sent(y.m, y.sel, y.listing, y.ops[..j])| == k
      ensures Agrees(y.m, StoreAfter(y.start, y.ops[..j]), y.sel, ClientCopy(c, Read(y)))
    {
      CopyAfter(c, y, j, k);
    }
    assert y.ops[..|y.ops|] == y.ops;
  }

  /** End-to-end selector views: in every run of Add, Update, Delete and Replace with Reads of any sizes, for any
      selector, the client's copy agrees on what matches with the store after any operations that sent as many events
      as are complete in what was read, and with the current store once everything is read. */
  lemma ClientViewAgrees(c: Codec, y: System, acts: seq<Action>) returns (k: nat)
    requires Good(c) && Starts(y) && Runs(c, y, acts)
    ensures CopyAgrees(c, Exec(c, y, acts), k)
  {
    InvRun(c, y, acts);
    k := CopyAgreesInState(c, Exec(c, y, acts));
  }

  /** The client's copy is the view of a watcher after the first j operations. */
  ghost predicate CopyIsAfter(c: Codec, y: System, j: nat) {
    && j <= |y.ops| && |Sent(y.m, y.sel, y.listing, y.ops[..j])| == |Decode(Read(y))|
    && Agrees(y.m, StoreAfter(y.start, y.ops[..j]), y.sel, ClientCopy(c, Read(y)))
    && (MatchesByKey(y.m, y.sel) ==> ClientCopy(c, Read(y)) == Shown(y.m, StoreAfter(y.start, y.ops[..j]), y.sel))
  }

  /** Without Replace, once the listing has been read, there always are such operations: the client's copy agrees with
      the store as it was after some operation, and is exactly what matched then if matching depends only on the key. */
  lemma ClientViewIsSomeStore(c: Codec, y: System, acts: seq<Action>) returns (j: nat)
    requires Good(c) && Starts(y) && Runs(c, y, acts)
    ensures var z := Exec(c, y, acts);
            NoReplace(z.ops) && |Decode(Read(z))| >= |y.listing| ==> CopyIsAfter(c, z, j)
  {
    InvRun(c, y, acts);
    var z := Exec(c, y, acts);
    var k := CopyInState(c, z);
    j := 0;
    if NoReplace(z.ops) && k >= |y.listing| {
      j := SentReaches(y.m, y.sel, y.listing, z.ops, k);
      CopyAfter(c, z, j, k);
    }
  }

  lemma EverythingAfter(c: Codec, y: System, k: nat)
    requires EventsInv(y) && y.m == EVERYTHING && NoReplace(y.ops) && |y.listing| <= k <= |y.emitted|
    ensures k - |y.listing| <= |y.ops| && Replay(y.emitted[..k]) == StoreAfter(y.start, y.ops[..k - |y.listing|])
    ensures k - |y.listing| == |y.ops| ==> Replay(y.emitted[..k]) == y.cache
  {
    assert y.ops[..|y.ops|] == y.ops;
    assert |y.emitted| <= |y.emitted + y.todo|;
    var j := SentReaches(y.m, y.sel, y.listing, y.ops, k);
    EverythingSent(y.sel, y.listing, y.ops[..j]);
    CopyAfter(c, y, j, k);
    var store := StoreAfter(y.start, y.ops[..j]);
    assert Shown(EVERYTHING, store, y.sel) == store;
  }

  /** End-to-end replication: for the watcher of everything, once the listing of n objects has been read the client's
      copy is exactly the store as it was after k - n operations, where k frames are complete in what was read; and
      once everything written has been read it is the current store. */
  lemma ClientCopyIsStore(c: Codec, y: System, acts: seq<Action>)
    requires Good(c) && Starts(y) && y.m == EVERYTHING && Runs(c, y, acts)
    ensures NoReplace(Exec(c, y, acts).ops) ==> CopyIsStore(c, Exec(c, y, acts))
  {
    InvRun(c, y, acts);
    if NoReplace(Exec(c, y, acts).ops) {
      CopyIsStoreInState(c, Exec(c, y, acts));
    }
  }

  ghost predicate CopyIsStore(c: Codec, y: System) {
    var k, n, copy := |Decode(Read(y))|, |y.listing|, ClientCopy(c, Read(y));
    && (k >= n ==> k - n <= |y.ops| && copy == StoreAfter(y.start, y.ops[..k - n]))
    && (Drained(y) ==> k == n + |y.ops| && copy == y.cache)
  }

  lemma CopyIsStoreInState(c: Codec, y: System)
    requires Good(c) && StreamInv(c, y) && EventsInv(y) && y.m == EVERYTHING && NoReplace(y.ops)
    ensures CopyIsStore(c, y)
  {
    var k := CopyInState(c, y);
    EverythingSent(y.sel, y.listing, y.ops);
    if k >= |y.listing| {
      EverythingAfter(c, y, k);
    }
  }
}
