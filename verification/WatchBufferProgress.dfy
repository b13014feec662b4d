/** Progress of the watch buffer while it is open: a measure that every step decreases, exactly which states
    are stuck, and the return of a Read for which there is data. */
module WatchBufferProgress {
  import opened WatchBuffer
  import opened WatchBufferSafety

  /** A step of a call already made; new calls and Close come from outside. */
  predicate Internal<T>(a: Action<T>) { !a.CallRead? && !a.CallWrite? && !a.CloseEnter? }

  predicate AllInternal<T>(acts: seq<Action<T>>) { forall i :: 0 <= i < |acts| ==> Internal(acts[i]) }

  /** No Close call has taken the lock. */
  predicate Open<T>(s: State<T>) { !s.closed && s.closer.CIdle? && !s.fault }

  // ----- The measure

  function ReaderWeight(r: ReaderPc): nat {
    match r
    case RIdle => 0
    case RRecv(_) => 1
    case RUnlock(_) => 2
    case RSend(_) => 12
    case RAtLock(_) => 13
    case RHold(_) => 14
    case RStart(_) => 15
  }

  function LoopWeight<T>(l: LoopPc<T>): nat {
    match l
    case LSelect => 0
    case LUnlock => 1
    case LSend(_) => 2
    case LLock(_) => 3
    case LReplyHold(_) => 4
    case LReply(_) => 5
    case LNeedData(_) => 6
    case LEmptyHold => 1
    case LEmpty => 2
    case LExit => 0
  }

  function WritersWeight<T>(ws: seq<WriterPc<T>>): nat {
    5 * Count(ws, Starting) + 4 * Count(ws, Holding) + 3 * Count(ws, Sending)
  }

  /** How many more steps the calls in progress can take. */
  function Measure<T>(s: State<T>): nat {
    ReaderWeight(s.reader) + LoopWeight(s.loop) + WritersWeight(s.writers)
  }

  lemma WritersWeightUpdate<T>(ws: seq<WriterPc<T>>, i: nat, w: WriterPc<T>)
    requires i < |ws|
    ensures WritersWeight(ws[i := w]) == WritersWeight(ws) - WritersWeight([ws[i]]) + WritersWeight([w])
  {
    CountUpdate(ws, i, w, Starting);
    CountUpdate(ws, i, w, Holding);
    CountUpdate(ws, i, w, Sending);
    SingleWeight(ws[i]);
    SingleWeight(w);
  }

  /** A new Write call weighs five steps. */
  lemma NewWriterWeight<T>(ws: seq<WriterPc<T>>, data: seq<T>)
    ensures WritersWeight(ws + [WStart(data)]) == WritersWeight(ws) + 5
  {
    assert (ws + [WStart(data)])[..|ws|] == ws;
  }

  lemma SingleWeight<T>(w: WriterPc<T>)
    ensures forall k :: Count([w], k) == if Kind(w) == k then 1 else 0
  {
    assert [w][..0] == [];
  }

  lemma WriterFalls<T>(s: State<T>, a: Action<T>)
    requires Open(s) && Enabled(s, a) && (a.WriterRLock? || a.WriterCheck? || a.Accept?)
    ensures WritersWeight(Apply(s, a).writers) + (if a.Accept? then 3 else 1) == WritersWeight(s.writers)
  {
    var w := Apply(s, a).writers[a.i];
    WritersWeightUpdate(s.writers, a.i, w);
    SingleWeight(s.writers[a.i]);
    SingleWeight(w);
    assert Apply(s, a).writers == s.writers[a.i := w];
  }

  /** While the buffer is open every step of a call in progress makes the measure smaller. */
  lemma MeasureFalls<T>(s: State<T>, a: Action<T>)
    requires ChannelsInv(s) && Open(s) && Internal(a) && Enabled(s, a)
    ensures Measure(Apply(s, a)) < Measure(s)
  {
    if ByWriter(a) {
      WriterFalls(s, a);
    } else {
      assert Apply(s, a).writers == s.writers;
    }
  }

  lemma StaysOpen<T>(s: State<T>, a: Action<T>)
    requires ChannelsInv(s) && Open(s) && Internal(a) && Enabled(s, a)
    ensures Open(Apply(s, a))
  {
  }

  // ----- Stuck states

  /** Nothing to do: all writes returned, and the reader is idle or waits on an empty buffer. */
  predicate Quiescent<T>(s: State<T>) {
    && (forall i :: 0 <= i < |s.writers| ==> s.writers[i].WDone?)
    && ((s.reader.RIdle? && s.loop.LSelect?) || (s.reader.RRecv? && s.loop.LNeedData?))
  }

  /** The one deadlock: the loop wants the read lock to test an empty chunk while the reader holds the lock
      and waits for the loop. */
  predicate EmptyChunkDeadlock<T>(s: State<T>) { s.reader.RSend? && s.loop.LEmpty? }

  ghost predicate Stuck<T(!new)>(s: State<T>) { forall a: Action<T> :: Internal(a) ==> !Enabled(s, a) }

  /** The RWMutex may keep an RLock waiting while some thread waits for Lock. */
  predicate Deferrable<T>(s: State<T>, a: Action<T>) {
    (a.ReaderRLock? || a.WriterRLock? || a.EmptyRLock? || a.ReplyRLock?) && (s.reader.RAtLock? || s.loop.LLock?)
  }

  /** A writer that has not returned. */
  function FirstPending<T>(ws: seq<WriterPc<T>>): nat
    requires exists i :: 0 <= i < |ws| && !ws[i].WDone?
    ensures FirstPending(ws) < |ws| && !ws[FirstPending(ws)].WDone?
  {
    if !ws[|ws| - 1].WDone? then |ws| - 1
    else
      assert forall i :: 0 <= i < |ws| - 1 ==> ws[..|ws| - 1][i] == ws[i];
      FirstPending(ws[..|ws| - 1])
  }

  /** A step of the loop, if the loop is not waiting for somebody. */
  lemma LoopMoves<T>(s: State<T>) returns (a: Action<T>)
    requires LockInv(s) && ChannelsInv(s) && HandshakeInv(s) && Open(s)
    requires !s.loop.LSelect? && !s.loop.LNeedData? && !EmptyChunkDeadlock(s)
    requires s.holders <= {Loop}
    ensures Internal(a) && Enabled(s, a) && !Deferrable(s, a)
  {
    if s.reader.RUnlock? {
      return ReaderUnlock;
    }
    if s.reader.RAtLock? && s.loop.LEmpty? {
      return ReaderLock;
    }
    match s.loop
    case LEmpty => return EmptyRLock;
    case LEmptyHold => return EmptyCheck;
    case LReply(_) => return ReplyRLock;
    case LReplyHold(_) => return ReplyCheck;
    case LLock(_) => return LoopLock;
    case LSend(_) => return GiveReply;
    case LUnlock => return LoopUnlock;
  }

  /** A step of the reader, when the loop is at its select. */
  lemma ReaderMoves<T>(s: State<T>) returns (a: Action<T>)
    requires LockInv(s) && ChannelsInv(s) && HandshakeInv(s) && Open(s)
    requires s.loop.LSelect? && !s.reader.RIdle? && s.holders <= {Reader}
    ensures Internal(a) && Enabled(s, a) && !Deferrable(s, a)
  {
    match s.reader
    case RStart(_) => return ReaderRLock;
    case RHold(_) => return ReaderCheck;
    case RAtLock(_) => return ReaderLock;
    case RSend(_) => return GiveRead;
  }

  /** If the state is neither quiescent nor the deadlock, some step is possible even when waiting lockers go first. */
  lemma SomebodyMoves<T>(s: State<T>) returns (a: Action<T>)
    requires Inv(s) && Open(s) && !Quiescent(s) && !EmptyChunkDeadlock(s)
    ensures Internal(a) && Enabled(s, a) && !Deferrable(s, a)
  {
    if i: nat :| i < |s.writers| && s.writers[i].WHold? {
      return WriterCheck(i);
    }
    assert forall i: nat :: Writer(i) !in s.holders;
    if s.reader.RHold? {
      return ReaderCheck;
    }
    assert forall h :: h in s.holders ==> h == Loop;
    if !s.loop.LSelect? && !s.loop.LNeedData? {
      a := LoopMoves(s);
    } else if s.loop.LSelect? && !s.reader.RIdle? {
      a := ReaderMoves(s);
    } else if s.reader.RUnlock? {
      return ReaderUnlock;
    } else {
      var i := FirstPending(s.writers);
      return if s.writers[i].WStart? then WriterRLock(i) else Accept(i);
    }
  }

  /** Exactly which states of an open buffer are stuck. */
  lemma StuckIff<T(!new)>(s: State<T>)
    requires Inv(s) && Open(s)
    ensures Stuck(s) <==> Quiescent(s) || EmptyChunkDeadlock(s)
  {
    if !Quiescent(s) && !EmptyChunkDeadlock(s) {
      var a := SomebodyMoves(s);
    } else {
      forall a: Action<T> | Internal(a) ensures !Enabled(s, a) {
        if EmptyChunkDeadlock(s) {
          assert s.holders == {};
        }
      }
    }
  }

  // ----- Every maximal run returns the Read

  /** With non-empty chunks the loop never tests for an empty one before the channel is closed. */
  predicate NoEmptyInv<T>(s: State<T>) {
    NonEmptyChunks(s) && (!s.writeClosed ==> !s.loop.LEmpty? && !s.loop.LEmptyHold?)
  }

  predicate AtEmpty<T>(l: LoopPc<T>) { l.LEmpty? || l.LEmptyHold? }

  lemma LoopAtEmpty<T>(s: State<T>, a: Action<T>)
    requires Enabled(s, a) && ByLoop(a) && AtEmpty(Apply(s, a).loop)
    ensures AtEmpty(s.loop) || s.writeClosed
  {
  }

  lemma OthersAtEmpty<T>(s: State<T>, a: Action<T>)
    requires Enabled(s, a) && !ByLoop(a) && AtEmpty(Apply(s, a).loop)
    ensures AtEmpty(s.loop) || (a.Accept? && s.writers[a.i].data == [])
  {
    if ByReader(a) && !a.GiveRead? && !a.GiveReply? {
      ReaderLeavesLoop(s, a);
    } else if ByWriter(a) && !a.Accept? {
      WriterLeavesLoop(s, a);
    }
  }

  lemma NoEmptyStep<T>(s: State<T>, a: Action<T>)
    requires ChannelsInv(s) && NoEmptyInv(s) && Enabled(s, a) && (a.CallWrite? ==> a.data != [])
    ensures NoEmptyInv(Apply(s, a))
  {
    NonEmptyStep(s, a);
    if AtEmpty(Apply(s, a).loop) {
      if ByLoop(a) {
        LoopAtEmpty(s, a);
      } else {
        OthersAtEmpty(s, a);
      }
    }
  }

  lemma {:induction false} NoEmptyRun<T>(s: State<T>, acts: seq<Action<T>>)
    requires Inv(s) && NoEmptyInv(s) && Runs(s, acts) && NoEmptyWrites(acts)
    ensures NoEmptyInv(Exec(s, acts))
    decreases |acts|
  {
    if acts != [] {
      InvStep(s, acts[0]);
      NoEmptyStep(s, acts[0]);
      NoEmptyRun(Apply(s, acts[0]), acts[1..]);
    }
  }

  /** A run of steps of calls in progress is no longer than the measure, and leaves the buffer open. */
  lemma {:induction false} MeasureRun<T>(s: State<T>, acts: seq<Action<T>>)
    requires Inv(s) && Open(s) && Runs(s, acts) && AllInternal(acts)
    ensures |acts| + Measure(Exec(s, acts)) <= Measure(s)
    ensures Open(Exec(s, acts))
    decreases |acts|
  {
    if acts != [] {
      InvStep(s, acts[0]);
      MeasureFalls(s, acts[0]);
      StaysOpen(s, acts[0]);
      MeasureRun(Apply(s, acts[0]), acts[1..]);
    }
  }

  /** The Read in progress at s is still in progress at t, or has returned and is the last one. */
  ghost predicate SameRead<T>(s: State<T>, t: State<T>) {
    if t.reader.RIdle? then |t.results| == |s.results| + 1
    else |t.results| == |s.results| && t.returned == s.returned && (HasReply(s.loop) ==> HasReply(t.loop))
  }

  lemma SameReadStep<T>(s: State<T>, t: State<T>, a: Action<T>)
    requires ChannelsInv(t) && HandshakeInv(t) && Open(t) && Internal(a) && Enabled(t, a) && SameRead(s, t)
    ensures SameRead(s, Apply(t, a))
  {
  }

  lemma {:induction false} SameReadRun<T>(s: State<T>, t: State<T>, acts: seq<Action<T>>)
    requires Inv(t) && Open(t) && Runs(t, acts) && AllInternal(acts) && SameRead(s, t)
    ensures SameRead(s, Exec(t, acts))
    decreases |acts|
  {
    if acts != [] {
      InvStep(t, acts[0]);
      StaysOpen(t, acts[0]);
      SameReadStep(s, t, acts[0]);
      SameReadRun(s, Apply(t, acts[0]), acts[1..]);
    }
  }

  /** The Write call w, pending at s, is still pending at t, or its bytes were received since. */
  predicate PendingSince<T>(s: State<T>, w: nat, t: State<T>) {
    && w < |t.writers| && t.writers[w].data != []
    && |s.taken| <= |t.taken|
    && (t.writers[w].WDone? ==> |s.taken| < |t.taken|)
  }

  lemma PendingWriter<T>(s: State<T>, w: nat, t: State<T>, a: Action<T>)
    requires Open(t) && Enabled(t, a) && ByWriter(a) && PendingSince(s, w, t)
    ensures PendingSince(s, w, Apply(t, a))
  {
  }

  lemma PendingStep<T>(s: State<T>, w: nat, t: State<T>, a: Action<T>)
    requires Open(t) && Enabled(t, a) && PendingSince(s, w, t)
    ensures PendingSince(s, w, Apply(t, a))
  {
    if ByWriter(a) {
      PendingWriter(s, w, t, a);
    } else {
      assert Apply(t, a).writers == t.writers && Apply(t, a).taken == t.taken;
    }
  }

  lemma {:induction false} PendingRun<T>(s: State<T>, w: nat, t: State<T>, acts: seq<Action<T>>)
    requires Inv(t) && Open(t) && Runs(t, acts) && AllInternal(acts) && PendingSince(s, w, t)
    ensures PendingSince(s, w, Exec(t, acts))
    decreases |acts|
  {
    if acts != [] {
      InvStep(t, acts[0]);
      StaysOpen(t, acts[0]);
      PendingStep(s, w, t, acts[0]);
      PendingRun(s, w, Apply(t, acts[0]), acts[1..]);
    }
  }

  /** There is something for the reader: a reply under way, bytes in the buffer, or a Write in progress. */
  predicate DataAhead<T>(s: State<T>) {
    HasReply(s.loop) || s.buf != [] || exists w :: 0 <= w < |s.writers| && !s.writers[w].WDone?
  }

  lemma {:induction false} MaximalRunReturns<T(!new)>(s: State<T>, acts: seq<Action<T>>)
    requires Inv(s) && Open(s) && NoEmptyInv(s) && !s.reader.RIdle? && DataAhead(s)
    requires Runs(s, acts) && AllInternal(acts) && Stuck(Exec(s, acts))
    ensures var t := Exec(s, acts);
            t.reader.RIdle? && |t.results| == |s.results| + 1 && |acts| <= Measure(s)
  {
    var t := Exec(s, acts);
    MeasureRun(s, acts);
    InvRun(s, acts);
    NoEmptyRun(s, acts);
    StuckIff(t);
    SameReadRun(s, s, acts);
    if !t.reader.RIdle? {
      assert t.returned == t.taken;
      if w :| 0 <= w < |s.writers| && !s.writers[w].WDone? {
        PendingRun(s, w, s, acts);
      } else {
        TakenGrows(s, acts);
      }
      assert false;
    }
  }

  lemma {:induction false} TakenGrows<T>(s: State<T>, acts: seq<Action<T>>)
    ensures |s.taken| <= |Exec(s, acts).taken|
    decreases |acts|
  {
    if acts != [] {
      AcceptedGrow(s, acts[0]);
      TakenGrows(Apply(s, acts[0]), acts[1..]);
    }
  }

  /** Progress: from every reachable open state with a Read in progress and data ahead of it, every maximal run
      of the calls in progress is bounded by the measure and ends with that Read returned, without error
      and with at least one byte if its slice has room. */
  lemma ReadReturns<T(!new)>(before: seq<Action<T>>, acts: seq<Action<T>>)
    requires Runs(Init<T>(), before) && NoEmptyWrites(before)
    requires var s := Exec(Init<T>(), before);
             && Open(s) && !s.reader.RIdle? && DataAhead(s)
             && Runs(s, acts) && AllInternal(acts) && Stuck(Exec(s, acts))
    ensures var s, t := Exec(Init<T>(), before), Exec(Exec(Init<T>(), before), acts);
            && t.reader.RIdle? && |t.results| == |s.results| + 1 && |acts| <= Measure(s)
            && GoodReply(t.results[|s.results|])
  {
    var s := Exec(Init<T>(), before);
    InitInv<T>();
    InvRun(Init<T>(), before);
    NoEmptyRun(Init<T>(), before);
    MaximalRunReturns(s, acts);
    RepliesRun(Init<T>(), before);
    RepliesRun(s, acts);
    MeasureRun(s, acts);
  }

  lemma {:induction false} RunsAppend<T>(s: State<T>, acts: seq<Action<T>>, a: Action<T>)
    requires Runs(s, acts) && Enabled(Exec(s, acts), a)
    ensures Runs(s, acts + [a]) && Exec(s, acts + [a]) == Apply(Exec(s, acts), a)
    decreases |acts|
  {
    if acts == [] {
      assert [a][1..] == [];
    } else {
      assert (acts + [a])[1..] == acts[1..] + [a];
      RunsAppend(Apply(s, acts[0]), acts[1..], a);
    }
  }

  /** A writer and a reader that both got past their closed checks, the reader holding the lock. */
  lemma BothPastTheirChecks(data: seq<char>, cap: nat) returns (acts: seq<Action<char>>)
    ensures Runs(Init<char>(), acts)
    ensures Exec(Init<char>(), acts) == Init<char>().(writers := [WSend(data)], reader := RSend(cap), wlocked := true)
    ensures WritesFrom(acts, iset{data})
  {
    var s := Init<char>();
    acts := [];
    RunsAppend(s, acts, CallWrite(data));
    acts := acts + [CallWrite(data)];
    assert Exec(s, acts) == s.(writers := [WStart(data)]);
    RunsAppend(s, acts, WriterRLock(0));
    acts := acts + [WriterRLock(0)];
    assert Exec(s, acts) == s.(writers := [WHold(data)], holders := {Writer(0)});
    RunsAppend(s, acts, WriterCheck(0));
    acts := acts + [WriterCheck(0)];
    assert Exec(s, acts) == s.(writers := [WSend(data)]);
    RunsAppend(s, acts, CallRead(cap));
    acts := acts + [CallRead(cap)];
    RunsAppend(s, acts, ReaderRLock);
    acts := acts + [ReaderRLock];
    assert Exec(s, acts) == s.(writers := [WSend(data)], reader := RHold(cap), holders := {Reader});
    RunsAppend(s, acts, ReaderCheck);
    acts := acts + [ReaderCheck];
    assert Exec(s, acts) == s.(writers := [WSend(data)], reader := RAtLock(cap));
    RunsAppend(s, acts, ReaderLock);
    acts := acts + [ReaderLock];
  }

  /** One empty Write and one Read reach the deadlock: the non-empty assumption cannot be dropped. */
  lemma EmptyWriteDeadlocks() returns (acts: seq<Action<char>>)
    ensures Runs(Init<char>(), acts) && WritesFrom(acts, iset{[]})
    ensures var s := Exec(Init<char>(), acts); Open(s) && EmptyChunkDeadlock(s) && Stuck(s) && !s.reader.RIdle?
  {
    acts := BothPastTheirChecks([], 4);
    EmptyAccept(Exec(Init<char>(), acts));
    RunsAppend(Init<char>(), acts, Accept(0));
    acts := acts + [Accept(0)];
    InitInv<char>();
    InvRun(Init<char>(), acts);
    StuckIff(Exec(Init<char>(), acts));
  }

  lemma EmptyAccept(s: State<char>)
    requires s == Init<char>().(writers := [WSend([])], reader := RSend(4), wlocked := true)
    ensures Enabled(s, Accept(0))
    ensures var t := Apply(s, Accept(0)); Open(t) && EmptyChunkDeadlock(t) && !t.reader.RIdle?
  {
  }

  /** Every chunk written in the run is one that callers may write. */
  ghost predicate WritesFrom<T>(acts: seq<Action<T>>, chunks: iset<seq<T>>) {
    forall i :: 0 <= i < |acts| && acts[i].CallWrite? ==> acts[i].data in chunks
  }

  /** Some run that writes only such chunks leaves the open buffer in the deadlock. */
  ghost predicate CanDeadlock(chunks: iset<seq<char>>) {
    exists acts :: Runs(Init<char>(), acts) && WritesFrom(acts, chunks)
                   && Open(Exec(Init<char>(), acts)) && EmptyChunkDeadlock(Exec(Init<char>(), acts))
  }

  /** Whatever chunks callers may write, some run can deadlock the open buffer if and only if one of them is empty. */
  lemma DeadlockIffEmptyChunk(chunks: iset<seq<char>>)
    ensures CanDeadlock(chunks) <==> [] in chunks
  {
    if [] in chunks {
      var acts := EmptyWriteDeadlocks();
    } else if CanDeadlock(chunks) {
      var acts :| Runs(Init<char>(), acts) && WritesFrom(acts, chunks)
                  && Open(Exec(Init<char>(), acts)) && EmptyChunkDeadlock(Exec(Init<char>(), acts));
      InitInv<char>();
      NoEmptyRun(Init<char>(), acts);
      InvRun(Init<char>(), acts);
    }
  }
}
