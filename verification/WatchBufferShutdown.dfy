/** Closing the watch buffer: exactly when Close is safe, and what happens after a safe Close. */
module WatchBufferShutdown {
  import opened WatchBuffer
  import opened WatchBufferSafety
  import opened WatchBufferProgress

  /** No thread is between its closed check and the end of its channel send. */
  predicate Settled<T>(s: State<T>) {
    && !s.reader.RAtLock? && !s.reader.RSend?
    && !s.loop.LLock? && !s.loop.LSend?
    && (forall i :: 0 <= i < |s.writers| ==> !s.writers[i].WSend?)
  }

  /** Close has been taken, and no thread can send any more. */
  predicate Shut<T>(s: State<T>) {
    (s.closed || s.closer.CHeld?) && Settled(s) && !s.fault && !s.reader.RUnlock? && !s.loop.LUnlock?
  }

  lemma ShutLocks<T>(s: State<T>, a: Action<T>)
    requires LockInv(s) && ChannelsInv(s) && Shut(s) && Enabled(s, a)
    ensures a.ReaderCheck? || a.WriterCheck? || a.ReplyCheck? || a.EmptyCheck? ==> s.closed
    ensures !a.GiveReply? && !a.Accept? && !a.GiveRead? && !a.ReaderFault? && !a.WriterFault? && !a.LoopFault?
  {
    if a.WriterCheck? {
      assert Writer(a.i) in s.holders;
    } else if a.ReaderCheck? {
      assert Reader in s.holders;
    } else if a.ReplyCheck? || a.EmptyCheck? {
      assert Loop in s.holders;
    }
  }

  lemma ShutReader<T>(s: State<T>, a: Action<T>)
    requires LockInv(s) && ChannelsInv(s) && Shut(s) && Enabled(s, a) && ByReader(a)
    ensures Shut(Apply(s, a))
  {
    ShutLocks(s, a);
  }

  lemma ShutWriter<T>(s: State<T>, a: Action<T>)
    requires LockInv(s) && ChannelsInv(s) && Shut(s) && Enabled(s, a) && ByWriter(a)
    ensures Shut(Apply(s, a))
  {
    ShutLocks(s, a);
  }

  lemma ShutStep<T>(s: State<T>, a: Action<T>)
    requires LockInv(s) && ChannelsInv(s) && Shut(s) && Enabled(s, a)
    ensures Shut(Apply(s, a))
  {
    if ByReader(a) {
      ShutReader(s, a);
    } else if ByWriter(a) {
      ShutWriter(s, a);
    } else {
      ShutLocks(s, a);
      assert Apply(s, a).writers == s.writers && Apply(s, a).reader == s.reader;
    }
  }

  /** The data of t is the data of s: nothing received, buffered or delivered since. */
  ghost predicate SameData<T>(s: State<T>, t: State<T>) {
    && t.buf == s.buf && t.accepted == s.accepted && t.returned == s.returned
    && s.results <= t.results
    && (forall i :: |s.results| <= i < |t.results| ==> t.results[i].data == [])
  }

  lemma SameDataStep<T>(s: State<T>, t: State<T>, a: Action<T>)
    requires LockInv(t) && ChannelsInv(t) && Shut(t) && Enabled(t, a) && SameData(s, t)
    ensures SameData(s, Apply(t, a))
  {
    ShutLocks(t, a);
    var u := Apply(t, a);
    assert u.buf == t.buf && u.accepted == t.accepted && u.returned == t.returned;
    assert u.results == t.results || exists r :: u.results == t.results + [r] && r.data == [] by {
      if a.ReaderCheck? {
        assert u.results == t.results + [ReadResult(t.reader.cap, [], EOF)];
      } else if a.ReaderRecvClosed? {
        assert u.results == t.results + [ReadResult(t.reader.cap, [], NoErr)];
      }
    }
  }

  lemma {:induction false} ShutRun<T>(s: State<T>, t: State<T>, acts: seq<Action<T>>)
    requires Inv(t) && Shut(t) && SameData(s, t) && Runs(t, acts)
    ensures Shut(Exec(t, acts)) && SameData(s, Exec(t, acts)) && Inv(Exec(t, acts))
    decreases |acts|
  {
    if acts != [] {
      InvStep(t, acts[0]);
      ShutStep(t, acts[0]);
      SameDataStep(s, t, acts[0]);
      ShutRun(s, Apply(t, acts[0]), acts[1..]);
    }
  }

  /** Clean shutdown: if Close takes the lock of an open buffer when no thread is between its closed check and its
      send, then whatever happens afterwards nobody sends on a closed channel, and the loop receives, buffers and
      delivers nothing more. */
  lemma CleanShutdown<T>(before: seq<Action<T>>, acts: seq<Action<T>>)
    requires Runs(Init<T>(), before)
    requires var s := Exec(Init<T>(), before);
             !s.closed && Enabled(s, CloseEnter) && Settled(s) && Runs(Apply(s, CloseEnter), acts)
    ensures var s := Exec(Init<T>(), before);
            var t := Exec(Apply(s, CloseEnter), acts);
            !t.fault && SameData(s, t) && Shut(t) && Inv(t)
  {
    InitInv<T>();
    InvRun(Init<T>(), before);
    var s := Exec(Init<T>(), before);
    InvStep(s, CloseEnter);
    ShutRun(s, Apply(s, CloseEnter), acts);
  }

  // ----- The condition is exact

  lemma RunsCons<T>(s: State<T>, a: Action<T>, acts: seq<Action<T>>)
    requires Enabled(s, a) && Runs(Apply(s, a), acts)
    ensures Runs(s, [a] + acts) && Exec(s, [a] + acts) == Exec(Apply(s, a), acts)
  {
    assert ([a] + acts)[1..] == acts;
  }

  /** If the system can reach a fault after one more step, it can reach one. */
  lemma FaultCons<T(!new)>(s: State<T>, a: Action<T>, acts: seq<Action<T>>) returns (all: seq<Action<T>>)
    requires Enabled(s, a) && Runs(Apply(s, a), acts) && Exec(Apply(s, a), acts).fault
    ensures Runs(s, all) && Exec(s, all).fault
  {
    RunsCons(s, a, acts);
    all := [a] + acts;
  }

  /** Close runs to its unlock. */
  lemma CloseCompletes<T>(s: State<T>) returns (acts: seq<Action<T>>, t: State<T>)
    requires !s.fault && !s.closer.CIdle? && ChannelsInv(s) && s.wlocked
    ensures Runs(s, acts) && t == Exec(s, acts)
    ensures t == s.(closer := CIdle, closed := true, readClosed := true, writeClosed := true, retcClosed := true,
                    wlocked := false)
    decreases match s.closer case CRetc => 0 case CWrite => 1 case CRead => 2 case CFlag => 3 case _ => 4
  {
    var s' := Apply(s, CloseStep);
    if s'.closer.CIdle? {
      acts, t := [CloseStep], s';
      assert acts[1..] == [];
    } else {
      var rest;
      rest, t := CloseCompletes(s');
      RunsCons(s, CloseStep, rest);
      acts := [CloseStep] + rest;
    }
  }

  lemma {:induction false} RunsConcat<T>(s: State<T>, xs: seq<Action<T>>, ys: seq<Action<T>>)
    requires Runs(s, xs) && Runs(Exec(s, xs), ys)
    ensures Runs(s, xs + ys) && Exec(s, xs + ys) == Exec(Exec(s, xs), ys)
    decreases |xs|
  {
    if xs == [] {
      assert xs + ys == ys;
    } else {
      assert (xs + ys)[1..] == xs[1..] + ys;
      RunsConcat(Apply(s, xs[0]), xs[1..], ys);
    }
  }

  /** With all channels closed and the lock free, a thread past its check can be made to panic. */
  lemma PanicsClosed<T(!new)>(t: State<T>) returns (acts: seq<Action<T>>)
    requires !t.fault && LockFree(t) && t.readClosed && t.writeClosed && t.retcClosed && !Settled(t)
    requires !t.reader.RSend? && !t.loop.LSend?
    ensures Runs(t, acts) && Exec(t, acts).fault
  {
    if t.reader.RAtLock? {
      acts := FaultCons(Apply(t, ReaderLock), ReaderFault, []);
      acts := FaultCons(t, ReaderLock, acts);
    } else if t.loop.LLock? {
      acts := FaultCons(Apply(t, LoopLock), LoopFault, []);
      acts := FaultCons(t, LoopLock, acts);
    } else {
      var i :| 0 <= i < |t.writers| && t.writers[i].WSend?;
      acts := FaultCons(t, WriterFault(i), []);
    }
  }

  /** A thread caught between its check and its send panics once Close is through. */
  lemma Panics<T(!new)>(s: State<T>) returns (acts: seq<Action<T>>)
    requires Inv(s) && !s.closed && Enabled(s, CloseEnter) && !Settled(s)
    ensures Runs(Apply(s, CloseEnter), acts) && Exec(Apply(s, CloseEnter), acts).fault
  {
    var c := Apply(s, CloseEnter);
    InvStep(s, CloseEnter);
    var closing, t := CloseCompletes(c);
    var last := PanicsClosed(t);
    RunsConcat(c, closing, last);
    acts := closing + last;
  }

  /** Close of an open buffer is safe in every continuation if and only if the buffer was settled. */
  lemma CloseSafeIff<T(!new)>(s: State<T>)
    requires Inv(s) && !s.closed && Enabled(s, CloseEnter)
    ensures (forall acts :: Runs(Apply(s, CloseEnter), acts) ==> !Exec(Apply(s, CloseEnter), acts).fault) <==> Settled(s)
  {
    var c := Apply(s, CloseEnter);
    InvStep(s, CloseEnter);
    if Settled(s) {
      forall acts | Runs(c, acts) ensures !Exec(c, acts).fault {
        ShutRun(s, c, acts);
      }
    } else {
      var acts := Panics(s);
    }
  }

  // ----- After Close

  /** The loop's own next step towards its exit. */
  lemma ExitMove<T>(s: State<T>) returns (a: Action<T>)
    requires LockInv(s) && ChannelsInv(s) && Shut(s) && s.closed && s.closer.CIdle? && !s.loop.LExit?
    ensures Enabled(s, a) && ByLoop(a) && LoopDistance(Apply(s, a).loop) < LoopDistance(s.loop)
    ensures Apply(s, a).closed && Apply(s, a).closer.CIdle?
  {
    a := match s.loop
      case LSelect => SelectWriteClosed
      case LEmpty => EmptyRLock
      case LEmptyHold => EmptyCheck
      case LNeedData(_) => NeedClosed
      case LReply(_) => ReplyRLock
      case _ => ReplyCheck;
  }

  /** After a safe Close the buffer's loop can always reach its exit, in at most five of its own steps. */
  lemma LoopCanExit<T>(s: State<T>) returns (acts: seq<Action<T>>)
    requires Inv(s) && Shut(s) && s.closed && s.closer.CIdle?
    ensures Runs(s, acts) && Exec(s, acts).loop.LExit? && |acts| <= LoopDistance(s.loop) <= 5
    decreases LoopDistance(s.loop)
  {
    if s.loop.LExit? {
      return [];
    }
    var a := ExitMove(s);
    InvStep(s, a);
    ShutStep(s, a);
    var rest := LoopCanExit(Apply(s, a));
    RunsCons(s, a, rest);
    acts := [a] + rest;
  }

  function LoopDistance<T>(l: LoopPc<T>): nat {
    match l
    case LExit => 0
    case LEmptyHold => 1
    case LEmpty => 2
    case LSelect => 3
    case LNeedData(_) => 4
    case LReplyHold(_) => 4
    case _ => 5
  }

  /** After a safe Close a Read that waits for its reply can always return, with no bytes. */
  lemma WaitingReadReleased<T>(s: State<T>) returns (acts: seq<Action<T>>)
    requires Inv(s) && Shut(s) && s.reader.RRecv?
    ensures Runs(s, acts)
    ensures var t := Exec(s, acts);
            t.reader.RIdle? && t.results == s.results + [ReadResult(s.reader.cap, [], NoErr)]
  {
    var t := s;
    acts := [];
    if !s.closer.CIdle? {
      acts, t := CloseCompletes(s);
    }
    RunsAppend(s, acts, ReaderRecvClosed);
    acts := acts + [ReaderRecvClosed];
  }

  /** The Read in progress at s is still in progress at t, or has returned no bytes: with EOF if it had not tested the
      flag at s, without error if it waited for its reply. */
  ghost predicate ReadSince<T>(s: State<T>, t: State<T>)
    requires !s.reader.RIdle?
  {
    var cap := s.reader.cap;
    if |t.results| == |s.results| then t.reader == s.reader || (s.reader.RStart? && t.reader == RHold(cap))
    else |s.results| < |t.results| && t.results[|s.results|] == ReadResult(cap, [], if s.reader.RStart? then EOF else NoErr)
  }

  lemma ReadSinceStep<T>(s: State<T>, t: State<T>, a: Action<T>)
    requires (s.reader.RStart? || s.reader.RRecv?) && ReadSince(s, t)
    requires LockInv(t) && ChannelsInv(t) && Shut(t) && Enabled(t, a)
    ensures ReadSince(s, Apply(t, a))
  {
    ShutLocks(t, a);
    if ByReader(a) {
      ReaderResults(t, a);
    }
  }

  lemma {:induction false} ReadSinceRun<T>(s: State<T>, t: State<T>, acts: seq<Action<T>>)
    requires (s.reader.RStart? || s.reader.RRecv?) && ReadSince(s, t)
    requires Inv(t) && Shut(t) && Runs(t, acts)
    ensures ReadSince(s, Exec(t, acts))
    decreases |acts|
  {
    if acts != [] {
      InvStep(t, acts[0]);
      ShutStep(t, acts[0]);
      ReadSinceStep(s, t, acts[0]);
      ReadSinceRun(s, Apply(t, acts[0]), acts[1..]);
    }
  }

  /** The Read in progress when a safe Close takes the lock returns, in every run in which it returns, no bytes; and it
      returns EOF if and only if it had not begun its closed check.  A Read that waits for its reply gets no error. */
  lemma ReadAtCloseGetsEOFIff<T>(before: seq<Action<T>>, acts: seq<Action<T>>)
    requires Runs(Init<T>(), before)
    requires var s := Exec(Init<T>(), before);
             && !s.closed && Enabled(s, CloseEnter) && Settled(s) && !s.reader.RIdle?
             && Runs(Apply(s, CloseEnter), acts)
    ensures var s := Exec(Init<T>(), before);
            var t := Exec(Apply(s, CloseEnter), acts);
            && (s.reader.RStart? || s.reader.RRecv?)
            && (|t.results| <= |s.results| ==> !t.reader.RIdle? && |t.results| == |s.results|)
            && (|t.results| > |s.results| ==>
                  var r := t.results[|s.results|];
                  r.cap == s.reader.cap && r.data == [] && (r.err == EOF <==> s.reader.RStart?))
  {
    var s := Exec(Init<T>(), before);
    InitInv<T>();
    InvRun(Init<T>(), before);
    InvStep(s, CloseEnter);
    ReadSinceRun(s, Apply(s, CloseEnter), acts);
  }

  /** Every Read that started after s returned EOF, and every Write that started after s did or is about to. */
  predicate LaterEOF<T>(s: State<T>, t: State<T>) {
    && |s.results| <= |t.results| && |s.writers| <= |t.writers|
    && !t.reader.RRecv? && !t.reader.RUnlock?
    && (forall i :: |s.results| <= i < |t.results| ==> |t.results[i].data| == 0 && t.results[i].err == EOF)
    && (forall w :: |s.writers| <= w < |t.writers| && t.writers[w].WDone? ==> t.writers[w].res == WriteEOF)
  }

  lemma LaterEOFStep<T>(s: State<T>, t: State<T>, a: Action<T>)
    requires LockInv(t) && ChannelsInv(t) && Shut(t) && t.closed && Enabled(t, a) && LaterEOF(s, t)
    ensures LaterEOF(s, Apply(t, a)) && Apply(t, a).closed
  {
    ShutLocks(t, a);
    if a.ReaderCheck? {
      assert Apply(t, a).results == t.results + [ReadResult(t.reader.cap, [], EOF)];
    } else {
      assert Apply(t, a).results == t.results;
    }
  }

  lemma {:induction false} LaterEOFRun<T>(s: State<T>, t: State<T>, acts: seq<Action<T>>)
    requires Inv(t) && Shut(t) && t.closed && LaterEOF(s, t) && Runs(t, acts)
    ensures LaterEOF(s, Exec(t, acts))
    decreases |acts|
  {
    if acts != [] {
      InvStep(t, acts[0]);
      ShutStep(t, acts[0]);
      LaterEOFStep(s, t, acts[0]);
      LaterEOFRun(s, Apply(t, acts[0]), acts[1..]);
    }
  }

  /** Calls made after a safe Close return zero and EOF. */
  lemma LaterCallsGetEOF<T>(s: State<T>, acts: seq<Action<T>>)
    requires Inv(s) && Shut(s) && s.closed && s.reader.RIdle? && Runs(s, acts)
    ensures var t := Exec(s, acts);
            && (forall i :: |s.results| <= i < |t.results| ==> |t.results[i].data| == 0 && t.results[i].err == EOF)
            && (forall w :: |s.writers| <= w < |t.writers| && t.writers[w].WDone? ==> t.writers[w].res == WriteEOF)
  {
    LaterEOFRun(s, s, acts);
  }

  /** A Read that starts after a safe Close is never held up: two steps of its own take it to EOF. */
  lemma LaterReadReturns<T>(s: State<T>) returns (acts: seq<Action<T>>)
    requires Inv(s) && Shut(s) && s.closed && s.closer.CIdle? && (s.reader.RStart? || s.reader.RHold?)
    ensures |acts| <= 2 && Runs(s, acts)
    ensures var t := Exec(s, acts); t.reader.RIdle? && t.results == s.results + [ReadResult(s.reader.cap, [], EOF)]
  {
    if s.reader.RHold? {
      RunsAppend(s, [], ReaderCheck);
      acts := [] + [ReaderCheck];
    } else {
      RunsAppend(s, [], ReaderRLock);
      RunsAppend(s, [] + [ReaderRLock], ReaderCheck);
      acts := [] + [ReaderRLock] + [ReaderCheck];
    }
  }

  /** And so for a Write. */
  lemma LaterWriteReturns<T>(s: State<T>, w: nat) returns (acts: seq<Action<T>>)
    requires Inv(s) && Shut(s) && s.closed && s.closer.CIdle?
    requires w < |s.writers| && (s.writers[w].WStart? || s.writers[w].WHold?)
    ensures |acts| <= 2 && Runs(s, acts)
    ensures var t := Exec(s, acts); |t.writers| == |s.writers| && t.writers[w] == WDone(s.writers[w].data, WriteEOF)
  {
    if s.writers[w].WHold? {
      RunsAppend(s, [], WriterCheck(w));
      acts := [] + [WriterCheck(w)];
    } else {
      RunsAppend(s, [], WriterRLock(w));
      RunsAppend(s, [] + [WriterRLock(w)], WriterCheck(w));
      acts := [] + [WriterRLock(w)] + [WriterCheck(w)];
    }
  }

  // ----- The failures are reachable

  /** A Read on an empty buffer that waits for its reply. */
  lemma ReadWaits(cap: nat) returns (acts: seq<Action<char>>)
    ensures Runs(Init<char>(), acts)
    ensures Exec(Init<char>(), acts) == Init<char>().(reader := RRecv(cap), loop := LNeedData(cap))
  {
    var s := Init<char>();
    acts := [];
    RunsAppend(s, acts, CallRead(cap));
    acts := acts + [CallRead(cap)];
    RunsAppend(s, acts, ReaderRLock);
    acts := acts + [ReaderRLock];
    assert Exec(s, acts) == s.(reader := RHold(cap), holders := {Reader});
    RunsAppend(s, acts, ReaderCheck);
    acts := acts + [ReaderCheck];
    assert Exec(s, acts) == s.(reader := RAtLock(cap));
    RunsAppend(s, acts, ReaderLock);
    acts := acts + [ReaderLock];
    RunsAppend(s, acts, GiveRead);
    acts := acts + [GiveRead];
    assert Exec(s, acts) == s.(reader := RUnlock(cap), loop := LNeedData(cap), wlocked := true);
    RunsAppend(s, acts, ReaderUnlock);
    acts := acts + [ReaderUnlock];
  }

  /** One Read and one Close, safe, after which that Read has returned no bytes and no error. */
  lemma WaitingReadGetsNoEOF(cap: nat) returns (acts: seq<Action<char>>)
    ensures Runs(Init<char>(), acts)
    ensures var t := Exec(Init<char>(), acts); Shut(t) && t.results == [ReadResult(cap, [], NoErr)]
  {
    var s := Init<char>();
    acts := ReadWaits(cap);
    InitInv<char>();
    RunsAppend(s, acts, CloseEnter);
    acts := acts + [CloseEnter];
    var c := Exec(s, acts);
    InvRun(s, acts);
    var rest := WaitingReadReleased(c);
    ShutRun(c, c, rest);
    RunsConcat(s, acts, rest);
    acts := acts + rest;
  }

  /** A writer that got past its closed check. */
  lemma WriterPastItsCheck(data: seq<char>) returns (acts: seq<Action<char>>)
    ensures Runs(Init<char>(), acts)
    ensures Exec(Init<char>(), acts) == Init<char>().(writers := [WSend(data)])
  {
    var s := Init<char>();
    acts := [];
    RunsAppend(s, acts, CallWrite(data));
    acts := acts + [CallWrite(data)];
    assert Exec(s, acts) == s.(writers := [WStart(data)]);
    RunsAppend(s, acts, WriterRLock(0));
    acts := acts + [WriterRLock(0)];
    assert Exec(s, acts) == s.(writers := [WHold(data)], holders := {Writer(0)});
    RunsAppend(s, acts, WriterCheck(0));
    acts := acts + [WriterCheck(0)];
  }

  /** One Write of any chunk and one Close, after which the writer has sent on the closed channel. */
  lemma ClosePanics(data: seq<char>) returns (acts: seq<Action<char>>)
    ensures Runs(Init<char>(), acts) && Exec(Init<char>(), acts).fault
  {
    var s := Init<char>();
    acts := WriterPastItsCheck(data);
    InitInv<char>();
    InvRun(s, acts);
    var w := Exec(s, acts);
    assert w.writers[0].WSend?;
    var rest := Panics(w);
    RunsAppend(s, acts, CloseEnter);
    RunsConcat(s, acts + [CloseEnter], rest);
    acts := acts + [CloseEnter] + rest;
  }
}
