/** What every interleaving of the watch buffer keeps: the lock discipline, the hand-shake
    between reader and loop, the conservation of bytes, and what replies look like. */
module WatchBufferSafety {
  import opened WatchBuffer

  // ----- The lock: a count of read holders and a writer flag

  predicate ReaderLocks(r: ReaderPc) { r.RSend? || r.RUnlock? }

  predicate LoopLocks<T>(l: LoopPc<T>) { l.LSend? || l.LUnlock? }

  ghost predicate LockInv<T>(s: State<T>) {
    && (Reader in s.holders <==> s.reader.RHold?)
    && (Loop in s.holders <==> s.loop.LEmptyHold? || s.loop.LReplyHold?)
    && (forall i: nat :: Writer(i) in s.holders ==> i < |s.writers|)
    && (forall i :: 0 <= i < |s.writers| ==> (Writer(i) in s.holders <==> s.writers[i].WHold?))
    && (s.wlocked <==> ReaderLocks(s.reader) || LoopLocks(s.loop) || !s.closer.CIdle?)
    && !(ReaderLocks(s.reader) && LoopLocks(s.loop))
    && (!s.closer.CIdle? ==> !ReaderLocks(s.reader) && !LoopLocks(s.loop))
    && (s.wlocked ==> s.holders == {})
  }

  // ----- Which channels are closed, and who talks to whom

  ghost predicate ChannelsInv<T>(s: State<T>) {
    && (!s.closed ==> !s.readClosed && !s.writeClosed && !s.retcClosed && (s.closer.CIdle? || s.closer.CHeld?))
    && (s.closed ==>
          && (s.closer.CFlag? <==> !s.readClosed)
          && (s.closer.CFlag? || s.closer.CRead? <==> !s.writeClosed)
          && (s.closer.CFlag? || s.closer.CRead? || s.closer.CWrite? <==> !s.retcClosed))
  }

  /** The reader has handed its slice over and not yet received the reply. */
  predicate Awaiting(r: ReaderPc) { r.RUnlock? || r.RRecv? }

  /** The loop is serving a request for a slice of length cap. */
  predicate Serving<T>(l: LoopPc<T>, cap: nat) {
    if HasReply(l) then l.reply.cap == cap else l.LNeedData? && l.cap == cap
  }

  predicate Busy<T>(l: LoopPc<T>) { l.LNeedData? || HasReply(l) }

  /** Before Close the loop serves a request exactly when the reader awaits its reply, and it is that request. */
  ghost predicate HandshakeInv<T>(s: State<T>) {
    && (!s.closed ==> (Awaiting(s.reader) <==> Busy(s.loop)))
    && (!s.closed && Awaiting(s.reader) ==> Serving(s.loop, s.reader.cap))
    && (!s.closed ==> !s.loop.LExit?)
    && (s.loop.LNeedData? ==> s.buf == [])
  }

  // ----- Bytes

  /** Before Close nothing is lost, duplicated or reordered; afterwards what was returned stays a prefix. */
  ghost predicate BytesInv<T>(s: State<T>) {
    && (!s.closed ==> s.returned + InFlight(s) + s.buf == s.taken)
    && s.returned <= s.taken
  }

  ghost predicate HistoryInv<T>(s: State<T>) {
    s.returned == Returned(s.results) && s.taken == Accepted(s.accepted)
  }

  /** A Write call has returned its length exactly when the loop received its chunk, and it received it once. */
  ghost predicate Matched<T>(accepted: seq<Chunk<T>>, writers: seq<WriterPc<T>>) {
    && (forall i, j :: 0 <= i < j < |accepted| ==> accepted[i].writer != accepted[j].writer)
    && (forall i :: 0 <= i < |accepted| ==>
          var c := accepted[i];
          c.writer < |writers| && writers[c.writer] == WDone(c.data, Wrote(|c.data|)))
    && (forall w :: 0 <= w < |writers| && writers[w].WDone? && writers[w].res.Wrote? ==>
          exists i :: 0 <= i < |accepted| && accepted[i].writer == w)
  }

  ghost predicate ChunksInv<T>(s: State<T>) { Matched(s.accepted, s.writers) }

  ghost predicate Inv<T>(s: State<T>) {
    LockInv(s) && ChannelsInv(s) && HandshakeInv(s) && BytesInv(s) && HistoryInv(s) && ChunksInv(s)
  }

  lemma InitInv<T>()
    ensures Inv(Init<T>())
  {
  }

  lemma LockReader<T>(s: State<T>, a: Action<T>)
    requires LockInv(s) && Enabled(s, a) && ByReader(a)
    ensures LockInv(Apply(s, a))
  {
  }

  lemma LockWriter<T>(s: State<T>, a: Action<T>)
    requires LockInv(s) && Enabled(s, a) && ByWriter(a)
    ensures LockInv(Apply(s, a))
  {
  }

  lemma LockLoop<T>(s: State<T>, a: Action<T>)
    requires LockInv(s) && Enabled(s, a) && ByLoop(a)
    ensures LockInv(Apply(s, a))
  {
  }

  lemma LockCloser<T>(s: State<T>, a: Action<T>)
    requires LockInv(s) && Enabled(s, a) && ByCloser(a)
    ensures LockInv(Apply(s, a))
  {
  }

  lemma LockStep<T>(s: State<T>, a: Action<T>)
    requires LockInv(s) && Enabled(s, a)
    ensures LockInv(Apply(s, a))
  {
    if ByReader(a) {
      LockReader(s, a);
    } else if ByWriter(a) {
      LockWriter(s, a);
    } else if ByCloser(a) {
      LockCloser(s, a);
    } else {
      LockLoop(s, a);
    }
  }

  lemma ChannelsCloser<T>(s: State<T>, a: Action<T>)
    requires LockInv(s) && ChannelsInv(s) && Enabled(s, a) && ByCloser(a)
    ensures ChannelsInv(Apply(s, a))
  {
  }

  lemma ChannelsStep<T>(s: State<T>, a: Action<T>)
    requires LockInv(s) && ChannelsInv(s) && Enabled(s, a)
    ensures ChannelsInv(Apply(s, a))
  {
    if ByCloser(a) {
      ChannelsCloser(s, a);
    } else {
      var t := Apply(s, a);
      assert t.closer == s.closer && t.closed == s.closed;
      assert t.readClosed == s.readClosed && t.writeClosed == s.writeClosed && t.retcClosed == s.retcClosed;
    }
  }

  lemma HandshakeReader<T>(s: State<T>, a: Action<T>)
    requires LockInv(s) && ChannelsInv(s) && HandshakeInv(s) && Enabled(s, a) && ByReader(a)
    ensures HandshakeInv(Apply(s, a))
  {
  }

  lemma HandshakeStep<T>(s: State<T>, a: Action<T>)
    requires LockInv(s) && ChannelsInv(s) && HandshakeInv(s) && Enabled(s, a)
    ensures HandshakeInv(Apply(s, a))
  {
    if ByReader(a) {
      HandshakeReader(s, a);
    } else {
      assert Apply(s, a).reader == s.reader;
    }
  }

  /** Bytes that move from one place to the next keep their order. */
  lemma Regroup<T>(returned: seq<T>, rest: seq<T>, inFlight: seq<T>, buf: seq<T>, extra: seq<T>)
    requires inFlight + buf == rest + extra
    ensures returned + inFlight + buf == returned + rest + extra
  {
    assert returned + inFlight + buf == returned + (inFlight + buf);
  }

  lemma AcceptShape<T>(s: State<T>, i: nat)
    requires Enabled(s, Accept(i))
    ensures var t, data := Apply(s, Accept(i)), s.writers[i].data;
            && t.taken == s.taken + data && t.returned == s.returned && t.closed == s.closed
            && InFlight(s) == [] && InFlight(t) + t.buf == s.buf + data
  {
  }

  lemma AcceptBytes<T>(s: State<T>, i: nat)
    requires BytesInv(s) && Enabled(s, Accept(i))
    ensures BytesInv(Apply(s, Accept(i)))
  {
    var t, data := Apply(s, Accept(i)), s.writers[i].data;
    AcceptShape(s, i);
    assert s.returned + [] == s.returned;
    Regroup(s.returned, s.buf, InFlight(t), t.buf, data);
  }

  lemma GiveReadShape<T>(s: State<T>)
    requires Enabled(s, GiveRead)
    ensures var t := Apply(s, GiveRead);
            && t.taken == s.taken && t.returned == s.returned && t.closed == s.closed
            && InFlight(s) == [] && InFlight(t) + t.buf == s.buf
  {
  }

  lemma GiveReadBytes<T>(s: State<T>)
    requires BytesInv(s) && Enabled(s, GiveRead)
    ensures BytesInv(Apply(s, GiveRead))
  {
    var t := Apply(s, GiveRead);
    GiveReadShape(s);
    assert s.returned + [] == s.returned;
    Regroup(s.returned, s.buf, InFlight(t), t.buf, []);
  }

  lemma GiveReplyBytes<T>(s: State<T>)
    requires LockInv(s) && ChannelsInv(s) && BytesInv(s) && Enabled(s, GiveReply)
    ensures BytesInv(Apply(s, GiveReply))
  {
    var t := Apply(s, GiveReply);
    assert t.returned == s.returned + InFlight(s) && InFlight(t) == [] && t.buf == s.buf && t.taken == s.taken;
    assert t.returned + [] == t.returned;
  }

  lemma BytesReader<T>(s: State<T>, a: Action<T>)
    requires LockInv(s) && ChannelsInv(s) && BytesInv(s) && Enabled(s, a) && ByReader(a)
    ensures BytesInv(Apply(s, a))
  {
    if a.GiveRead? {
      GiveReadBytes(s);
    } else if a.GiveReply? {
      GiveReplyBytes(s);
    } else {
      var t := Apply(s, a);
      assert t.returned == s.returned && t.loop == s.loop && t.buf == s.buf && t.taken == s.taken && t.closed == s.closed;
    }
  }

  lemma BytesWriter<T>(s: State<T>, a: Action<T>)
    requires LockInv(s) && ChannelsInv(s) && BytesInv(s) && Enabled(s, a) && ByWriter(a)
    ensures BytesInv(Apply(s, a))
  {
    if a.Accept? {
      AcceptBytes(s, a.i);
    }
  }

  lemma BytesLoop<T>(s: State<T>, a: Action<T>)
    requires LockInv(s) && ChannelsInv(s) && BytesInv(s) && Enabled(s, a) && ByLoop(a)
    ensures BytesInv(Apply(s, a))
  {
  }

  lemma BytesCloser<T>(s: State<T>, a: Action<T>)
    requires LockInv(s) && ChannelsInv(s) && BytesInv(s) && Enabled(s, a) && ByCloser(a)
    ensures BytesInv(Apply(s, a))
  {
  }

  lemma BytesStep<T>(s: State<T>, a: Action<T>)
    requires LockInv(s) && ChannelsInv(s) && BytesInv(s) && Enabled(s, a)
    ensures BytesInv(Apply(s, a))
  {
    if ByReader(a) {
      BytesReader(s, a);
    } else if ByWriter(a) {
      BytesWriter(s, a);
    } else if ByCloser(a) {
      BytesCloser(s, a);
    } else {
      BytesLoop(s, a);
    }
  }

  /** Every step leaves the results of Read calls alone or adds one. */
  lemma ResultsGrow<T>(s: State<T>, a: Action<T>)
    ensures var t := Apply(s, a);
            || (t.results == s.results && t.returned == s.returned)
            || exists r :: t.results == s.results + [r] && t.returned == s.returned + r.data
  {
    if Enabled(s, a) && ByReader(a) {
      ReaderResults(s, a);
    }
  }

  lemma ReaderResults<T>(s: State<T>, a: Action<T>)
    requires Enabled(s, a) && ByReader(a)
    ensures var t := Apply(s, a);
            || (t.results == s.results && t.returned == s.returned)
            || exists r :: t.results == s.results + [r] && t.returned == s.returned + r.data
  {
    var t := Apply(s, a);
    if a.GiveReply? {
      assert t.results == s.results + [s.loop.reply];
    } else if a.ReaderRecvClosed? {
      assert t.results == s.results + [ReadResult(s.reader.cap, [], NoErr)] && t.returned == s.returned + [];
    } else if a.ReaderCheck? && s.closed {
      assert t.results == s.results + [ReadResult(s.reader.cap, [], EOF)] && t.returned == s.returned + [];
    }
  }

  /** Every step leaves the received chunks alone or adds one. */
  lemma AcceptedGrow<T>(s: State<T>, a: Action<T>)
    ensures var t := Apply(s, a);
            || (t.accepted == s.accepted && t.taken == s.taken)
            || exists c :: t.accepted == s.accepted + [c] && t.taken == s.taken + c.data
  {
    if Enabled(s, a) && ByWriter(a) {
      WriterAccepted(s, a);
    }
  }

  lemma WriterAccepted<T>(s: State<T>, a: Action<T>)
    requires Enabled(s, a) && ByWriter(a)
    ensures var t := Apply(s, a);
            || (t.accepted == s.accepted && t.taken == s.taken)
            || exists c :: t.accepted == s.accepted + [c] && t.taken == s.taken + c.data
  {
    if a.Accept? {
      assert Apply(s, a).accepted == s.accepted + [Chunk(a.i, s.writers[a.i].data)];
    }
  }

  lemma HistoryStep<T>(s: State<T>, a: Action<T>)
    requires HistoryInv(s)
    ensures HistoryInv(Apply(s, a))
  {
    var t := Apply(s, a);
    ResultsGrow(s, a);
    AcceptedGrow(s, a);
    if r :| t.results == s.results + [r] && t.returned == s.returned + r.data {
      ReturnedAppend(s.results, r);
    }
    if c :| t.accepted == s.accepted + [c] && t.taken == s.taken + c.data {
      AcceptedAppend(s.accepted, c);
    }
  }

  lemma MatchedAccept<T>(accepted: seq<Chunk<T>>, writers: seq<WriterPc<T>>, i: nat)
    requires Matched(accepted, writers) && i < |writers| && writers[i].WSend?
    ensures var data := writers[i].data;
            Matched(accepted + [Chunk(i, data)], writers[i := WDone(data, Wrote(|data|))])
  {
    var data := writers[i].data;
    var accepted', writers' := accepted + [Chunk(i, data)], writers[i := WDone(data, Wrote(|data|))];
    assert accepted'[|accepted|].writer == i;
    forall w | 0 <= w < |writers'| && writers'[w].WDone? && writers'[w].res.Wrote?
      ensures exists k :: 0 <= k < |accepted'| && accepted'[k].writer == w
    {
      if w != i {
        var k :| 0 <= k < |accepted| && accepted[k].writer == w;
        assert accepted'[k].writer == w;
      }
    }
  }

  /** A Write call that has not been received can begin, take the lock or return EOF. */
  lemma MatchedUpdate<T>(accepted: seq<Chunk<T>>, writers: seq<WriterPc<T>>, i: nat, w: WriterPc<T>)
    requires Matched(accepted, writers) && i <= |writers| && !(w.WDone? && w.res.Wrote?)
    requires i < |writers| ==> !writers[i].WDone?
    ensures Matched(accepted, if i < |writers| then writers[i := w] else writers + [w])
  {
  }

  lemma ChunksWriter<T>(s: State<T>, a: Action<T>)
    requires ChunksInv(s) && Enabled(s, a) && ByWriter(a)
    ensures ChunksInv(Apply(s, a))
  {
    var t := Apply(s, a);
    match a
    case Accept(i) => MatchedAccept(s.accepted, s.writers, i);
    case CallWrite(data) => MatchedUpdate(s.accepted, s.writers, |s.writers|, WStart(data));
    case WriterRLock(i) => MatchedUpdate(s.accepted, s.writers, i, t.writers[i]);
    case WriterCheck(i) => MatchedUpdate(s.accepted, s.writers, i, t.writers[i]);
    case WriterFault(_) =>
  }

  lemma ChunksStep<T>(s: State<T>, a: Action<T>)
    requires ChunksInv(s) && Enabled(s, a)
    ensures ChunksInv(Apply(s, a))
  {
    if ByWriter(a) {
      ChunksWriter(s, a);
    } else {
      assert Apply(s, a).accepted == s.accepted && Apply(s, a).writers == s.writers;
    }
  }

  /** Every step of every thread keeps the invariant. */
  lemma InvStep<T>(s: State<T>, a: Action<T>)
    requires Inv(s) && Enabled(s, a)
    ensures Inv(Apply(s, a))
  {
    LockStep(s, a);
    ChannelsStep(s, a);
    HandshakeStep(s, a);
    BytesStep(s, a);
    HistoryStep(s, a);
    ChunksStep(s, a);
  }

  lemma {:induction false} InvRun<T>(s: State<T>, acts: seq<Action<T>>)
    requires Inv(s) && Runs(s, acts)
    ensures Inv(Exec(s, acts))
    decreases |acts|
  {
    if acts != [] {
      InvStep(s, acts[0]);
      InvRun(Apply(s, acts[0]), acts[1..]);
    }
  }

  // ----- Main results

  /** Byte conservation: before Close, whatever the interleaving and however many writers, the bytes returned,
      then the reply in flight, then the buffer are the received chunks in order; across Close, at any point,
      the bytes returned stay a prefix of the bytes received. */
  lemma ByteConservation<T>(acts: seq<Action<T>>)
    requires Runs(Init<T>(), acts)
    ensures var s := Exec(Init<T>(), acts);
            && (!s.closed ==> Returned(s.results) + InFlight(s) + s.buf == Accepted(s.accepted))
            && Returned(s.results) <= Accepted(s.accepted)
  {
    InitInv<T>();
    InvRun(Init<T>(), acts);
  }

  /** In every reachable state a Write call has returned success if and only if its chunk was received,
      and no chunk was received twice. */
  lemma WriteReceivedOnce<T>(acts: seq<Action<T>>, w: nat)
    requires Runs(Init<T>(), acts)
    ensures var s := Exec(Init<T>(), acts);
            && (w < |s.writers| ==>
                  ((exists i :: 0 <= i < |s.accepted| && s.accepted[i] == Chunk(w, s.writers[w].data)) <==>
                   s.writers[w] == WDone(s.writers[w].data, Wrote(|s.writers[w].data|))))
            && (forall i, j :: 0 <= i < j < |s.accepted| ==> s.accepted[i].writer != s.accepted[j].writer)
  {
    InitInv<T>();
    InvRun(Init<T>(), acts);
    var s := Exec(Init<T>(), acts);
    if w < |s.writers| && s.writers[w] == WDone(s.writers[w].data, Wrote(|s.writers[w].data|)) {
      var i :| 0 <= i < |s.accepted| && s.accepted[i].writer == w;
      assert s.accepted[i] == Chunk(w, s.writers[w].data);
    }
  }

  /** A reply without error, within the slice, and with at least one byte if the slice has room. */
  predicate GoodReply<T>(r: ReadResult<T>) {
    r.err == NoErr && |r.data| <= r.cap && (r.cap > 0 ==> r.data != [])
  }

  predicate GoodLoop<T>(l: LoopPc<T>) { HasReply(l) ==> GoodReply(l.reply) }

  predicate RepliesInv<T>(s: State<T>) {
    && NonEmptyChunks(s)
    && GoodLoop(s.loop)
    && (!s.closed ==> forall i :: 0 <= i < |s.results| ==> GoodReply(s.results[i]))
  }

  lemma NonEmptyWriter<T>(s: State<T>, a: Action<T>)
    requires NonEmptyChunks(s) && Enabled(s, a) && ByWriter(a) && (a.CallWrite? ==> a.data != [])
    ensures NonEmptyChunks(Apply(s, a))
  {
  }

  lemma NonEmptyStep<T>(s: State<T>, a: Action<T>)
    requires NonEmptyChunks(s) && (a.CallWrite? ==> a.data != [])
    ensures NonEmptyChunks(Apply(s, a))
  {
    if Enabled(s, a) && ByWriter(a) {
      NonEmptyWriter(s, a);
    } else {
      assert Apply(s, a).writers == s.writers;
    }
  }

  lemma GoodTake<T>(l: LoopPc<T>, buf: seq<T>, data: seq<T>, cap: nat)
    requires GoodLoop(l)
    ensures GoodLoop(TakeRead(buf, cap).0)
    ensures data != [] ==> GoodLoop(TakeWrite(l, buf, data).0)
  {
  }

  lemma ReplyKept<T>(s: State<T>, a: Action<T>)
    requires Enabled(s, a) && ByLoop(a) && !a.SelectReadClosed?
    ensures var l := Apply(s, a).loop; HasReply(l) ==> HasReply(s.loop) && l.reply == s.loop.reply
  {
  }

  lemma ReaderLeavesLoop<T>(s: State<T>, a: Action<T>)
    requires Enabled(s, a) && ByReader(a) && !a.GiveRead? && !a.GiveReply?
    ensures Apply(s, a).loop == s.loop
  {
  }

  lemma WriterLeavesLoop<T>(s: State<T>, a: Action<T>)
    requires Enabled(s, a) && ByWriter(a) && !a.Accept?
    ensures Apply(s, a).loop == s.loop
  {
  }

  lemma CloserLeavesLoop<T>(s: State<T>, a: Action<T>)
    requires Enabled(s, a) && ByCloser(a)
    ensures Apply(s, a).loop == s.loop
  {
  }

  lemma GoodLoopStep<T>(s: State<T>, a: Action<T>)
    requires NonEmptyChunks(s) && GoodLoop(s.loop) && Enabled(s, a)
    ensures GoodLoop(Apply(s, a).loop)
  {
    if a.Accept? {
      GoodTake(s.loop, s.buf, s.writers[a.i].data, 0);
    } else if a.GiveRead? {
      GoodTake(s.loop, s.buf, s.buf, s.reader.cap);
    } else if a.SelectReadClosed? {
      GoodTake(s.loop, s.buf, s.buf, 0);
    } else if ByLoop(a) {
      ReplyKept(s, a);
    } else if ByWriter(a) {
      WriterLeavesLoop(s, a);
    } else if ByCloser(a) {
      CloserLeavesLoop(s, a);
    } else if !a.GiveReply? {
      ReaderLeavesLoop(s, a);
    }
  }

  lemma RepliesStep<T>(s: State<T>, a: Action<T>)
    requires ChannelsInv(s) && RepliesInv(s) && Enabled(s, a) && (a.CallWrite? ==> a.data != [])
    ensures RepliesInv(Apply(s, a))
  {
    NonEmptyStep(s, a);
    GoodLoopStep(s, a);
    assert a.GiveReply? ==> Apply(s, a).results == s.results + [s.loop.reply];
    assert !a.GiveReply? && !s.closed ==> Apply(s, a).results == s.results;
    assert s.closed ==> Apply(s, a).closed;
  }

  lemma {:induction false} RepliesRun<T>(s: State<T>, acts: seq<Action<T>>)
    requires Inv(s) && RepliesInv(s) && Runs(s, acts) && NoEmptyWrites(acts)
    ensures RepliesInv(Exec(s, acts))
    decreases |acts|
  {
    if acts != [] {
      InvStep(s, acts[0]);
      RepliesStep(s, acts[0]);
      RepliesRun(Apply(s, acts[0]), acts[1..]);
    }
  }

  /** No reader sees EOF, an error or an empty reply before Close, in any interleaving of non-empty writes. */
  lemma RepliesBeforeClose<T>(acts: seq<Action<T>>)
    requires Runs(Init<T>(), acts) && NoEmptyWrites(acts)
    ensures var s := Exec(Init<T>(), acts);
            !s.closed ==> forall i :: 0 <= i < |s.results| ==> GoodReply(s.results[i])
  {
    InitInv<T>();
    RepliesRun(Init<T>(), acts);
  }

  // ----- What one Read returns

  /** The reply fits the slice; it leaves bytes behind only if it fills the slice; it is EOF exactly when there was
      nothing for a slice with room. */
  predicate FullReply<T>(r: ReadResult<T>, buf: seq<T>) {
    && |r.data| <= r.cap && (|r.data| < r.cap ==> buf == [])
    && (r.err == EOF <==> r.data == [] && r.cap > 0)
  }

  predicate FullInv<T>(s: State<T>) { HasReply(s.loop) ==> FullReply(s.loop.reply, s.buf) }

  lemma FullTake<T>(l: LoopPc<T>, buf: seq<T>, data: seq<T>, cap: nat)
    ensures var t := TakeRead(buf, cap); HasReply(t.0) ==> FullReply(t.0.reply, t.1)
    ensures var t := TakeWrite(l, buf, data); !HasReply(l) && HasReply(t.0) ==> FullReply(t.0.reply, t.1)
  {
  }

  lemma FullLoop<T>(s: State<T>, a: Action<T>)
    requires FullInv(s) && Enabled(s, a) && ByLoop(a)
    ensures FullInv(Apply(s, a))
  {
    FullTake(s.loop, s.buf, [], 0);
  }

  lemma FullReader<T>(s: State<T>, a: Action<T>)
    requires FullInv(s) && Enabled(s, a) && ByReader(a)
    ensures FullInv(Apply(s, a))
  {
    if a.GiveRead? {
      FullTake(s.loop, s.buf, [], s.reader.cap);
    }
  }

  lemma FullWriter<T>(s: State<T>, a: Action<T>)
    requires FullInv(s) && Enabled(s, a) && ByWriter(a)
    ensures FullInv(Apply(s, a))
  {
    if a.Accept? {
      FullTake(s.loop, s.buf, s.writers[a.i].data, 0);
    }
  }

  lemma FullStep<T>(s: State<T>, a: Action<T>)
    requires FullInv(s) && Enabled(s, a)
    ensures FullInv(Apply(s, a))
  {
    if ByReader(a) {
      FullReader(s, a);
    } else if ByWriter(a) {
      FullWriter(s, a);
    } else if ByLoop(a) {
      FullLoop(s, a);
    }
  }

  lemma {:induction false} FullRun<T>(s: State<T>, acts: seq<Action<T>>)
    requires FullInv(s) && Runs(s, acts)
    ensures FullInv(Exec(s, acts))
    decreases |acts|
  {
    if acts != [] {
      FullStep(s, acts[0]);
      FullRun(Apply(s, acts[0]), acts[1..]);
    }
  }

  /** The bytes received that no Read has returned. */
  function Available<T>(s: State<T>): seq<T>
    requires s.returned <= s.taken
  {
    s.taken[|s.returned|..]
  }

  lemma NextBytes<T>(taken: seq<T>, returned: seq<T>, data: seq<T>, buf: seq<T>, cap: nat)
    requires returned + data + buf == taken && |data| <= cap && (|data| < cap ==> buf == [])
    ensures returned <= taken
    ensures var rest := taken[|returned|..]; data == rest[..if cap < |rest| then cap else |rest|]
  {
    assert taken == returned + (data + buf);
    assert taken[|returned|..] == data + buf;
  }

  /** In every reachable state, a Read that receives its reply gets exactly the next bytes that were received and not
      yet returned: as many as fit its slice, or all there are; with EOF exactly if there is nothing for a slice with
      room; so a reply shorter than its slice leaves nothing buffered. */
  lemma ReadGetsNextBytes<T>(acts: seq<Action<T>>)
    requires Runs(Init<T>(), acts) && Enabled(Exec(Init<T>(), acts), GiveReply)
    ensures var s := Exec(Init<T>(), acts);
            var t, r, cap := Apply(s, GiveReply), s.loop.reply, s.reader.cap;
            && s.returned <= s.taken && t.results == s.results + [r] && r.cap == cap
            && r.data == Available(s)[..if cap < |Available(s)| then cap else |Available(s)|]
            && (r.err == EOF <==> Available(s) == [] && cap > 0)
            && (|r.data| < cap ==> t.buf == [])
  {
    var s := Exec(Init<T>(), acts);
    InitInv<T>();
    InvRun(Init<T>(), acts);
    FullRun(Init<T>(), acts);
    assert !s.closed;
    NextBytes(s.taken, s.returned, s.loop.reply.data, s.buf, s.loop.reply.cap);
  }
}
