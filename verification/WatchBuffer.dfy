/**
 The byte pipe of pkg/framework/watch/watch.go as a labelled transition system.

 One reader, any number of writers, the background loop and a closer share three
 unbuffered channels, an RWMutex and a byte buffer.  Every action is one step of one
 thread, or one rendezvous between a sender and a receiver.  A step that touches only
 its own thread's variables, or the buffer (which only the loop touches), is merged
 with the shared step before it.

 Standing assumption: one Read at a time (the single `reader` field).
 The element type `T` is the byte type; nothing depends on which bytes they are.
 */
module WatchBuffer {

  datatype Err = NoErr | EOF

  /** What one Read call returns: n is |data|, cap is len(p). */
  datatype ReadResult<T> = ReadResult(cap: nat, data: seq<T>, err: Err)

  datatype WriteResult = Wrote(n: nat) | WriteEOF

  /** The position of the reader in Read. */
  datatype ReaderPc =
    | RIdle
    | RStart(cap: nat)     // before RLock
    | RHold(cap: nat)      // holds the read lock, about to read the flag
    | RAtLock(cap: nat)    // saw an open buffer, before Lock
    | RSend(cap: nat)      // holds the lock, sending the slice
    | RUnlock(cap: nat)    // slice handed over, about to unlock
    | RRecv(cap: nat)      // waiting for the reply

  /** The position of one Write call. */
  datatype WriterPc<T> =
    | WStart(data: seq<T>)
    | WHold(data: seq<T>)
    | WSend(data: seq<T>)
    | WDone(data: seq<T>, res: WriteResult)

  /** The position of the background loop. */
  datatype LoopPc<T> =
    | LSelect
    | LEmpty                               // got zero bytes, before RLock
    | LEmptyHold
    | LNeedData(cap: nat)                  // read requested, buffer empty: waits for a write
    | LReply(reply: ReadResult<T>)         // bytes copied out, before RLock
    | LReplyHold(reply: ReadResult<T>)
    | LLock(reply: ReadResult<T>)          // saw an open buffer, before Lock
    | LSend(reply: ReadResult<T>)          // holds the lock, sending the reply
    | LUnlock
    | LExit

  /** The position of the thread inside Close; the lock admits one at a time. */
  datatype CloserPc = CIdle | CHeld | CFlag | CRead | CWrite | CRetc

  datatype Chunk<T> = Chunk(writer: nat, data: seq<T>)

  /** Who holds the RWMutex for reading; its reader count is the number of holders. */
  datatype Holder = Reader | Loop | Writer(i: nat)

  datatype State<T> = State(
    reader: ReaderPc, loop: LoopPc<T>, writers: seq<WriterPc<T>>, closer: CloserPc,
    buf: seq<T>,
    closed: bool, readClosed: bool, writeClosed: bool, retcClosed: bool,
    holders: set<Holder>, wlocked: bool,
    fault: bool,                   // some thread sent on a closed channel: the process panics
    results: seq<ReadResult<T>>,     // results of the Read calls that returned, in order
    accepted: seq<Chunk<T>>,       // chunks the loop received from writers, in order
    returned: seq<T>,              // the bytes of results, concatenated
    taken: seq<T>)                 // the bytes of accepted, concatenated

  datatype Action<T> =
    // reader
    | CallRead(cap: nat) | ReaderRLock | ReaderCheck | ReaderLock | GiveRead | ReaderUnlock
    | GiveReply | ReaderRecvClosed | ReaderFault
    // writers
    | CallWrite(data: seq<T>) | WriterRLock(i: nat) | WriterCheck(i: nat) | Accept(i: nat) | WriterFault(i: nat)
    // loop
    | SelectWriteClosed | SelectReadClosed | NeedClosed | EmptyRLock | EmptyCheck
    | ReplyRLock | ReplyCheck | LoopLock | LoopFault | LoopUnlock
    // closer
    | CloseEnter | CloseStep

  function Init<T>(): State<T> {
    State(RIdle, LSelect, [], CIdle, [], false, false, false, false, {}, false, false, [], [], [], [])
  }

  /** bytes.Buffer.Read into a slice of length cap. */
  function BufRead<T>(buf: seq<T>, cap: nat): (r: (ReadResult<T>, seq<T>))
    ensures r.0.data + r.1 == buf && r.0.cap == cap
    ensures |r.0.data| <= cap && (|r.0.data| == cap || r.1 == [])
    ensures r.0.err == EOF <==> buf == [] && cap > 0
  {
    if buf == [] then (ReadResult(cap, [], if cap == 0 then NoErr else EOF), [])
    else
      var n := if cap < |buf| then cap else |buf|;
      (ReadResult(cap, buf[..n], NoErr), buf[n..])
  }

  predicate LockFree<T>(s: State<T>) { !s.wlocked && s.holders == {} }

  predicate AtWriter<T>(s: State<T>, i: nat) { i < |s.writers| }

  predicate Enabled<T>(s: State<T>, a: Action<T>) {
    && !s.fault
    && match a
       case CallRead(_) => s.reader == RIdle
       case ReaderRLock => s.reader.RStart? && !s.wlocked
       case ReaderCheck => s.reader.RHold?
       case ReaderLock => s.reader.RAtLock? && LockFree(s)
       case GiveRead => s.reader.RSend? && s.loop.LSelect? && !s.readClosed
       case ReaderUnlock => s.reader.RUnlock?
       case GiveReply => s.reader.RRecv? && s.loop.LSend? && !s.retcClosed
       case ReaderRecvClosed => s.reader.RRecv? && s.retcClosed
       case ReaderFault => s.reader.RSend? && s.readClosed
       case CallWrite(_) => true
       case WriterRLock(i) => AtWriter(s, i) && s.writers[i].WStart? && !s.wlocked
       case WriterCheck(i) => AtWriter(s, i) && s.writers[i].WHold?
       case Accept(i) => AtWriter(s, i) && s.writers[i].WSend? && !s.writeClosed && (s.loop.LSelect? || s.loop.LNeedData?)
       case WriterFault(i) => AtWriter(s, i) && s.writers[i].WSend? && s.writeClosed
       case SelectWriteClosed => s.loop.LSelect? && s.writeClosed
       case SelectReadClosed => s.loop.LSelect? && s.readClosed
       case NeedClosed => s.loop.LNeedData? && s.writeClosed
       case EmptyRLock => s.loop.LEmpty? && !s.wlocked
       case EmptyCheck => s.loop.LEmptyHold?
       case ReplyRLock => s.loop.LReply? && !s.wlocked
       case ReplyCheck => s.loop.LReplyHold?
       case LoopLock => s.loop.LLock? && LockFree(s)
       case LoopFault => s.loop.LSend? && s.retcClosed
       case LoopUnlock => s.loop.LUnlock?
       case CloseEnter => s.closer.CIdle? && LockFree(s)
       case CloseStep => !s.closer.CIdle?
  }

  /** Where the loop goes, and the buffer it leaves, once it has taken a slice of length cap. */
  function TakeRead<T>(buf: seq<T>, cap: nat): (LoopPc<T>, seq<T>) {
    if buf == [] then (LNeedData(cap), buf)
    else var r := BufRead(buf, cap); (LReply(r.0), r.1)
  }

  /** Where the loop goes, and the buffer it leaves, once it has taken data from a writer. */
  function TakeWrite<T>(loop: LoopPc<T>, buf: seq<T>, data: seq<T>): (LoopPc<T>, seq<T>) {
    match loop
    case LNeedData(cap) => var r := BufRead(buf + data, cap); (LReply(r.0), r.1)
    case _ => (if data == [] then LEmpty else loop, buf + data)
  }

  predicate ByReader<T>(a: Action<T>) {
    || a.CallRead? || a.ReaderRLock? || a.ReaderCheck? || a.ReaderLock? || a.GiveRead? || a.ReaderUnlock?
    || a.GiveReply? || a.ReaderRecvClosed? || a.ReaderFault?
  }

  predicate ByWriter<T>(a: Action<T>) {
    a.CallWrite? || a.WriterRLock? || a.WriterCheck? || a.Accept? || a.WriterFault?
  }

  predicate ByCloser<T>(a: Action<T>) { a.CloseEnter? || a.CloseStep? }

  predicate ByLoop<T>(a: Action<T>) { !ByReader(a) && !ByWriter(a) && !ByCloser(a) }

  /** The state after a; an action that is not enabled changes nothing. */
  function Apply<T>(s: State<T>, a: Action<T>): State<T> {
    if !Enabled(s, a) then s
    else if ByReader(a) then ApplyReader(s, a)
    else if ByWriter(a) then ApplyWriter(s, a)
    else if ByCloser(a) then ApplyCloser(s, a)
    else ApplyLoop(s, a)
  }

  function ApplyReader<T>(s: State<T>, a: Action<T>): (t: State<T>)
    requires Enabled(s, a) && ByReader(a)
    ensures t.writers == s.writers && t.accepted == s.accepted && t.taken == s.taken
    ensures t.closer == s.closer && t.closed == s.closed && t.readClosed == s.readClosed && t.writeClosed == s.writeClosed && t.retcClosed == s.retcClosed
  {
    match a
    case CallRead(cap) => s.(reader := RStart(cap))
    case ReaderRLock => s.(reader := RHold(s.reader.cap), holders := s.holders + {Reader})
    case ReaderCheck =>
      if s.closed
      then s.(reader := RIdle, holders := s.holders - {Reader}, results := s.results + [ReadResult(s.reader.cap, [], EOF)])
      else s.(reader := RAtLock(s.reader.cap), holders := s.holders - {Reader})
    case ReaderLock => s.(reader := RSend(s.reader.cap), wlocked := true)
    case GiveRead =>
      var r := TakeRead(s.buf, s.reader.cap);
      s.(reader := RUnlock(s.reader.cap), loop := r.0, buf := r.1)
    case ReaderUnlock => s.(reader := RRecv(s.reader.cap), wlocked := false)
    case GiveReply => s.(reader := RIdle, loop := LUnlock, results := s.results + [s.loop.reply],
                            returned := s.returned + s.loop.reply.data)
    case ReaderRecvClosed => s.(reader := RIdle, results := s.results + [ReadResult(s.reader.cap, [], NoErr)])
    case ReaderFault => s.(fault := true)
  }

  function ApplyWriter<T>(s: State<T>, a: Action<T>): (t: State<T>)
    requires Enabled(s, a) && ByWriter(a)
    ensures t.reader == s.reader && t.results == s.results && t.returned == s.returned
    ensures t.closer == s.closer && t.closed == s.closed && t.readClosed == s.readClosed && t.writeClosed == s.writeClosed && t.retcClosed == s.retcClosed
  {
    match a
    case CallWrite(data) => s.(writers := s.writers + [WStart(data)])
    case WriterRLock(i) => s.(writers := s.writers[i := WHold(s.writers[i].data)], holders := s.holders + {Writer(i)})
    case WriterCheck(i) =>
      var data := s.writers[i].data;
      s.(writers := s.writers[i := if s.closed then WDone(data, WriteEOF) else WSend(data)], holders := s.holders - {Writer(i)})
    case Accept(i) =>
      var data := s.writers[i].data;
      var r := TakeWrite(s.loop, s.buf, data);
      s.(writers := s.writers[i := WDone(data, Wrote(|data|))], loop := r.0, buf := r.1,
         accepted := s.accepted + [Chunk(i, data)], taken := s.taken + data)
    case WriterFault(i) => s.(fault := true)
  }

  function ApplyLoop<T>(s: State<T>, a: Action<T>): (t: State<T>)
    requires Enabled(s, a) && ByLoop(a)
    ensures t.reader == s.reader && t.writers == s.writers && t.results == s.results && t.accepted == s.accepted && t.returned == s.returned && t.taken == s.taken
    ensures t.closer == s.closer && t.closed == s.closed && t.readClosed == s.readClosed && t.writeClosed == s.writeClosed && t.retcClosed == s.retcClosed
  {
    match a
    case SelectWriteClosed => s.(loop := LEmpty)
    case SelectReadClosed => var r := TakeRead(s.buf, 0); s.(loop := r.0, buf := r.1)
    case NeedClosed => s.(loop := LSelect)
    case EmptyRLock => s.(loop := LEmptyHold, holders := s.holders + {Loop})
    case EmptyCheck => s.(loop := if s.closed then LExit else LSelect, holders := s.holders - {Loop})
    case ReplyRLock => s.(loop := LReplyHold(s.loop.reply), holders := s.holders + {Loop})
    case ReplyCheck => s.(loop := if s.closed then LSelect else LLock(s.loop.reply), holders := s.holders - {Loop})
    case LoopLock => s.(loop := LSend(s.loop.reply), wlocked := true)
    case LoopFault => s.(fault := true)
    case LoopUnlock => s.(loop := LSelect, wlocked := false)
  }

  function ApplyCloser<T>(s: State<T>, a: Action<T>): (t: State<T>)
    requires Enabled(s, a) && ByCloser(a)
    ensures t.reader == s.reader && t.loop == s.loop && t.writers == s.writers && t.buf == s.buf && t.results == s.results && t.accepted == s.accepted && t.returned == s.returned && t.taken == s.taken
    ensures t.holders == s.holders
  {
    match s.closer
    case CIdle => s.(closer := CHeld, wlocked := true)
    case CHeld => if s.closed then s.(closer := CIdle, wlocked := false) else s.(closer := CFlag, closed := true)
    case CFlag => s.(closer := CRead, readClosed := true)
    case CRead => s.(closer := CWrite, writeClosed := true)
    case CWrite => s.(closer := CRetc, retcClosed := true)
    case CRetc => s.(closer := CIdle, wlocked := false)
  }

  /** acts is a run of the system from s. */
  predicate Runs<T>(s: State<T>, acts: seq<Action<T>>)
    decreases |acts|
  {
    acts == [] || (Enabled(s, acts[0]) && Runs(Apply(s, acts[0]), acts[1..]))
  }

  function Exec<T>(s: State<T>, acts: seq<Action<T>>): State<T>
    decreases |acts|
  {
    if acts == [] then s else Exec(Apply(s, acts[0]), acts[1..])
  }

  /** The bytes handed to the reader so far. */
  function Returned<T>(results: seq<ReadResult<T>>): seq<T> {
    if results == [] then [] else Returned(results[..|results| - 1]) + results[|results| - 1].data
  }

  lemma ReturnedAppend<T>(results: seq<ReadResult<T>>, r: ReadResult<T>)
    ensures Returned(results + [r]) == Returned(results) + r.data
  {
    assert (results + [r])[..|results|] == results;
  }

  /** The bytes the loop received so far. */
  function Accepted<T>(chunks: seq<Chunk<T>>): seq<T> {
    if chunks == [] then [] else Accepted(chunks[..|chunks| - 1]) + chunks[|chunks| - 1].data
  }

  lemma AcceptedAppend<T>(chunks: seq<Chunk<T>>, c: Chunk<T>)
    ensures Accepted(chunks + [c]) == Accepted(chunks) + c.data
  {
    assert (chunks + [c])[..|chunks|] == chunks;
  }

  /** The loop has copied bytes out for a reply it has not delivered. */
  predicate HasReply<T>(l: LoopPc<T>) { l.LReply? || l.LReplyHold? || l.LLock? || l.LSend? }

  /** The bytes copied into the reader's slice whose reply has not been received. */
  function InFlight<T>(s: State<T>): seq<T> {
    if HasReply(s.loop) then s.loop.reply.data else []
  }

  /** What a Write call waits for. */
  datatype WriterKind = Starting | Holding | Sending | Finished

  function Kind<T>(w: WriterPc<T>): WriterKind {
    match w
    case WStart(_) => Starting
    case WHold(_) => Holding
    case WSend(_) => Sending
    case WDone(_, _) => Finished
  }

  function Count<T>(ws: seq<WriterPc<T>>, k: WriterKind): nat {
    if ws == [] then 0
    else Count(ws[..|ws| - 1], k) + if Kind(ws[|ws| - 1]) == k then 1 else 0
  }

  lemma {:induction false} CountUpdate<T>(ws: seq<WriterPc<T>>, i: nat, w: WriterPc<T>, k: WriterKind)
    requires i < |ws|
    ensures Count(ws[i := w], k) == Count(ws, k) - (if Kind(ws[i]) == k then 1 else 0) + (if Kind(w) == k then 1 else 0)
  {
    var n := |ws| - 1;
    if i == n {
      assert ws[i := w][..n] == ws[..n];
    } else {
      assert ws[i := w][..n] == ws[..n][i := w];
      CountUpdate(ws[..n], i, w, k);
    }
  }

  predicate NoEmptyWrites<T>(acts: seq<Action<T>>) {
    forall i :: 0 <= i < |acts| && acts[i].CallWrite? ==> acts[i].data != []
  }

  predicate NonEmptyChunks<T>(s: State<T>) {
    forall i :: 0 <= i < |s.writers| ==> s.writers[i].data != []
  }
}
