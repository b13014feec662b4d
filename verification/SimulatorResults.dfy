/** The main results about the simulation: order, termination and the stop handshake, the store, the recorder. */
module SimulatorResults {
  import opened Sequences
  import opened Objects
  import opened Simulator
  import opened SimulatorRuns

  lemma Reached(input: seq<Pod>, seeded: Cluster, acts: seq<Action>)
    requires Runs(Init(input, seeded), acts)
    ensures Inv(Exec(Init(input, seeded), acts), input, seeded)
  {
    InitInv(input, seeded);
    InvRun(Init(input, seeded), input, seeded, acts);
  }

  lemma {:induction false} ResultsSplit(os: seq<Outcome>)
    ensures |Results(os, true)| + |Results(os, false)| == |os| == |Inputs(os)|
  {
    if os != [] {
      ResultsSplit(os[..|os| - 1]);
    }
  }

  /** Pod conservation and order: in every reachable state the outcomes in order, the pod under way and the stack from
      its top are the input backwards; at most one pod is under way; and the two status lists hold the outcomes' results
      in order, bound pods changed only in node and phase, failed ones only in phase, reason and the new condition. */
  lemma PodConservation(input: seq<Pod>, seeded: Cluster, acts: seq<Action>)
    requires Runs(Init(input, seeded), acts)
    ensures var s := Exec(Init(input, seeded), acts);
            && Inputs(s.outcomes) + Current(s) + Reverse(s.core.queue) == Reverse(input)
            && |s.given| + |s.threads| <= 1 && |Current(s)| <= 1
            && s.core.successful == Results(s.outcomes, true) && s.core.failed == Results(s.outcomes, false)
            && |s.core.successful| + |s.core.failed| == |s.outcomes|
            && forall i :: 0 <= i < |s.outcomes| ==> GoodOutcome(s.outcomes[i])
  {
    Reached(input, seeded, acts);
    ResultsSplit(Exec(Init(input, seeded), acts).outcomes);
  }

  // ----- Termination

  function ThreadWeight(t: Thread): nat {
    match t
    case TAdding(_) => 25
    case TBound(_, _, _) => 15
    case TEvented(_) => 14
    case TNext(_) => 8
    case TReason(_) => 6
    case TClose => 5
    case TSend => 4
  }

  function RunWeight(r: RunPc): nat {
    match r
    case RAdding(_) => 28
    case RStart => 10
    case RReason => 5
    case RCloseEmpty => 4
    case RWaiting => 3
    case RClosing => 2
    case RReturned => 0
  }

  /** How many more steps the simulation can take. */
  function Measure(s: Sim): nat {
    30 * |s.core.queue| + RunWeight(s.run) + 20 * |s.given|
    + (if s.threads == [] then 0 else ThreadWeight(s.threads[0])) + 2 * s.owed + s.events
  }

  lemma ThreadMeasure(s: Sim, t: nat, a: Action)
    requires OneInv(s) && Enabled(s, a)
    requires IsNext(a) && a.t == t
    ensures Measure(Apply(s, a)) < Measure(s)
  {
    ThreadShape(s, t);
  }

  lemma AnswerMeasure(s: Sim, a: Action)
    requires OneInv(s) && PodKeyFound(s) && Enabled(s, a) && IsAnswer(a)
    ensures Measure(Apply(s, a)) < Measure(s)
  {
    match a
    case Bind(i, node) => BindShape(s, i, node);
    case RecordFailure(i) => FailureShape(s, i);
    case AppendSuccess(t) => ThreadShape(s, t);
    case UpdateFailure(t) => ThreadShape(s, t);
  }

  lemma OtherMeasure(s: Sim, input: seq<Pod>, a: Action)
    requires OneInv(s) && StopInv(s, input) && Enabled(s, a)
    requires a.RunPop? || a.RunAdd? || a.RunReason? || a.RunClose? || a.RunCloseStop? || a.RecordBound? || a.Drain?
    ensures Measure(Apply(s, a)) < Measure(s)
  {
  }

  lemma NoSendFault(s: Sim, input: seq<Pod>, t: nat)
    requires OneInv(s) && StopInv(s, input)
    ensures !Enabled(s, SendFault(t))
  {
  }

  /** Every step of Run, the scheduler, a callback or a drain makes the measure smaller. */
  lemma MeasureFalls(s: Sim, input: seq<Pod>, seeded: Cluster, a: Action)
    requires Inv(s, input, seeded) && Enabled(s, a)
    ensures Measure(Apply(s, a)) < Measure(s)
  {
    StoreFindsGiven(s, seeded.pods);
    if IsAnswer(a) {
      AnswerMeasure(s, a);
    } else if IsNext(a) {
      ThreadMeasure(s, a.t, a);
    } else if a.SendFault? {
      NoSendFault(s, input, a.t);
    } else {
      OtherMeasure(s, input, a);
    }
  }

  lemma {:induction false} MeasureRun(s: Sim, input: seq<Pod>, seeded: Cluster, acts: seq<Action>)
    requires Inv(s, input, seeded) && Runs(s, acts)
    ensures |acts| + Measure(Exec(s, acts)) <= Measure(s)
    decreases |acts|
  {
    if acts != [] {
      MeasureFalls(s, input, seeded, acts[0]);
      InvStep(s, input, seeded, acts[0]);
      MeasureRun(Apply(s, acts[0]), input, seeded, acts[1..]);
    }
  }

  ghost predicate Stuck(s: Sim) { forall a :: !Enabled(s, a) }

  /** Run has returned, no callback is left, and every event has been consumed. */
  predicate Finished(s: Sim) {
    s.run.RReturned? && s.given == [] && s.threads == [] && s.events == 0 && s.drains == 0 && s.owed == 0
  }

  /** A step of the callback in progress. */
  lemma ThreadMoves(s: Sim, input: seq<Pod>) returns (a: Action)
    requires OneInv(s) && StopInv(s, input) && s.threads != []
    ensures Enabled(s, a)
  {
    match s.threads[0]
    case TEvented(_) => return UpdateFailure(0);
    case TBound(_, _, _) => return AppendSuccess(0);
    case TNext(_) => return Pop(0);
    case TAdding(_) => return AddNext(0);
    case TReason(_) => return SetReason(0);
    case TClose => return Close(0);
    case TSend => return SendStop(0);
  }

  lemma SomebodyMoves(s: Sim, input: seq<Pod>) returns (a: Action)
    requires OneInv(s) && StopInv(s, input) && RecorderInv(s) && !Finished(s)
    ensures Enabled(s, a)
  {
    if s.threads != [] {
      a := ThreadMoves(s, input);
    } else if s.given != [] {
      return Bind(0, "");
    } else if !s.run.RReturned? {
      match s.run
      case RStart => return RunPop;
      case RAdding(_) => return RunAdd;
      case RReason => return RunReason;
      case RCloseEmpty => return RunClose;
      case RClosing => return RunCloseStop;
    } else if s.events > 0 {
      return Drain;
    } else {
      return RecordBound;
    }
  }

  /** The simulation stops exactly when it is finished. */
  lemma StuckIffFinished(s: Sim, input: seq<Pod>, seeded: Cluster)
    requires Inv(s, input, seeded)
    ensures Stuck(s) <==> Finished(s)
  {
    if !Finished(s) {
      var a := SomebodyMoves(s, input);
    }
  }

  /** Termination and stop handshake: every run is bounded, and every run that cannot go on has returned from Run after
      exactly one outcome per input pod, in the order of the stack; one stop token was received for a non-empty input
      and none for an empty one, never one after the channel was closed; the body of Close ran once; the stop
      reason is that of the last outcome; and every event was consumed. */
  lemma EveryRunEnds(input: seq<Pod>, seeded: Cluster, acts: seq<Action>)
    requires Runs(Init(input, seeded), acts)
    ensures |acts| <= Measure(Init(input, seeded))
    ensures var s := Exec(Init(input, seeded), acts);
            Stuck(s) ==>
              && s.run.RReturned? && Inputs(s.outcomes) == Reverse(input) && |s.outcomes| == |input|
              && s.tokens == (if input == [] then 0 else 1) && (s.stopClosed <==> input != []) && !s.fault
              && s.closes == 1 && s.core.closed
              && s.core.stopReason == (if input == [] || s.outcomes[|s.outcomes| - 1].ok
                                       then "fail to get next pod: No pods left\n"
                                       else "Fail to get next pod: No pods left\n")
              && s.events == 0 && s.drains == 0 && s.owed == 0
  {
    Reached(input, seeded, acts);
    InitInv(input, seeded);
    MeasureRun(Init(input, seeded), input, seeded, acts);
    var s := Exec(Init(input, seeded), acts);
    StuckIffFinished(s, input, seeded);
    if Finished(s) {
      ResultsSplit(s.outcomes);
      assert Inputs(s.outcomes) + [] + [] == Inputs(s.outcomes);
    }
  }

  /** In every reachable state at most one token was received, none was sent on the closed channel, and the body of
      Close ran at most once. */
  lemma StopHandshake(input: seq<Pod>, seeded: Cluster, acts: seq<Action>)
    requires Runs(Init(input, seeded), acts)
    ensures var s := Exec(Init(input, seeded), acts);
            !s.fault && s.tokens <= 1 && s.closes <= 1 && (s.stopClosed ==> s.threads == [] && s.run.RReturned?)
  {
    Reached(input, seeded, acts);
  }

  /** The recorder takes an event exactly while its channel holds fewer than ten. */
  lemma RecorderRoom(s: Sim)
    requires !s.fault
    ensures forall i: nat :: i < |s.given| ==> (Enabled(s, RecordFailure(i)) <==> s.events < 10)
    ensures s.owed > 0 ==> (Enabled(s, RecordBound) <==> s.events < 10)
  {
  }

  /** The recorder never stays blocked: in every interleaving the buffered events are at most one more than the waiting
      drains, so whenever the channel is full a drain is ready. */
  lemma RecorderNeverBlocks(input: seq<Pod>, seeded: Cluster, acts: seq<Action>)
    requires Runs(Init(input, seeded), acts)
    ensures var s := Exec(Init(input, seeded), acts);
            && s.events <= s.drains + 1 && s.events <= 10 && (s.events == 10 ==> Enabled(s, Drain))
            && (forall i: nat :: i < |s.given| ==> (Enabled(s, RecordFailure(i)) <==> s.events < 10))
            && (s.owed > 0 ==> (Enabled(s, RecordBound) <==> s.events < 10))
  {
    Reached(input, seeded, acts);
    RecorderRoom(Exec(Init(input, seeded), acts));
  }

  // ----- The store over whole runs

  predicate DistinctKeys(pods: seq<Pod>) {
    forall i, j :: 0 <= i < j < |pods| ==> PodKey(pods[i]) != PodKey(pods[j])
  }

  /** New pods have fresh names. */
  predicate FreshKeys(input: seq<Pod>, seeded: Cache) {
    DistinctKeys(input) && forall i :: 0 <= i < |input| ==> PodKey(input[i]) !in seeded
  }

  lemma {:induction false} InputsAt(os: seq<Outcome>)
    ensures |Inputs(os)| == |os| && forall i :: 0 <= i < |os| ==> Inputs(os)[i] == os[i].input
  {
    if os != [] {
      InputsAt(os[..|os| - 1]);
    }
  }

  /** The outcomes, the pod under way and the stack are r, from its front. */
  predicate Placed(s: Sim, r: seq<Pod>) {
    && |s.outcomes| + |Current(s)| + |s.core.queue| == |r|
    && (forall i :: 0 <= i < |s.outcomes| ==> s.outcomes[i].input == r[i])
    && (forall i :: 0 <= i < |Current(s)| ==> Current(s)[i] == r[|s.outcomes| + i])
    && (forall j :: 0 <= j < |s.core.queue| ==> s.core.queue[j] == r[|r| - 1 - j])
  }

  lemma OrderPlaces(s: Sim, input: seq<Pod>)
    requires OrderInv(s, input)
    ensures Placed(s, Reverse(input))
  {
    PiecesPlace(s, Inputs(s.outcomes), Reverse(s.core.queue), Reverse(input));
  }

  lemma PiecesPlace(s: Sim, done: seq<Pod>, back: seq<Pod>, r: seq<Pod>)
    requires done == Inputs(s.outcomes) && back == Reverse(s.core.queue) && done + Current(s) + back == r
    ensures Placed(s, r)
  {
    InputsAt(s.outcomes);
    FirstPiece(done, Current(s), back);
    forall i | 0 <= i < |Current(s)| ensures Current(s)[i] == r[|done| + i] {
      MiddlePiece(done, Current(s), back, i);
    }
    forall j | 0 <= j < |s.core.queue| ensures s.core.queue[j] == r[|r| - 1 - j] {
      ReverseAt(s.core.queue, |back| - 1 - j);
      LastPiece(done, Current(s), back, |back| - 1 - j);
    }
  }

  lemma FirstPiece(a: seq<Pod>, b: seq<Pod>, c: seq<Pod>)
    ensures |a + b + c| == |a| + |b| + |c|
    ensures forall i :: 0 <= i < |a| ==> (a + b + c)[i] == a[i]
  {
  }

  lemma MiddlePiece(a: seq<Pod>, b: seq<Pod>, c: seq<Pod>, i: nat)
    requires i < |b|
    ensures (a + b + c)[|a| + i] == b[i]
  {
  }

  lemma LastPiece(a: seq<Pod>, b: seq<Pod>, c: seq<Pod>, i: nat)
    requires i < |c|
    ensures (a + b + c)[|a| + |b| + i] == c[i]
  {
  }

  lemma ReverseFresh(input: seq<Pod>, seeded: Cache)
    requires FreshKeys(input, seeded)
    ensures FreshKeys(Reverse(input), seeded)
  {
    forall i | 0 <= i < |input| ensures Reverse(input)[i] == input[|input| - 1 - i] {
      ReverseAt(input, i);
    }
  }

  /** A key that belongs to no outcome is in no cache of outcomes. */
  lemma {:induction false} OutcomeCacheKeys(os: seq<Outcome>, k: string)
    requires forall i :: 0 <= i < |os| ==> PodKey(os[i].input) != k
    ensures k !in OutcomeCache(os)
  {
    if os != [] {
      OutcomeCacheKeys(os[..|os| - 1], k);
    }
  }

  /** The outcome of a key that occurs once decides what is stored under it. */
  lemma {:induction false} OutcomeCacheAt(os: seq<Outcome>, i: nat)
    requires i < |os| && forall j :: 0 <= j < |os| && j != i ==> PodKey(os[j].input) != PodKey(os[i].input)
    ensures PodKey(os[i].input) in OutcomeCache(os)
    ensures OutcomeCache(os)[PodKey(os[i].input)] == PodObject(if os[i].ok then os[i].result else os[i].input)
  {
    if i < |os| - 1 {
      OutcomeCacheAt(os[..|os| - 1], i);
    }
  }

  lemma CurrentKeys(s: Sim, k: string)
    requires OneInv(s) && forall i :: 0 <= i < |Current(s)| ==> PodKey(Current(s)[i]) != k
    ensures k !in CurrentCache(s)
  {
    if s.given != [] {
      assert Current(s)[0] == s.given[0];
    } else if s.threads != [] && (s.threads[0].TEvented? || s.threads[0].TBound?) {
      assert Current(s)[0] == s.threads[0].pod;
    }
  }

  predicate Stored(c: Cache, p: Pod) { PodKey(p) in c && c[PodKey(p)] == PodObject(p) }

  /** Each answered pod is stored bound to its node and Running, or as it was given. */
  predicate AnsweredStored(s: Sim) {
    forall i :: 0 <= i < |s.outcomes| ==>
      var o := s.outcomes[i];
      Stored(s.core.cache, if o.ok then o.input.(nodeName := o.node, phase := "Running") else o.input)
  }

  /** The pod under way is stored as it was given, until its Bind has updated it. */
  predicate UnderWayStored(s: Sim) {
    && (forall i :: 0 <= i < |s.given| ==> Stored(s.core.cache, s.given[i]))
    && (forall t :: 0 <= t < |s.threads| && s.threads[t].TEvented? ==> Stored(s.core.cache, s.threads[t].pod))
    && (forall t :: 0 <= t < |s.threads| && s.threads[t].TBound? ==>
          Stored(s.core.cache, s.threads[t].pod.(nodeName := s.threads[t].node, phase := "Running")))
  }

  /** The pod popped from the stack that is not in the store yet. */
  function Popped(s: Sim): seq<Pod> {
    if s.run.RAdding? then [s.run.pod]
    else if s.threads != [] && s.threads[0].TAdding? then [s.threads[0].pod] else []
  }

  /** Pods on the stack, or just popped from it, are absent. */
  predicate WaitingAbsent(s: Sim) {
    && (forall j :: 0 <= j < |s.core.queue| ==> PodKey(s.core.queue[j]) !in s.core.cache)
    && (forall i :: 0 <= i < |Popped(s)| ==> PodKey(Popped(s)[i]) !in s.core.cache)
  }

  /** Some answered pod, or the one under way, has the key. */
  predicate HasKey(s: Sim, k: string) {
    || (exists i :: 0 <= i < |s.outcomes| && PodKey(s.outcomes[i].input) == k)
    || (exists i :: 0 <= i < |Current(s)| && PodKey(Current(s)[i]) == k)
  }

  /** Seeded objects are unchanged, and every other key is that of an answered pod or the one under way. */
  ghost predicate SeededStored(s: Sim, seeded: Cache) {
    && (forall k :: k in seeded ==> k in s.core.cache && s.core.cache[k] == seeded[k])
    && (forall k :: k in s.core.cache ==> k in seeded || HasKey(s, k))
  }

  lemma AnsweredContent(s: Sim, r: seq<Pod>, seeded: Cache)
    requires OneInv(s) && StoreInv(s, seeded) && ListsInv(s) && Placed(s, r) && FreshKeys(r, seeded)
    ensures AnsweredStored(s)
  {
    forall i | 0 <= i < |s.outcomes|
      ensures var o := s.outcomes[i]; Stored(s.core.cache, if o.ok then o.result else o.input)
    {
      OutcomeCacheAt(s.outcomes, i);
      CurrentKeys(s, PodKey(s.outcomes[i].input));
    }
  }

  lemma UnderWayContent(s: Sim, seeded: Cache)
    requires OneInv(s) && StoreInv(s, seeded) && BoundWell(s)
    ensures UnderWayStored(s)
  {
  }

  lemma AbsentKey(s: Sim, seeded: Cache, k: string)
    requires OneInv(s) && StoreInv(s, seeded) && k !in seeded && k !in CurrentCache(s)
    requires forall i :: 0 <= i < |s.outcomes| ==> PodKey(s.outcomes[i].input) != k
    ensures k !in s.core.cache
  {
    OutcomeCacheKeys(s.outcomes, k);
  }

  lemma WaitingContent(s: Sim, r: seq<Pod>, seeded: Cache)
    requires OneInv(s) && StoreInv(s, seeded) && Placed(s, r) && FreshKeys(r, seeded)
    ensures WaitingAbsent(s)
  {
    forall j | 0 <= j < |s.core.queue| ensures PodKey(s.core.queue[j]) !in s.core.cache {
      CurrentKeys(s, PodKey(s.core.queue[j]));
      AbsentKey(s, seeded, PodKey(s.core.queue[j]));
    }
    forall i | 0 <= i < |Popped(s)| ensures PodKey(Popped(s)[i]) !in s.core.cache {
      assert Current(s) == Popped(s) && CurrentCache(s) == map[];
      assert Current(s)[0] == r[|s.outcomes|];
      AbsentKey(s, seeded, PodKey(Popped(s)[i]));
    }
  }

  lemma SeededContent(s: Sim, r: seq<Pod>, seeded: Cache)
    requires OneInv(s) && StoreInv(s, seeded) && Placed(s, r) && FreshKeys(r, seeded)
    ensures SeededStored(s, seeded)
  {
    forall k | k in seeded ensures k in s.core.cache && s.core.cache[k] == seeded[k] {
      OutcomeCacheKeys(s.outcomes, k);
      CurrentKeys(s, k);
    }
    forall k | k in s.core.cache && k !in seeded ensures HasKey(s, k) {
      NothingElse(s, seeded, k);
    }
  }

  lemma NothingElse(s: Sim, seeded: Cache, k: string)
    requires OneInv(s) && StoreInv(s, seeded) && k in s.core.cache && k !in seeded
    ensures HasKey(s, k)
  {
    if !HasKey(s, k) {
      CurrentKeys(s, k);
      AbsentKey(s, seeded, k);
    }
  }

  /** Store content over whole runs, for new pods with fresh keys; nodes and the other resources never change. */
  lemma StoreOverRuns(input: seq<Pod>, seeded: Cluster, acts: seq<Action>)
    requires FreshKeys(input, seeded.pods) && Runs(Init(input, seeded), acts)
    ensures var s := Exec(Init(input, seeded), acts);
            AnsweredStored(s) && UnderWayStored(s) && WaitingAbsent(s)
            && SeededStored(s, seeded.pods) && s.core.others == seeded.others
  {
    var s := Exec(Init(input, seeded), acts);
    Reached(input, seeded, acts);
    OrderPlaces(s, input);
    ReverseFresh(input, seeded.pods);
    AnsweredContent(s, Reverse(input), seeded.pods);
    UnderWayContent(s, seeded.pods);
    WaitingContent(s, Reverse(input), seeded.pods);
    SeededContent(s, Reverse(input), seeded.pods);
  }
}
