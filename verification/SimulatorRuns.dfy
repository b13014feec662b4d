/** What holds in every state of every run of the simulation, and how every run ends. */
module SimulatorRuns {
  import opened Sequences
  import opened Objects
  import opened Simulator

  // ----- One pod at a time

  predicate IsLast(t: Thread) { t.TReason? || t.TClose? || t.TSend? }

  /** While Run waits, exactly one pod is with the scheduler or in exactly one callback; otherwise none is. */
  predicate OneInv(s: Sim) {
    && (if s.run.RWaiting? then |s.given| + |s.threads| == 1 else s.given == [] && s.threads == [])
    && (s.run.RReason? || s.run.RCloseEmpty? || s.run.RClosing? || s.run.RReturned? ==> s.core.queue == [])
    && (forall t :: 0 <= t < |s.threads| && IsLast(s.threads[t]) ==> s.core.queue == [])
  }

  /** Every pod given to the scheduler is in the store as it was given. */
  predicate PodKeyFound(s: Sim) {
    forall i :: 0 <= i < |s.given| ==> PodKey(s.given[i]) in s.core.cache
                                       && s.core.cache[PodKey(s.given[i])] == PodObject(s.given[i])
  }

  predicate IsAnswer(a: Action) { a.Bind? || a.RecordFailure? || a.AppendSuccess? || a.UpdateFailure? }

  predicate IsNext(a: Action) { a.Pop? || a.AddNext? || a.SetReason? || a.Close? || a.SendStop? }

  /** The steps of an answer, spelled out for the one pod under way. */
  lemma BindShape(s: Sim, i: nat, node: string)
    requires OneInv(s) && PodKeyFound(s) && Enabled(s, Bind(i, node))
    ensures s.given == [s.given[i]] && s.threads == [] && s.run == RWaiting
    ensures var p := s.given[i];
            Apply(s, Bind(i, node)) == s.(given := [], threads := [TBound(p, node, BoundPod(p, node))],
                                          core := PutPod(s.core, BoundPod(p, node)))
  {
    assert RemoveAt(s.given, i) == [];
  }

  lemma FailureShape(s: Sim, i: nat)
    requires OneInv(s) && Enabled(s, RecordFailure(i))
    ensures s.given == [s.given[i]] && s.threads == [] && s.run == RWaiting
    ensures Apply(s, RecordFailure(i)) == s.(given := [], threads := [TEvented(s.given[i])], events := s.events + 1)
  {
    assert RemoveAt(s.given, i) == [];
  }

  lemma ThreadShape(s: Sim, t: nat)
    requires OneInv(s) && AtThread(s, t)
    ensures t == 0 && s.threads == [s.threads[0]] && s.given == [] && s.run == RWaiting
    ensures forall x :: s.threads[t := x] == [x]
    ensures RemoveAt(s.threads, t) == []
  {
  }

  /** The outcome that a recording step appends. */
  function Recorded(t: Thread): Outcome
    requires t.TBound? || t.TEvented?
  {
    if t.TBound? then Outcome(t.pod, true, t.node, t.updated)
    else Outcome(t.pod, false, "", FailedPod(t.pod, UNSCHEDULABLE))
  }

  lemma RecordShape(s: Sim, t: nat, a: Action)
    requires OneInv(s) && Enabled(s, a) && (a == AppendSuccess(t) || a == UpdateFailure(t))
    ensures s.threads == [s.threads[0]] && s.given == [] && s.run == RWaiting && !s.threads[0].TNext?
    ensures s.threads[0].TBound? || s.threads[0].TEvented?
    ensures var s', o := Apply(s, a), Recorded(s.threads[0]);
            && s'.threads == [TNext(a.AppendSuccess?)] && s'.given == [] && s'.run == s.run
            && s'.outcomes == s.outcomes + [o]
            && s'.core == s.core.(successful := s'.core.successful, failed := s'.core.failed)
            && s'.core.successful == s.core.successful + (if o.ok then [o.result] else [])
            && s'.core.failed == s.core.failed + (if o.ok then [] else [o.result])
  {
    ThreadShape(s, t);
  }

  lemma OneNext(s: Sim, t: nat, a: Action)
    requires OneInv(s) && Enabled(s, a)
    requires IsNext(a) && a.t == t
    ensures OneInv(Apply(s, a))
  {
    ThreadShape(s, t);
  }

  lemma OneRun(s: Sim, a: Action)
    requires OneInv(s) && Enabled(s, a) && !IsAnswer(a) && !IsNext(a)
    ensures OneInv(Apply(s, a))
  {
  }

  lemma OneAnswer(s: Sim, a: Action)
    requires OneInv(s) && PodKeyFound(s) && Enabled(s, a) && IsAnswer(a)
    ensures OneInv(Apply(s, a))
  {
    match a
    case Bind(i, node) => BindShape(s, i, node);
    case RecordFailure(i) => FailureShape(s, i);
    case AppendSuccess(t) => RecordShape(s, t, a);
    case UpdateFailure(t) => RecordShape(s, t, a);
  }

  lemma OneStep(s: Sim, a: Action)
    requires OneInv(s) && PodKeyFound(s) && Enabled(s, a)
    ensures OneInv(Apply(s, a))
  {
    if IsAnswer(a) {
      OneAnswer(s, a);
    } else if IsNext(a) {
      OneNext(s, a.t, a);
    } else {
      OneRun(s, a);
    }
  }

  // ----- The store

  /** What the outcomes leave in the store: bound pods as updated, failed pods as they were. */
  function OutcomeCache(os: seq<Outcome>): Cache {
    if os == [] then map[]
    else
      var o := os[|os| - 1];
      OutcomeCache(os[..|os| - 1])[PodKey(o.input) := PodObject(if o.ok then o.result else o.input)]
  }

  lemma OutcomeCacheAppend(os: seq<Outcome>, o: Outcome)
    ensures OutcomeCache(os + [o]) == OutcomeCache(os)[PodKey(o.input) := PodObject(if o.ok then o.result else o.input)]
  {
    assert (os + [o])[..|os|] == os;
  }

  /** What the pod under way has in the store. */
  function CurrentCache(s: Sim): Cache {
    if s.given != [] then map[PodKey(s.given[0]) := PodObject(s.given[0])]
    else if s.threads == [] then map[]
    else
      match s.threads[0]
      case TEvented(p) => map[PodKey(p) := PodObject(p)]
      case TBound(p, _, u) => map[PodKey(p) := PodObject(u)]
      case _ => map[]
  }

  ghost predicate StoreInv(s: Sim, seeded: Cache) {
    s.core.cache == seeded + OutcomeCache(s.outcomes) + CurrentCache(s)
  }

  predicate BoundWell(s: Sim) {
    forall t :: 0 <= t < |s.threads| && s.threads[t].TBound? ==>
                  s.threads[t].updated == BoundPod(s.threads[t].pod, s.threads[t].node)
  }

  lemma StoreFindsGiven(s: Sim, seeded: Cache)
    requires OneInv(s) && StoreInv(s, seeded)
    ensures PodKeyFound(s)
  {
  }

  lemma BoundStep(s: Sim, a: Action)
    requires OneInv(s) && PodKeyFound(s) && BoundWell(s) && Enabled(s, a)
    ensures BoundWell(Apply(s, a))
  {
  }

  lemma MergePut(a: Cache, b: Cache, k: string, v: Object, u: Object)
    ensures (a + b + map[])[k := v] == a + b + map[k := v]
    ensures (a + b + map[k := v])[k := u] == a + b + map[k := u]
    ensures a + b[k := v] + map[] == a + b + map[k := v]
  {
  }

  lemma StoreBind(s: Sim, seeded: Cache, i: nat, node: string)
    requires OneInv(s) && PodKeyFound(s) && StoreInv(s, seeded) && Enabled(s, Bind(i, node))
    ensures StoreInv(Apply(s, Bind(i, node)), seeded)
  {
    BindShape(s, i, node);
    var p := s.given[i];
    MergePut(seeded, OutcomeCache(s.outcomes), PodKey(p), PodObject(p), PodObject(BoundPod(p, node)));
  }

  lemma StoreRecord(s: Sim, seeded: Cache, t: nat, a: Action)
    requires OneInv(s) && StoreInv(s, seeded) && Enabled(s, a)
    requires a == AppendSuccess(t) || a == UpdateFailure(t)
    ensures StoreInv(Apply(s, a), seeded)
  {
    RecordShape(s, t, a);
    var o := Recorded(s.threads[0]);
    var v := PodObject(if o.ok then o.result else o.input);
    OutcomeCacheAppend(s.outcomes, o);
    MergePut(seeded, OutcomeCache(s.outcomes), PodKey(o.input), v, v);
  }

  lemma StoreAdd(s: Sim, seeded: Cache, a: Action)
    requires OneInv(s) && StoreInv(s, seeded) && Enabled(s, a) && (a.RunAdd? || a.AddNext?)
    ensures StoreInv(Apply(s, a), seeded)
  {
    var s' := Apply(s, a);
    if a.AddNext? {
      ThreadShape(s, a.t);
    }
    var p := if a.RunAdd? then s.run.pod else s.threads[0].pod;
    assert s'.given == [p] && s'.core == PutPod(s.core, p) && s'.outcomes == s.outcomes && CurrentCache(s) == map[];
    MergePut(seeded, OutcomeCache(s.outcomes), PodKey(p), PodObject(p), PodObject(p));
  }

  /** A step that neither answers nor adds a pod leaves the pods under way as they are. */
  lemma ThreadKeepsStore(s: Sim, t: nat, a: Action)
    requires OneInv(s) && Enabled(s, a) && (a == Pop(t) || a == SetReason(t) || a == Close(t) || a == SendStop(t))
    ensures var s' := Apply(s, a);
            && s'.outcomes == s.outcomes && s'.core.cache == s.core.cache && s'.given == s.given
            && CurrentCache(s') == CurrentCache(s)
  {
    ThreadShape(s, t);
  }

  lemma RunKeepsStore(s: Sim, a: Action)
    requires OneInv(s) && Enabled(s, a)
    requires !IsAnswer(a) && !a.AddNext? && !a.Pop? && !a.SetReason? && !a.Close? && !a.SendStop? && !a.RunAdd?
    ensures var s' := Apply(s, a);
            && s'.outcomes == s.outcomes && s'.core.cache == s.core.cache && s'.given == s.given
            && s'.threads == s.threads
  {
  }

  lemma StoreStep(s: Sim, seeded: Cache, a: Action)
    requires OneInv(s) && PodKeyFound(s) && StoreInv(s, seeded) && Enabled(s, a)
    ensures StoreInv(Apply(s, a), seeded)
  {
    match a
    case Bind(i, node) => StoreBind(s, seeded, i, node);
    case RecordFailure(i) => FailureShape(s, i);
    case AppendSuccess(t) => StoreRecord(s, seeded, t, a);
    case UpdateFailure(t) => StoreRecord(s, seeded, t, a);
    case RunAdd => StoreAdd(s, seeded, a);
    case AddNext(_) => StoreAdd(s, seeded, a);
    case Pop(t) => ThreadKeepsStore(s, t, a);
    case SetReason(t) => ThreadKeepsStore(s, t, a);
    case Close(t) => ThreadKeepsStore(s, t, a);
    case SendStop(t) => ThreadKeepsStore(s, t, a);
    case _ => RunKeepsStore(s, a);
  }

  // ----- Conservation and order

  function Inputs(os: seq<Outcome>): seq<Pod> {
    if os == [] then [] else Inputs(os[..|os| - 1]) + [os[|os| - 1].input]
  }

  /** The pod popped from the stack that has no outcome yet. */
  function Current(s: Sim): seq<Pod> {
    if s.run.RAdding? then [s.run.pod]
    else if s.given != [] then s.given
    else if s.threads == [] then []
    else
      match s.threads[0]
      case TEvented(p) => [p]
      case TBound(p, _, _) => [p]
      case TAdding(p) => [p]
      case _ => []
  }

  /** Outcomes in order, then the pod under way, then the stack from its top, are the input backwards. */
  ghost predicate OrderInv(s: Sim, input: seq<Pod>) {
    Inputs(s.outcomes) + Current(s) + Reverse(s.core.queue) == Reverse(input)
  }

  lemma InputsAppend(os: seq<Outcome>, o: Outcome)
    ensures Inputs(os + [o]) == Inputs(os) + [o.input]
  {
    assert (os + [o])[..|os|] == os;
  }

  lemma OrderRecord(s: Sim, input: seq<Pod>, t: nat, a: Action)
    requires OneInv(s) && OrderInv(s, input) && Enabled(s, a)
    requires a == AppendSuccess(t) || a == UpdateFailure(t)
    ensures OrderInv(Apply(s, a), input)
  {
    RecordShape(s, t, a);
    var o := Recorded(s.threads[0]);
    InputsAppend(s.outcomes, o);
    assert Inputs(s.outcomes) + [o.input] + [] == Inputs(s.outcomes) + [o.input];
  }

  lemma PopShape(s: Sim, a: Action)
    requires OneInv(s) && Enabled(s, a) && (a.RunPop? || a.Pop?)
    ensures var s', q := Apply(s, a), s.core.queue;
            && s'.outcomes == s.outcomes && Current(s) == []
            && (if q == [] then s'.core.queue == [] && Current(s') == []
                else s'.core.queue == q[..|q| - 1] && Current(s') == [q[|q| - 1]])
  {
    if a.Pop? {
      ThreadShape(s, a.t);
    }
  }

  lemma OrderPop(s: Sim, input: seq<Pod>, a: Action)
    requires OneInv(s) && OrderInv(s, input) && Enabled(s, a) && (a.RunPop? || a.Pop?)
    ensures OrderInv(Apply(s, a), input)
  {
    PopShape(s, a);
    MoveTop(Inputs(s.outcomes), s.core.queue);
  }

  lemma MoveTop(done: seq<Pod>, queue: seq<Pod>)
    ensures queue != [] ==>
              done + [] + Reverse(queue) == done + [queue[|queue| - 1]] + Reverse(queue[..|queue| - 1])
  {
  }

  lemma OrderOther(s: Sim, a: Action)
    requires OneInv(s) && Enabled(s, a) && !IsAnswer(a) && !a.RunPop? && !a.Pop?
    ensures var s' := Apply(s, a);
            s'.outcomes == s.outcomes && Current(s') == Current(s) && s'.core.queue == s.core.queue
  {
  }

  lemma OrderStep(s: Sim, input: seq<Pod>, a: Action)
    requires OneInv(s) && PodKeyFound(s) && OrderInv(s, input) && Enabled(s, a)
    ensures OrderInv(Apply(s, a), input)
  {
    match a
    case Bind(i, node) => BindShape(s, i, node);
    case RecordFailure(i) => FailureShape(s, i);
    case AppendSuccess(t) => OrderRecord(s, input, t, a);
    case UpdateFailure(t) => OrderRecord(s, input, t, a);
    case RunPop => OrderPop(s, input, a);
    case Pop(_) => OrderPop(s, input, a);
    case _ => OrderOther(s, a);
  }

  // ----- The status lists

  function Results(os: seq<Outcome>, ok: bool): seq<Pod> {
    if os == [] then []
    else Results(os[..|os| - 1], ok) + if os[|os| - 1].ok == ok then [os[|os| - 1].result] else []
  }

  /** A bound pod differs from its input only in node and phase, a failed one only in phase, reason and one more
      condition. */
  predicate GoodOutcome(o: Outcome) {
    if o.ok then o.result == o.input.(nodeName := o.node, phase := "Running")
    else o.result == o.input.(phase := "Pending", reason := "Unschedulable",
                              conditions := o.input.conditions + [Condition("PodScheduled", "False", "Unschedulable")])
  }

  ghost predicate ListsInv(s: Sim) {
    && s.core.successful == Results(s.outcomes, true) && s.core.failed == Results(s.outcomes, false)
    && forall i :: 0 <= i < |s.outcomes| ==> GoodOutcome(s.outcomes[i])
  }

  lemma ResultsAppend(os: seq<Outcome>, o: Outcome, ok: bool)
    ensures Results(os + [o], ok) == Results(os, ok) + if o.ok == ok then [o.result] else []
  {
    assert (os + [o])[..|os|] == os;
  }

  lemma ListsRecord(s: Sim, t: nat, a: Action)
    requires OneInv(s) && BoundWell(s) && ListsInv(s) && Enabled(s, a)
    requires a == AppendSuccess(t) || a == UpdateFailure(t)
    ensures ListsInv(Apply(s, a))
  {
    RecordShape(s, t, a);
    var o := Recorded(s.threads[0]);
    assert GoodOutcome(o);
    ResultsAppend(s.outcomes, o, true);
    ResultsAppend(s.outcomes, o, false);
  }

  lemma ListsStep(s: Sim, a: Action)
    requires OneInv(s) && BoundWell(s) && ListsInv(s) && Enabled(s, a)
    ensures ListsInv(Apply(s, a))
  {
    if a.AppendSuccess? || a.UpdateFailure? {
      ListsRecord(s, a.t, a);
    } else {
      var s' := Apply(s, a);
      assert s'.outcomes == s.outcomes && s'.core.successful == s.core.successful && s'.core.failed == s.core.failed;
    }
  }

  // ----- The stop handshake

  predicate HasSend(s: Sim) { s.threads != [] && s.threads[0].TSend? }

  predicate StopInv(s: Sim, input: seq<Pod>) {
    && !s.fault
    && s.closes == (if s.core.closed then 1 else 0)
    && (s.core.closed <==> HasSend(s) || s.run.RClosing? || s.run.RReturned?)
    && s.tokens == (if s.run.RClosing? || s.stopClosed then 1 else 0)
    && (s.stopClosed <==> s.run.RReturned? && input != [])
    && (s.run.RReason? || s.run.RCloseEmpty? ==> input == [])
    && (s.run.RAdding? || s.run.RWaiting? || s.run.RClosing? ==> input != [])
    && (s.run.RStart? ==> s.core.queue == input)
  }

  lemma StopStep(s: Sim, input: seq<Pod>, a: Action)
    requires OneInv(s) && PodKeyFound(s) && StopInv(s, input) && Enabled(s, a)
    ensures StopInv(Apply(s, a), input)
  {
  }

  // ----- The stop reason

  /** The stop reason that goes with the last outcome. */
  predicate ReasonFits(s: Sim) { s.outcomes != [] && s.core.stopReason == Reason(s.outcomes[|s.outcomes| - 1].ok) }

  predicate LastIs(s: Sim, ok: bool) { s.outcomes != [] && s.outcomes[|s.outcomes| - 1].ok == ok }

  ghost predicate ReasonInv(s: Sim, input: seq<Pod>) {
    && (s.threads != [] && (s.threads[0].TNext? || s.threads[0].TReason?) ==> LastIs(s, s.threads[0].bind))
    && (s.threads != [] && (s.threads[0].TClose? || s.threads[0].TSend?) ==> ReasonFits(s))
    && (s.run.RClosing? ==> ReasonFits(s))
    && (s.run.RCloseEmpty? ==> s.core.stopReason == Reason(true))
    && (s.run.RReturned? ==> if input == [] then s.core.stopReason == Reason(true) else ReasonFits(s))
  }

  lemma ReasonRecord(s: Sim, input: seq<Pod>, t: nat, a: Action)
    requires OneInv(s) && ReasonInv(s, input) && Enabled(s, a) && (a == AppendSuccess(t) || a == UpdateFailure(t))
    ensures ReasonInv(Apply(s, a), input)
  {
    RecordShape(s, t, a);
  }

  lemma ReasonPop(s: Sim, input: seq<Pod>, t: nat, a: Action)
    requires OneInv(s) && ReasonInv(s, input) && Enabled(s, a) && (a == Pop(t) || a == AddNext(t))
    ensures ReasonInv(Apply(s, a), input)
  {
    ThreadShape(s, t);
  }

  lemma ReasonSet(s: Sim, input: seq<Pod>, t: nat)
    requires OneInv(s) && ReasonInv(s, input) && Enabled(s, SetReason(t))
    ensures ReasonInv(Apply(s, SetReason(t)), input)
  {
    ThreadShape(s, t);
  }

  lemma ReasonStop(s: Sim, input: seq<Pod>, t: nat, a: Action)
    requires OneInv(s) && ReasonInv(s, input) && Enabled(s, a) && (a == Close(t) || a == SendStop(t))
    ensures ReasonInv(Apply(s, a), input)
  {
    ThreadShape(s, t);
  }

  lemma ReasonOther(s: Sim, input: seq<Pod>, a: Action)
    requires OneInv(s) && PodKeyFound(s) && StopInv(s, input) && ReasonInv(s, input) && Enabled(s, a)
    requires a.Bind? || a.RecordFailure? || a.RunPop? || a.RunAdd? || a.RunReason? || a.RunClose? || a.RunCloseStop?
    ensures ReasonInv(Apply(s, a), input)
  {
  }

  lemma ReasonStep(s: Sim, input: seq<Pod>, a: Action)
    requires OneInv(s) && PodKeyFound(s) && StopInv(s, input) && ReasonInv(s, input) && Enabled(s, a)
    ensures ReasonInv(Apply(s, a), input)
  {
    match a
    case AppendSuccess(t) => ReasonRecord(s, input, t, a);
    case UpdateFailure(t) => ReasonRecord(s, input, t, a);
    case Pop(t) => ReasonPop(s, input, t, a);
    case AddNext(t) => ReasonPop(s, input, t, a);
    case SetReason(t) => ReasonSet(s, input, t);
    case Close(t) => ReasonStop(s, input, t, a);
    case SendStop(t) => ReasonStop(s, input, t, a);
    case SendFault(_) =>
    case RecordBound =>
    case Drain =>
    case _ => ReasonOther(s, input, a);
  }

  // ----- The recorder

  /** Every drain waits for an event in the channel or one still to be recorded; only an event recorded for a failure
      whose Update has not run is ahead of its drain. */
  predicate RecorderInv(s: Sim) {
    && s.events <= EVENT_BUFFER
    && s.events + s.owed == s.drains + if s.threads != [] && s.threads[0].TEvented? then 1 else 0
  }

  lemma RecorderAnswer(s: Sim, a: Action)
    requires OneInv(s) && PodKeyFound(s) && RecorderInv(s) && Enabled(s, a) && IsAnswer(a)
    ensures RecorderInv(Apply(s, a))
  {
    match a
    case Bind(i, node) => BindShape(s, i, node);
    case RecordFailure(i) => FailureShape(s, i);
    case AppendSuccess(t) => ThreadShape(s, t);
    case UpdateFailure(t) => ThreadShape(s, t);
  }

  lemma RecorderNext(s: Sim, a: Action)
    requires OneInv(s) && RecorderInv(s) && Enabled(s, a) && IsNext(a)
    ensures RecorderInv(Apply(s, a))
  {
    ThreadShape(s, a.t);
  }

  lemma RecorderStep(s: Sim, a: Action)
    requires OneInv(s) && PodKeyFound(s) && RecorderInv(s) && Enabled(s, a)
    ensures RecorderInv(Apply(s, a))
  {
    if IsAnswer(a) {
      RecorderAnswer(s, a);
    } else if IsNext(a) {
      RecorderNext(s, a);
    }
  }

  /** No step touches a resource other than pods. */
  lemma OthersStep(s: Sim, a: Action)
    ensures Apply(s, a).core.others == s.core.others
  {
  }

  // ----- All together

  ghost predicate Inv(s: Sim, input: seq<Pod>, seeded: Cluster) {
    && OneInv(s) && StoreInv(s, seeded.pods) && s.core.others == seeded.others && BoundWell(s) && OrderInv(s, input) && ListsInv(s)
    && StopInv(s, input) && ReasonInv(s, input) && RecorderInv(s)
  }

  lemma InitInv(input: seq<Pod>, seeded: Cluster)
    ensures Inv(Init(input, seeded), input, seeded)
  {
    assert seeded.pods + map[] + map[] == seeded.pods;
    assert [] + [] + Reverse(input) == Reverse(input);
  }

  lemma InvStep(s: Sim, input: seq<Pod>, seeded: Cluster, a: Action)
    requires Inv(s, input, seeded) && Enabled(s, a)
    ensures Inv(Apply(s, a), input, seeded)
  {
    StoreFindsGiven(s, seeded.pods);
    OneStep(s, a);
    BoundStep(s, a);
    StoreStep(s, seeded.pods, a);
    OthersStep(s, a);
    OrderStep(s, input, a);
    ListsStep(s, a);
    StopStep(s, input, a);
    ReasonStep(s, input, a);
    RecorderStep(s, a);
  }

  lemma {:induction false} InvRun(s: Sim, input: seq<Pod>, seeded: Cluster, acts: seq<Action>)
    requires Inv(s, input, seeded) && Runs(s, acts)
    ensures Inv(Exec(s, acts), input, seeded)
    decreases |acts|
  {
    if acts != [] {
      InvStep(s, input, seeded, acts[0]);
      InvRun(Apply(s, acts[0]), input, seeded, acts[1..]);
    }
  }
}
