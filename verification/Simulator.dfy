/**
 The simulation driver of pkg/scheduler/simulator.go as a labelled transition system.

 Run feeds the first pod of the stack to the store and waits for the stop token.  The scheduler is an environment: it
 answers each pod it was given exactly once, in its own thread, by Bind with some node or by Update with the
 Unschedulable condition, and each callback feeds the next pod.  The scheduler records one event per outcome, before
 Update or after Bind, in a channel of ten; each callback starts a goroutine that drains one event.

 Stored objects are values, and the pod handed to Update is the scheduler's own copy of the pod it was given.
 */
module Simulator {
  import opened Objects

  const EVENT_BUFFER := 10

  const UNSCHEDULABLE := Condition("PodScheduled", "False", "Unschedulable")

  /** The part of ClusterCapacity that its methods change. */
  datatype Core = Core(
    cache: Cache,                  // the pods of the resource store
    others: map<ResourceType, Cache>,    // its other resources
    queue: seq<Pod>,               // PodQueue, a stack: the last pod is next
    successful: seq<Pod>, failed: seq<Pod>,
    stopReason: string, closed: bool)

  /** The resource store that New seeds from the cluster. */
  datatype Cluster = Cluster(pods: Cache, others: map<ResourceType, Cache>)

  function BoundPod(p: Pod, node: string): Pod { p.(nodeName := node, phase := "Running") }

  function FailedPod(p: Pod, c: Condition): Pod {
    p.(phase := "Pending", conditions := p.conditions + [c], reason := c.reason)
  }

  function PutPod(k: Core, p: Pod): Core { k.(cache := k.cache[PodKey(p) := PodObject(p)]) }

  // ----- Threads

  /** A callback of the scheduler for one pod. */
  datatype Thread =
    | TEvented(pod: Pod)                // failure event recorded, about to call Update
    | TBound(pod: Pod, node: string, updated: Pod)    // store updated by Bind, about to append to the status
    | TNext(bind: bool)                 // outcome recorded, deferred nextPod to run
    | TAdding(pod: Pod)                 // next pod popped, about to be added to the store
    | TReason(bind: bool)               // no pod left, about to set the stop reason
    | TClose                            // about to call Close
    | TSend                             // about to send the stop token

  datatype RunPc = RStart | RAdding(pod: Pod) | RReason | RCloseEmpty | RWaiting | RClosing | RReturned

  /** How one input pod ended: bound by the scheduler to a node, or not (then node is empty). */
  datatype Outcome = Outcome(input: Pod, ok: bool, node: string, result: Pod)

  datatype Sim = Sim(
    core: Core,
    given: seq<Pod>,             // pods added to the store that no callback has taken up
    threads: seq<Thread>,        // callbacks in progress
    run: RunPc,
    outcomes: seq<Outcome>,      // in the order they were recorded
    closes: nat,                 // how often the body of Close ran
    tokens: nat,                 // stop tokens received
    stopClosed: bool,
    fault: bool,                 // a stop token was sent on the closed channel
    events: nat,                 // events in the recorder's channel
    drains: nat,                 // goroutines waiting to receive one
    owed: nat)                   // events the scheduler still records for pods it bound

  datatype Action =
    | RunPop | RunAdd | RunReason | RunClose | RunCloseStop
    | Bind(i: nat, node: string) | RecordFailure(i: nat)
    | AppendSuccess(t: nat) | UpdateFailure(t: nat)
    | Pop(t: nat) | AddNext(t: nat) | SetReason(t: nat) | Close(t: nat) | SendStop(t: nat) | SendFault(t: nat)
    | RecordBound | Drain

  function Init(pods: seq<Pod>, seeded: Cluster): Sim {
    Sim(Core(seeded.pods, seeded.others, pods, [], [], "", false), [], [], RStart, [], 0, 0, false, false, 0, 0, 0)
  }

  function RemoveAt<A>(xs: seq<A>, i: nat): seq<A>
    requires i < |xs|
  {
    xs[..i] + xs[i + 1..]
  }

  predicate AtThread(s: Sim, t: nat) { t < |s.threads| }

  predicate Enabled(s: Sim, a: Action) {
    && !s.fault
    && match a
       case RunPop => s.run.RStart?
       case RunAdd => s.run.RAdding?
       case RunReason => s.run.RReason?
       case RunClose => s.run.RCloseEmpty?
       case RunCloseStop => s.run.RClosing?
       case Bind(i, _) => i < |s.given|
       case RecordFailure(i) => i < |s.given| && s.events < EVENT_BUFFER
       case AppendSuccess(t) => AtThread(s, t) && s.threads[t].TBound?
       case UpdateFailure(t) => AtThread(s, t) && s.threads[t].TEvented?
       case Pop(t) => AtThread(s, t) && s.threads[t].TNext?
       case AddNext(t) => AtThread(s, t) && s.threads[t].TAdding?
       case SetReason(t) => AtThread(s, t) && s.threads[t].TReason?
       case Close(t) => AtThread(s, t) && s.threads[t].TClose?
       case SendStop(t) => AtThread(s, t) && s.threads[t].TSend? && s.run.RWaiting? && !s.stopClosed
       case SendFault(t) => AtThread(s, t) && s.threads[t].TSend? && s.stopClosed
       case RecordBound => s.owed > 0 && s.events < EVENT_BUFFER
       case Drain => s.events > 0 && s.drains > 0
  }

  function CloseCore(k: Core): Core { k.(closed := true) }

  function Reason(bind: bool): string {
    if bind then "fail to get next pod: No pods left\n" else "Fail to get next pod: No pods left\n"
  }

  function ApplyRun(s: Sim, a: Action): (t: Sim)
    requires Enabled(s, a) && (a.RunPop? || a.RunAdd? || a.RunReason? || a.RunClose? || a.RunCloseStop?)
    ensures t.core.others == s.core.others
  {
    match a
    case RunPop =>
      var n := |s.core.queue| - 1;
      if n < 0 then s.(run := RReason)
      else s.(run := RAdding(s.core.queue[n]), core := s.core.(queue := s.core.queue[..n]))
    case RunAdd => s.(run := RWaiting, core := PutPod(s.core, s.run.pod), given := s.given + [s.run.pod])
    case RunReason => s.(run := RCloseEmpty, core := s.core.(stopReason := Reason(true)))
    case RunClose =>
      s.(run := RReturned, core := CloseCore(s.core), closes := if s.core.closed then s.closes else s.closes + 1)
    case RunCloseStop => s.(run := RReturned, stopClosed := true)
  }

  function ApplyAnswer(s: Sim, a: Action): (t: Sim)
    requires Enabled(s, a) && (a.Bind? || a.RecordFailure? || a.AppendSuccess? || a.UpdateFailure?)
    ensures t.core.others == s.core.others
  {
    match a
    case Bind(i, node) =>
      var p := s.given[i];
      var s' := s.(given := RemoveAt(s.given, i));
      if PodKey(p) in s.core.cache && s.core.cache[PodKey(p)].PodObject? then
        var updated := BoundPod(s.core.cache[PodKey(p)].pod, node);
        s'.(core := PutPod(s.core, updated), threads := s.threads + [TBound(p, node, updated)])
      else s'
    case RecordFailure(i) =>
      s.(given := RemoveAt(s.given, i), events := s.events + 1, threads := s.threads + [TEvented(s.given[i])])
    case AppendSuccess(t) =>
      var u := s.threads[t].updated;
      s.(core := s.core.(successful := s.core.successful + [u]), threads := s.threads[t := TNext(true)],
         outcomes := s.outcomes + [Outcome(s.threads[t].pod, true, s.threads[t].node, u)], drains := s.drains + 1, owed := s.owed + 1)
    case UpdateFailure(t) =>
      var f := FailedPod(s.threads[t].pod, UNSCHEDULABLE);
      s.(core := s.core.(failed := s.core.failed + [f]), threads := s.threads[t := TNext(false)],
         outcomes := s.outcomes + [Outcome(s.threads[t].pod, false, "", f)], drains := s.drains + 1)
  }

  function ApplyNext(s: Sim, a: Action): (t: Sim)
    requires Enabled(s, a) && (a.Pop? || a.AddNext? || a.SetReason? || a.Close? || a.SendStop? || a.SendFault?)
    ensures t.core.others == s.core.others
  {
    match a
    case Pop(t) =>
      var n := |s.core.queue| - 1;
      if n < 0 then s.(threads := s.threads[t := TReason(s.threads[t].bind)])
      else s.(threads := s.threads[t := TAdding(s.core.queue[n])], core := s.core.(queue := s.core.queue[..n]))
    case AddNext(t) =>
      var p := s.threads[t].pod;
      s.(threads := RemoveAt(s.threads, t), core := PutPod(s.core, p), given := s.given + [p])
    case SetReason(t) =>
      s.(threads := s.threads[t := TClose], core := s.core.(stopReason := Reason(s.threads[t].bind)))
    case Close(t) =>
      s.(threads := s.threads[t := TSend], core := CloseCore(s.core), closes := if s.core.closed then s.closes else s.closes + 1)
    case SendStop(t) => s.(threads := RemoveAt(s.threads, t), run := RClosing, tokens := s.tokens + 1)
    case SendFault(t) => s.(fault := true)
  }

  /** The state after a; an action that is not enabled changes nothing. */
  function Apply(s: Sim, a: Action): Sim {
    if !Enabled(s, a) then s
    else
      match a
      case RecordBound => s.(owed := s.owed - 1, events := s.events + 1)
      case Drain => s.(events := s.events - 1, drains := s.drains - 1)
      case RunPop => ApplyRun(s, a)
      case RunAdd => ApplyRun(s, a)
      case RunReason => ApplyRun(s, a)
      case RunClose => ApplyRun(s, a)
      case RunCloseStop => ApplyRun(s, a)
      case Bind(_, _) => ApplyAnswer(s, a)
      case RecordFailure(_) => ApplyAnswer(s, a)
      case AppendSuccess(_) => ApplyAnswer(s, a)
      case UpdateFailure(_) => ApplyAnswer(s, a)
      case _ => ApplyNext(s, a)
  }

  predicate Runs(s: Sim, acts: seq<Action>)
    decreases |acts|
  {
    acts == [] || (Enabled(s, acts[0]) && Runs(Apply(s, acts[0]), acts[1..]))
  }

  function Exec(s: Sim, acts: seq<Action>): Sim
    decreases |acts|
  {
    if acts == [] then s else Exec(Apply(s, acts[0]), acts[1..])
  }
}
