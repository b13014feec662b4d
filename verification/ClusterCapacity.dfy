/** PodQueue, the predictive strategy and ClusterCapacity as objects; each callback, run without interruption, is a run
    of the transition system of Simulator. */
module ClusterCapacity {
  import opened Objects
  import opened Views
  import opened ApiServer
  import opened Simulator

  /** pkg/framework/store/store.go: a stack of pods. */
  class PodQueue {
    var queue: seq<Pod>

    constructor (pods: seq<Pod>)
      ensures queue == pods
    {
      queue := [];
      new;
      for i := 0 to |pods|
        invariant queue == pods[..i]
      {
        Add(pods[i]);
      }
    }

    method Add(pod: Pod)
      modifies this
      ensures queue == old(queue) + [pod]
    {
      queue := queue + [pod];
    }

    method Pop() returns (pod: Option<Pod>)
      modifies this
      ensures old(queue) == [] ==> pod == None && queue == []
      ensures old(queue) != [] ==> pod.Some? && old(queue) == queue + [pod.value]
    {
      var lastIndex := |queue| - 1;
      if lastIndex >= 0 {
        pod := Some(queue[lastIndex]);
        queue := queue[..lastIndex];
      } else {
        pod := None;
      }
    }
  }

  // ----- What the callbacks do to the driver's data

  function NextCore(k: Core): (Core, bool) {
    var n := |k.queue| - 1;
    if n < 0 then (k, false) else (PutPod(k.(queue := k.queue[..n]), k.queue[n]), true)
  }

  /** The deferred part of a callback: the next pod, or the stop; the flag says that a stop token will be sent. */
  function FinishCore(k: Core, bind: bool): (Core, bool) {
    if NextCore(k).1 then (NextCore(k).0, false) else (CloseCore(k.(stopReason := Reason(bind))), true)
  }

  function BindCore(k: Core, p: Pod, node: string): (Core, bool) {
    var u := BoundPod(p, node);
    FinishCore(PutPod(k, u).(successful := k.successful + [u]), true)
  }

  function UpdateCore(k: Core, p: Pod, c: Condition): (Core, bool) {
    if IsStop(c) then FinishCore(k.(failed := k.failed + [FailedPod(p, c)]), false) else (k, false)
  }

  predicate IsStop(c: Condition) { c.kind == "PodScheduled" && c.status == "False" && c.reason == "Unschedulable" }

  predicate OnlyPods(c: Cache) { forall k :: k in c ==> c[k].PodObject? }

  /** pkg/framework/strategy/strategy.go: mark the pod running and update the store. */
  method StrategyAdd(store: ResourceStore, pod: Pod) returns (err: bool)
    requires store.Valid()
    modifies store`caches, store.handlers.Values
    ensures store.Valid() && !err
    ensures var running := pod.(phase := "Running");
            store.caches == old(store.caches)[Pods := old(store.caches)[Pods][PodKey(running) := PodObject(running)]]
  {
    ghost var orders;
    err, orders := store.Update(Pods, PodObject(pod.(phase := "Running")));
  }

  /** Register the same client as the handler of every resource. */
  method WireAll(store: ResourceStore, client: RestClient)
    modifies store`handlers
    ensures store.handlers == old(store.handlers) + map rt | rt in STORED :: client
  {
    var todo := STORED;
    while todo != {}
      invariant todo <= STORED
      invariant store.handlers == old(store.handlers) + map rt | rt in STORED - todo :: client
      decreases |todo|
    {
      var rt :| rt in todo;
      store.RegisterEventHandler(rt, client);
      todo := todo - {rt};
    }
  }

  /** Add objects to an empty cache one by one. */
  method Seed(store: ResourceStore, rt: ResourceType, objs: seq<Object>)
    requires store.Valid() && rt in STORED && store.caches[rt] == map[]
    modifies store`caches, store.handlers.Values
    ensures store.Valid() && store.caches == old(store.caches)[rt := FromItems(objs)]
  {
    for i := 0 to |objs|
      invariant store.Valid() && store.caches == old(store.caches)[rt := FromItems(objs[..i])]
    {
      var err, orders := store.Add(rt, objs[i]);
      FromItemsAppend(objs[..i], objs[i]);
      assert objs[..i + 1] == objs[..i] + [objs[i]];
      Overwrite(old(store.caches), rt, FromItems(objs[..i]), FromItems(objs[..i + 1]));
    }
    assert objs[..|objs|] == objs;
  }

  lemma FromItemsAppend(items: seq<Object>, o: Object)
    ensures FromItems(items + [o]) == FromItems(items)[Key(o) := o]
  {
    assert (items + [o])[..|items|] == items;
  }

  lemma Overwrite(m: map<ResourceType, Cache>, rt: ResourceType, a: Cache, b: Cache)
    ensures m[rt := a][rt := b] == m[rt := b] && m[rt := a][rt] == a
  {
  }

  lemma OthersKept(m: map<ResourceType, Cache>, c: Cache)
    ensures m[Pods := c] - {Pods} == m - {Pods}
  {
  }

  /** The store after seeding: later objects win over earlier ones with the same key. */
  function Seeded(pods: seq<Pod>, nodes: seq<Object>): Cluster {
    Cluster(FromItems(PodObjects(pods)),
            map rt | rt in STORED - {Pods} :: if rt == Nodes then FromItems(nodes) else map[])
  }

  /** The caches hold the pods, the nodes and nothing else. */
  ghost predicate HoldsCluster(caches: map<ResourceType, Cache>, pods: seq<Pod>, nodes: seq<Object>) {
    && caches.Keys == {Pods, PersistentVolumes, Nodes, Services, PersistentVolumeClaims}
    && caches[Pods] == FromItems(PodObjects(pods)) && caches[Nodes] == FromItems(nodes)
    && caches[PersistentVolumes] == map[] && caches[Services] == map[] && caches[PersistentVolumeClaims] == map[]
  }

  lemma SeededCaches(m: map<ResourceType, Cache>, pods: seq<Pod>, nodes: seq<Object>)
    requires m.Keys == STORED && forall rt :: rt in m ==> m[rt] == map[]
    ensures var caches := m[Nodes := FromItems(nodes)][Pods := FromItems(PodObjects(pods))];
            HoldsCluster(caches, pods, nodes)
  {
  }

  /** The caches hold the cluster exactly when they are the seeded ones. */
  lemma HoldsIffSeeded(caches: map<ResourceType, Cache>, pods: seq<Pod>, nodes: seq<Object>)
    ensures HoldsCluster(caches, pods, nodes)
            <==> Pods in caches && Cluster(caches[Pods], caches - {Pods}) == Seeded(pods, nodes)
  {
    var others := Seeded(pods, nodes).others;
    if HoldsCluster(caches, pods, nodes) {
      assert caches - {Pods} == others;
    } else if Pods in caches && caches - {Pods} == others {
      assert caches.Keys == others.Keys + {Pods};
      assert forall rt :: rt in others ==> caches[rt] == others[rt];
    }
  }

  /** Pods with distinct keys are each seeded under their own key, and nothing else is. */
  lemma SeedsEachPod(pods: seq<Pod>)
    requires forall i, j :: 0 <= i < j < |pods| ==> PodKey(pods[i]) != PodKey(pods[j])
    ensures var c := FromItems(PodObjects(pods));
            && (forall i :: 0 <= i < |pods| ==> PodKey(pods[i]) in c && c[PodKey(pods[i])] == PodObject(pods[i]))
            && (forall k :: k in c ==> exists i :: 0 <= i < |pods| && PodKey(pods[i]) == k)
  {
    var c, objs := FromItems(PodObjects(pods)), PodObjects(pods);
    forall i | 0 <= i < |pods| ensures PodKey(pods[i]) in c && c[PodKey(pods[i])] == PodObject(pods[i]) {
      LastItemStays(objs, i);
    }
    FromItemsHolds(objs);
    forall k | k in c ensures exists i :: 0 <= i < |pods| && PodKey(pods[i]) == k {
      var i :| 0 <= i < |objs| && objs[i] == c[k];
      assert PodKey(pods[i]) == k;
    }
  }

  /** A store wired to the client and seeded with the cluster's nodes and pods. */
  method NewStore(client: RestClient, pods: seq<Pod>, nodes: seq<Object>) returns (store: ResourceStore)
    modifies client
    ensures fresh(store) && store.Valid() && OnlyPods(store.caches[Pods])
    ensures store.handlers == map rt | rt in STORED :: client
    ensures HoldsCluster(store.caches, pods, nodes)
  {
    store := new ResourceStore();
    WireAll(store, client);
    SeededCaches(store.caches, pods, nodes);
    Seed(store, Nodes, nodes);
    Seed(store, Pods, PodObjects(pods));
    SeededPods(pods);
  }

  lemma SeededPods(pods: seq<Pod>)
    ensures OnlyPods(FromItems(PodObjects(pods)))
  {
    FromItemsHolds(PodObjects(pods));
  }

  /** pkg/scheduler/simulator.go */
  class Driver {
    const store: ResourceStore
    const podQueue: PodQueue
    var successful: seq<Pod>
    var failed: seq<Pod>
    var scheduled: seq<Pod>
    var stopReason: string
    var closed: bool

    ghost predicate Valid()
      reads this, store
    {
      store.Valid() && OnlyPods(store.caches[Pods])
    }

    ghost function CoreOf(): Core
      reads this, store, podQueue
      requires Valid()
    {
      Core(store.caches[Pods], store.caches - {Pods}, podQueue.queue, successful, failed, stopReason, closed)
    }

    /** New, up to the scheduler: the handlers of every resource are wired to the client before any watcher exists, and
        the store is seeded with the nodes and the pods of the cluster. */
    constructor (client: RestClient, newPods: seq<Pod>, pods: seq<Pod>, nodes: seq<Object>)
      modifies client
      ensures Valid() && fresh(store) && fresh(podQueue)
      ensures store.handlers == map rt | rt in STORED :: client
      ensures HoldsCluster(store.caches, pods, nodes) && scheduled == pods && podQueue.queue == newPods
      ensures successful == [] && failed == [] && stopReason == "" && !closed
      ensures CoreOf() == Init(newPods, Seeded(pods, nodes)).core
    {
      var s := NewStore(client, pods, nodes);
      HoldsIffSeeded(s.caches, pods, nodes);
      store := s;
      podQueue := new PodQueue(newPods);
      successful, failed, scheduled, stopReason, closed := [], [], pods, "", false;
    }

    method NextPod() returns (ok: bool)
      requires Valid()
      modifies podQueue, store`caches, store.handlers.Values
      ensures Valid() && (CoreOf(), ok) == NextCore(old(CoreOf()))
    {
      var pod := podQueue.Pop();
      if pod.None? {
        return false;
      }
      OthersKept(store.caches, store.caches[Pods][PodKey(pod.value) := PodObject(pod.value)]);
      var err, orders := store.Add(Pods, PodObject(pod.value));
      return true;
    }

    /** The closing body runs only the first time. */
    method Close()
      modifies this`closed
      ensures closed
    {
      if closed {
        return;
      }
      closed := true;
    }

    /** The deferred function of a callback, up to its send on the stop channel. */
    method Finish(bind: bool) returns (stop: bool)
      requires Valid()
      modifies this, podQueue, store`caches, store.handlers.Values
      ensures Valid() && (CoreOf(), stop) == FinishCore(old(CoreOf()), bind)
      ensures scheduled == old(scheduled)
    {
      var ok := NextPod();
      if !ok {
        stopReason := Reason(bind);
        Close();
      }
      return !ok;
    }

    /** With no pod left the driver is closed with this stop reason and a stop token will be sent; otherwise the next
        pod of the stack is in the store. */
    ghost predicate NextGiven(cache: Cache, queue: seq<Pod>, reason: string, stop: bool)
      reads this, store, podQueue
      requires Valid()
    {
      if queue == [] then
        stop && closed && stopReason == reason && podQueue.queue == [] && store.caches[Pods] == cache
      else
        var n := |queue| - 1;
        && !stop && podQueue.queue == queue[..n]
        && store.caches[Pods] == cache[KeyOf(queue[n].namespace, queue[n].name) := PodObject(queue[n])]
    }

    method Bind(namespace: string, name: string, node: string) returns (err: bool, stop: bool)
      requires Valid()
      modifies this, podQueue, store`caches, store.handlers.Values
      ensures Valid() && scheduled == old(scheduled)
      ensures err <==> KeyOf(namespace, name) !in old(store.caches)[Pods]
      ensures err ==> CoreOf() == old(CoreOf()) && !stop
      ensures !err ==>
                (CoreOf(), stop) == BindCore(old(CoreOf()), old(store.caches)[Pods][KeyOf(namespace, name)].pod, node)
      ensures !err ==>
                var p := old(store.caches)[Pods][KeyOf(namespace, name)].pod.(nodeName := node, phase := "Running");
                && successful == old(successful) + [p] && failed == old(failed)
                && NextGiven(old(store.caches)[Pods][PodKey(p) := PodObject(p)], old(podQueue.queue),
                             "fail to get next pod: No pods left\n", stop)
    {
      var bad, found := store.GetByKey(Pods, KeyOf(namespace, name));
      if bad || found.None? {
        return true, false;
      }
      var updatedPod := found.value.pod.(nodeName := node, phase := "Running");
      OthersKept(store.caches, store.caches[Pods][PodKey(updatedPod) := PodObject(updatedPod)]);
      var failure := StrategyAdd(store, updatedPod);
      successful := successful + [updatedPod];
      stop := Finish(true);
      return false, stop;
    }

    /** Only the Unschedulable condition counts; any other update changes nothing. */
    method Update(pod: Pod, condition: Condition) returns (stop: bool)
      requires Valid()
      modifies this, podQueue, store`caches, store.handlers.Values
      ensures Valid() && scheduled == old(scheduled)
      ensures (CoreOf(), stop) == UpdateCore(old(CoreOf()), pod, condition)
      ensures successful == old(successful)
      ensures if condition.kind == "PodScheduled" && condition.status == "False" && condition.reason == "Unschedulable"
              then
                && failed == old(failed) + [pod.(phase := "Pending", conditions := pod.conditions + [condition],
                                                 reason := "Unschedulable")]
                && NextGiven(old(store.caches)[Pods], old(podQueue.queue), "Fail to get next pod: No pods left\n", stop)
              else CoreOf() == old(CoreOf()) && !stop
    {
      if !IsStop(condition) {
        return false;
      }
      failed := failed + [pod.(phase := "Pending", conditions := pod.conditions + [condition], reason := condition.reason)];
      stop := Finish(false);
    }
  }

  function PodObjects(pods: seq<Pod>): (r: seq<Object>)
    ensures |r| == |pods| && forall i :: 0 <= i < |pods| ==> r[i] == PodObject(pods[i])
  {
    seq(|pods|, i requires 0 <= i < |pods| => PodObject(pods[i]))
  }
}
