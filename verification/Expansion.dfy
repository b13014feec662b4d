/** cmd/app/options/options.go: the expansion of a simulation spec into pods. */
module Expansion {
  import opened Sequences
  import opened Objects

  /** One entry of the spec file. */
  datatype SimulationPod = SimulationPod(name: string, pod: Pod, num: int)

  /** The pods are one block of copies per entry, in order.  Block e holds num copies of the entry's pod, or none for a
      negative num; a copy differs from the entry's pod in uid, name, labels and namespace only, and the i-th copy of
      all gets the i-th identifier. */
  ghost predicate Expands(specs: seq<SimulationPod>, ids: nat -> string, namespace: string, pods: seq<Pod>, starts: seq<nat>) {
    && |starts| == |specs| + 1 && starts[0] == 0 && starts[|specs|] == |pods|
    && (forall e :: 0 <= e < |specs| ==>
          starts[e + 1] == starts[e] + if specs[e].num < 0 then 0 else specs[e].num)
    && (forall e, i: nat :: 0 <= e < |specs| && starts[e] <= i < starts[e + 1] && i < |pods| ==>
          pods[i] == specs[e].pod.(uid := ids(i), name := ids(i), labels := map["SimulationName" := specs[e].name],
                                   namespace := namespace))
  }

  lemma {:induction false} StartsGrow(specs: seq<SimulationPod>, starts: seq<nat>, e: nat)
    requires |starts| == |specs| + 1 && e <= |specs|
    requires forall k :: 0 <= k < |specs| ==> starts[k + 1] == starts[k] + if specs[k].num < 0 then 0 else specs[k].num
    ensures forall k :: 0 <= k <= e ==> starts[k] <= starts[e]
  {
    if e > 0 {
      StartsGrow(specs, starts, e - 1);
    }
  }

  /** The instances of one entry, the first with identifier number `from`. */
  method ExpandOne(p: SimulationPod, ids: nat -> string, from: nat, namespace: string) returns (pods: seq<Pod>)
    ensures |pods| == if p.num < 0 then 0 else p.num
    ensures forall j :: 0 <= j < |pods| ==>
              pods[j] == p.pod.(uid := ids(from + j), name := ids(from + j), labels := map["SimulationName" := p.name],
                                namespace := namespace)
  {
    pods := [];
    var i := 0;
    while i < p.num
      invariant 0 <= i <= (if p.num < 0 then 0 else p.num) && |pods| == i
      invariant forall j :: 0 <= j < i ==>
                  pods[j] == p.pod.(uid := ids(from + j), name := ids(from + j),
                                    labels := map["SimulationName" := p.name], namespace := namespace)
    {
      var pod := p.pod.(uid := ids(from + i));
      pod := pod.(name := pod.uid);
      pod := pod.(labels := map["SimulationName" := p.name]);
      pod := pod.(namespace := namespace);
      pods := pods + [pod];
      i := i + 1;
    }
  }

  lemma ExpandsNext(specs: seq<SimulationPod>, ids: nat -> string, namespace: string, pods: seq<Pod>, starts: seq<nat>,
                    p: SimulationPod, more: seq<Pod>)
    requires Expands(specs, ids, namespace, pods, starts)
    requires |more| == if p.num < 0 then 0 else p.num
    requires forall j :: 0 <= j < |more| ==>
               more[j] == p.pod.(uid := ids(|pods| + j), name := ids(|pods| + j),
                                 labels := map["SimulationName" := p.name], namespace := namespace)
    ensures Expands(specs + [p], ids, namespace, pods + more, starts + [|pods + more|])
  {
    StartsGrow(specs, starts, |specs|);
    var pods', starts' := pods + more, starts + [|pods + more|];
    forall e, i: nat | 0 <= e <= |specs| && starts'[e] <= i < starts'[e + 1] && i < |pods'|
      ensures var s := (specs + [p])[e];
              pods'[i] == s.pod.(uid := ids(i), name := ids(i), labels := map["SimulationName" := s.name],
                                 namespace := namespace)
    {
      if e < |specs| {
        assert starts[e + 1] <= starts[|specs|];
        assert pods'[i] == pods[i];
      } else {
        assert pods'[i] == more[i - |pods|];
      }
    }
  }

  /** ParseSimulationPod after decoding; ids are the identifiers that the uuid generator hands out. */
  method Expand(specs: seq<SimulationPod>, ids: nat -> string, namespace: string)
    returns (pods: seq<Pod>, ghost starts: seq<nat>)
    ensures Expands(specs, ids, namespace, pods, starts)
    ensures |pods| == AskedInAll(specs) && forall name :: CountNamed(pods, name) == Asked(specs, name)
    ensures forall i :: 0 <= i < |pods| ==>
              pods[i].uid == ids(i) && pods[i].name == ids(i) && pods[i].namespace == namespace
  {
    pods, starts := [], [0];
    for k := 0 to |specs|
      invariant Expands(specs[..k], ids, namespace, pods, starts)
    {
      var more := ExpandOne(specs[k], ids, |pods|, namespace);
      ExpandsNext(specs[..k], ids, namespace, pods, starts, specs[k], more);
      assert specs[..k + 1] == specs[..k] + [specs[k]];
      pods, starts := pods + more, starts + [|pods + more|];
    }
    assert specs[..|specs|] == specs;
    ExpansionCounts(specs, ids, namespace, pods, starts, "");
    forall name ensures CountNamed(pods, name) == Asked(specs, name) {
      ExpansionCounts(specs, ids, namespace, pods, starts, name);
    }
    forall i | 0 <= i < |pods|
      ensures pods[i].uid == ids(i) && pods[i].name == ids(i) && pods[i].namespace == namespace
    {
      ExpandedName(specs, ids, namespace, pods, starts, i);
    }
  }

  // ----- Counting by simulation name

  predicate Carries(p: Pod, name: string) { "SimulationName" in p.labels && p.labels["SimulationName"] == name }

  function CountNamed(pods: seq<Pod>, name: string): nat {
    if pods == [] then 0 else CountNamed(pods[..|pods| - 1], name) + if Carries(pods[|pods| - 1], name) then 1 else 0
  }

  /** The pods that the entries of a name ask for: the sum of max(0, num) over them. */
  function Asked(specs: seq<SimulationPod>, name: string): nat {
    if specs == [] then 0
    else
      var p := specs[|specs| - 1];
      Asked(specs[..|specs| - 1], name) + if p.name == name && p.num > 0 then p.num else 0
  }

  /** The pods that all entries ask for. */
  function AskedInAll(specs: seq<SimulationPod>): nat {
    if specs == [] then 0
    else AskedInAll(specs[..|specs| - 1]) + if specs[|specs| - 1].num > 0 then specs[|specs| - 1].num else 0
  }

  lemma {:induction false} CountConcat(a: seq<Pod>, b: seq<Pod>, name: string)
    ensures CountNamed(a + b, name) == CountNamed(a, name) + CountNamed(b, name)
  {
    if b == [] {
      assert a + b == a;
    } else {
      var n := |b| - 1;
      assert (a + b)[..|a| + n] == a + b[..n];
      CountConcat(a, b[..n], name);
    }
  }

  lemma {:induction false} CountUniform(pods: seq<Pod>, name: string, all: bool)
    requires forall i :: 0 <= i < |pods| ==> Carries(pods[i], name) == all
    ensures CountNamed(pods, name) == if all then |pods| else 0
  {
    if pods != [] {
      CountUniform(pods[..|pods| - 1], name, all);
    }
  }

  lemma {:induction false} CountReverse(pods: seq<Pod>, name: string)
    ensures CountNamed(Reverse(pods), name) == CountNamed(pods, name)
  {
    if pods != [] {
      var n := |pods| - 1;
      CountReverse(pods[..n], name);
      CountConcat([pods[n]], Reverse(pods[..n]), name);
      assert [pods[n]][..0] == [];
    }
  }

  lemma ExpandsFront(specs: seq<SimulationPod>, ids: nat -> string, namespace: string, pods: seq<Pod>, starts: seq<nat>)
    requires specs != [] && Expands(specs, ids, namespace, pods, starts)
    ensures var n := |specs| - 1;
            starts[n] <= |pods| && Expands(specs[..n], ids, namespace, pods[..starts[n]], starts[..n + 1])
  {
    var n := |specs| - 1;
    assert starts[n + 1] == starts[n] + if specs[n].num < 0 then 0 else specs[n].num;
  }

  /** The expansion holds, for every simulation name, as many pods as the entries of that name ask for, and in all as
      many as all entries ask for. */
  lemma {:induction false} ExpansionCounts(specs: seq<SimulationPod>, ids: nat -> string, namespace: string, pods: seq<Pod>,
                                           starts: seq<nat>, name: string)
    requires Expands(specs, ids, namespace, pods, starts)
    ensures CountNamed(pods, name) == Asked(specs, name) && |pods| == AskedInAll(specs)
  {
    if specs != [] {
      var n := |specs| - 1;
      var p, m := specs[n], starts[n];
      ExpandsFront(specs, ids, namespace, pods, starts);
      ExpansionCounts(specs[..n], ids, namespace, pods[..m], starts[..n + 1], name);
      assert starts[n + 1] == m + if p.num < 0 then 0 else p.num;
      CountUniform(pods[m..], name, p.name == name);
      CountConcat(pods[..m], pods[m..], name);
      assert pods == pods[..m] + pods[m..];
    }
  }

  lemma {:induction false} ExpandedName(specs: seq<SimulationPod>, ids: nat -> string, namespace: string, pods: seq<Pod>,
                                        starts: seq<nat>, i: nat)
    requires Expands(specs, ids, namespace, pods, starts) && i < |pods|
    ensures pods[i].uid == ids(i) && pods[i].name == ids(i) && pods[i].namespace == namespace
  {
    var n := |specs| - 1;
    ExpandsFront(specs, ids, namespace, pods, starts);
    if i < starts[n] {
      ExpandedName(specs[..n], ids, namespace, pods[..starts[n]], starts[..n + 1], i);
    } else {
      assert starts[n] <= i < starts[n + 1];
    }
  }
}
