/** From the simulation spec to the report. */
module EndToEnd {
  import opened Sequences
  import opened Objects
  import opened Expansion
  import opened Report
  import opened Simulator
  import opened SimulatorRuns
  import opened SimulatorResults

  lemma CountSnoc(ps: seq<Pod>, p: Pod, q: Pod, name: string)
    requires Carries(p, name) == Carries(q, name)
    ensures CountNamed(ps + [p], name) == CountNamed(ps, name) + CountNamed([q], name)
  {
    CountConcat(ps, [p], name);
    assert [p][..0] == [] && [q][..0] == [];
  }

  /** Outcomes keep the simulation name of their pods. */
  lemma {:induction false} OutcomesKeepNames(os: seq<Outcome>, name: string)
    requires forall i :: 0 <= i < |os| ==> GoodOutcome(os[i])
    ensures CountNamed(Results(os, true), name) + CountNamed(Results(os, false), name) == CountNamed(Inputs(os), name)
  {
    if os != [] {
      var n := |os| - 1;
      var o := os[n];
      OutcomesKeepNames(os[..n], name);
      var results, others := Results(os[..n], o.ok), Results(os[..n], !o.ok);
      assert Results(os, o.ok) == results + [o.result] && Results(os, !o.ok) == others + [];
      assert others + [] == others;
      CountSnoc(results, o.result, o.input, name);
      CountSnoc(Inputs(os[..n]), o.input, o.input, name);
    }
  }

  /** The pods of the success and failed reviews of the report of a state. */
  function SuccessPods(isScalar: string -> bool, s: Sim): seq<Pod> { ReviewOf(isScalar, s.core.successful).pods }

  function FailedPods(isScalar: string -> bool, s: Sim): seq<Pod> { ReviewOf(isScalar, s.core.failed).pods }

  /** Spec to report: for every spec, every cluster and every behaviour of the scheduler, when a run has ended the success
      and failed pods of the report that carry a simulation name are as many as the entries of that name ask for, and
      each has its line in the report. */
  lemma SpecToReport(specs: seq<SimulationPod>, ids: nat -> string, namespace: string, pods: seq<Pod>, starts: seq<nat>,
                     seeded: Cluster, acts: seq<Action>, isScalar: string -> bool, name: string)
    requires Expands(specs, ids, namespace, pods, starts)
    requires Runs(Init(pods, seeded), acts) && Stuck(Exec(Init(pods, seeded), acts))
    ensures var s := Exec(Init(pods, seeded), acts);
            && CountNamed(SuccessPods(isScalar, s), name) + CountNamed(FailedPods(isScalar, s), name) == Asked(specs, name)
            && |ReviewOf(isScalar, s.core.successful).status.pods| + |ReviewOf(isScalar, s.core.failed).status.pods|
               == AskedInAll(specs)
  {
    var s := Exec(Init(pods, seeded), acts);
    EveryRunEnds(pods, seeded, acts);
    PodConservation(pods, seeded, acts);
    OutcomesKeepNames(s.outcomes, name);
    CountReverse(pods, name);
    ExpansionCounts(specs, ids, namespace, pods, starts, name);
  }

  /** One entry with num copies: that many pods of the report carry its name, and none carries another. */
  lemma OneEntryToReport(p: SimulationPod, ids: nat -> string, namespace: string, pods: seq<Pod>, starts: seq<nat>,
                         seeded: Cluster, acts: seq<Action>, isScalar: string -> bool, name: string)
    requires Expands([p], ids, namespace, pods, starts)
    requires Runs(Init(pods, seeded), acts) && Stuck(Exec(Init(pods, seeded), acts))
    ensures var s := Exec(Init(pods, seeded), acts);
            CountNamed(SuccessPods(isScalar, s), name) + CountNamed(FailedPods(isScalar, s), name)
            == if name != p.name || p.num < 0 then 0 else p.num
  {
    SpecToReport([p], ids, namespace, pods, starts, seeded, acts, isScalar, name);
    assert [p][..0] == [];
  }

  /** Every entry of the failed summary is the Unschedulable reason: the summary has at most that one key. */
  lemma FailedSummary(input: seq<Pod>, seeded: Cluster, acts: seq<Action>, isScalar: string -> bool)
    requires Runs(Init(input, seeded), acts)
    ensures var rs := ResultsOf(isScalar, Exec(Init(input, seeded), acts).core.failed);
            && (rs != [] ==> Summary(rs) == map["Unschedulable" := rs]) && (rs == [] ==> Summary(rs) == map[])
  {
    PodConservation(input, seeded, acts);
    var s := Exec(Init(input, seeded), acts);
    FailedReasons(s.outcomes);
    OneReason(ResultsOf(isScalar, s.core.failed), "Unschedulable");
  }

  lemma {:induction false} FailedReasons(os: seq<Outcome>)
    requires forall i :: 0 <= i < |os| ==> GoodOutcome(os[i])
    ensures forall j :: 0 <= j < |Results(os, false)| ==> Results(os, false)[j].reason == "Unschedulable"
  {
    if os != [] {
      FailedReasons(os[..|os| - 1]);
    }
  }

  /** The outcomes of one kind, in order. */
  function OfKind(os: seq<Outcome>, ok: bool): seq<Outcome> {
    if os == [] then []
    else if os[|os| - 1].ok == ok then OfKind(os[..|os| - 1], ok) + [os[|os| - 1]] else OfKind(os[..|os| - 1], ok)
  }

  lemma {:induction false} KindResults(os: seq<Outcome>, ok: bool)
    ensures |Results(os, ok)| == |OfKind(os, ok)|
    ensures forall i :: 0 <= i < |Results(os, ok)| ==> Results(os, ok)[i] == OfKind(os, ok)[i].result
  {
    if os != [] {
      KindResults(os[..|os| - 1], ok);
    }
  }

  /** Where they stand among all outcomes: exactly at those positions, each once. */
  lemma {:induction false} KindPositions(os: seq<Outcome>, ok: bool) returns (idx: seq<nat>)
    ensures Picks(OfKind(os, ok), os, idx)
    ensures forall j :: 0 <= j < |os| ==> (j in idx <==> os[j].ok == ok)
  {
    idx := [];
    if os != [] {
      var front, o := os[..|os| - 1], os[|os| - 1];
      idx := KindPositions(front, ok);
      assert os == front + [o];
      PicksSnoc(OfKind(front, ok), front, idx, o);
      if o.ok == ok {
        idx := idx + [|front|];
      }
    }
  }

  /** The line of the report for an outcome: uid, name and totals of its input pod; a bound pod's host is the node the
      scheduler named and its reason is unchanged, a failed one's host is that of the input and it is Unschedulable. */
  predicate Reports(isScalar: string -> bool, r: Result, o: Outcome) {
    && r.uid == o.input.uid && r.podName == o.input.name
    && r.host == (if o.ok then o.node else o.input.nodeName)
    && r.reason == (if o.ok then o.input.reason else "Unschedulable")
    && r.resources == Requested(isScalar, o.input.containers)
  }

  predicate Requires(isScalar: string -> bool, q: Requirement, o: Outcome) {
    && q.podName == o.input.name && q.nodeSelector == o.input.nodeSelector
    && q.resources == Requested(isScalar, o.input.containers)
  }

  /** The review reports exactly the outcomes at these positions, in order. */
  ghost predicate ReportsOutcomes(isScalar: string -> bool, v: Review, os: seq<Outcome>, idx: seq<nat>) {
    && |v.status.pods| == |v.requirements| == |idx| && Positions(idx, |os|)
    && (forall i :: 0 <= i < |idx| ==> Reports(isScalar, v.status.pods[i], os[idx[i]]))
    && (forall i :: 0 <= i < |idx| ==> Requires(isScalar, v.requirements[i], os[idx[i]]))
  }

  lemma ReviewLines(isScalar: string -> bool, os: seq<Outcome>, ok: bool) returns (idx: seq<nat>)
    requires forall i :: 0 <= i < |os| ==> GoodOutcome(os[i])
    ensures ReportsOutcomes(isScalar, ReviewOf(isScalar, Results(os, ok)), os, idx)
    ensures forall i :: 0 <= i < |os| ==> (i in idx <==> os[i].ok == ok)
  {
    idx := KindPositions(os, ok);
    KindResults(os, ok);
    forall i | 0 <= i < |idx| ensures GoodOutcome(os[idx[i]]) && Results(os, ok)[i] == os[idx[i]].result {
      assert OfKind(os, ok)[i] == os[idx[i]];
    }
  }

  /** The report in terms of outcomes: in every reachable state the success review has one line per bound outcome and
      the failed review one per failed outcome, in order, each with the fields of its outcome. */
  lemma ReportLines(input: seq<Pod>, seeded: Cluster, acts: seq<Action>, isScalar: string -> bool)
    returns (bound: seq<nat>, failed: seq<nat>)
    requires Runs(Init(input, seeded), acts)
    ensures var s := Exec(Init(input, seeded), acts);
            && ReportsOutcomes(isScalar, ReviewOf(isScalar, s.core.successful), s.outcomes, bound)
            && ReportsOutcomes(isScalar, ReviewOf(isScalar, s.core.failed), s.outcomes, failed)
            && forall i :: 0 <= i < |s.outcomes| ==>
                 (i in bound <==> s.outcomes[i].ok) && (i in failed <==> !s.outcomes[i].ok)
  {
    var s := Exec(Init(input, seeded), acts);
    PodConservation(input, seeded, acts);
    bound := ReviewLines(isScalar, s.outcomes, true);
    failed := ReviewLines(isScalar, s.outcomes, false);
  }

  lemma AppendSame(rs: seq<Result>, r: Result)
    ensures Append(map[], r) == map[r.reason := [r]]
    ensures Append(map[r.reason := rs], r) == map[r.reason := rs + [r]]
  {
    assert [] + [r] == [r];
  }

  lemma {:induction false} OneReason(rs: seq<Result>, k: string)
    requires forall i :: 0 <= i < |rs| ==> rs[i].reason == k
    ensures Summary(rs) == if rs == [] then map[] else map[k := rs]
  {
    if rs != [] {
      var front, r := rs[..|rs| - 1], rs[|rs| - 1];
      OneReason(front, k);
      assert rs == front + [r];
      AppendSame(front, r);
    }
  }

  /** Fresh identifiers give fresh keys, so the store theorem applies to expanded pods. */
  lemma ExpandedKeysAreFresh(specs: seq<SimulationPod>, ids: nat -> string, namespace: string, pods: seq<Pod>,
                             starts: seq<nat>, seeded: Cache)
    requires Expands(specs, ids, namespace, pods, starts)
    requires forall i: nat, j: nat :: i < j < |pods| ==> ids(i) != ids(j)
    requires forall i: nat :: i < |pods| ==> KeyOf(namespace, ids(i)) !in seeded
    ensures FreshKeys(pods, seeded)
  {
    forall i | 0 <= i < |pods| ensures PodKey(pods[i]) == KeyOf(namespace, ids(i)) {
      ExpandedName(specs, ids, namespace, pods, starts, i);
    }
    forall i, j | 0 <= i < j < |pods| ensures PodKey(pods[i]) != PodKey(pods[j]) {
      KeyOfInjective(namespace, ids(i), ids(j));
    }
  }

  lemma KeyOfInjective(namespace: string, a: string, b: string)
    ensures KeyOf(namespace, a) == KeyOf(namespace, b) ==> a == b
  {
    if namespace != "" {
      assert KeyOf(namespace, a)[|namespace| + 1..] == a && KeyOf(namespace, b)[|namespace| + 1..] == b;
    }
  }
}
