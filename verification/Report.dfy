/** pkg/framework/report.go: resource totals, the summary by reason, and the report. */
module Report {
  import opened Sequences
  import opened Objects

  const CPU := "cpu"
  const MEMORY := "memory"
  const NVIDIA_GPU := "alpha.kubernetes.io/nvidia-gpu"

  predicate IsPrimary(name: string) { name == CPU || name == MEMORY || name == NVIDIA_GPU }

  /** Quantity.Value: the amount in units of 10^-9, rounded up to whole units. */
  function WholeValue(amount: int): int { -((-amount) / 1_000_000_000) }

  /** The whole value is the least number of units that covers the amount. */
  lemma WholeValueRoundsUp(amount: int)
    ensures (WholeValue(amount) - 1) * 1_000_000_000 < amount <= WholeValue(amount) * 1_000_000_000
  {
  }

  datatype Resources = Resources(cpu: int, memory: int, gpu: int, scalars: map<string, int>)

  // ----- What the totals mean

  /** The sum of the requests for a name over the containers. */
  function Total(cs: seq<Container>, name: string): int {
    if cs == [] then 0
    else
      var r := cs[|cs| - 1].requests;
      Total(cs[..|cs| - 1], name) + if name in r then r[name] else 0
  }

  function TotalWhole(cs: seq<Container>, name: string): int {
    if cs == [] then 0
    else
      var r := cs[|cs| - 1].requests;
      TotalWhole(cs[..|cs| - 1], name) + if name in r then WholeValue(r[name]) else 0
  }

  function Names(cs: seq<Container>): set<string> {
    if cs == [] then {} else Names(cs[..|cs| - 1]) + cs[|cs| - 1].requests.Keys
  }

  predicate Counts(isScalar: string -> bool, name: string) { !IsPrimary(name) && isScalar(name) }

  /** The totals of a list of containers: primary resources and the scalar ones that are requested; no other name. */
  function Requested(isScalar: string -> bool, cs: seq<Container>): Resources {
    Resources(Total(cs, CPU), Total(cs, MEMORY), Total(cs, NVIDIA_GPU),
              map n | n in Names(cs) && Counts(isScalar, n) :: TotalWhole(cs, n))
  }

  function Get(m: map<string, int>, k: string): int { if k in m then m[k] else 0 }

  /** Totals add up under concatenation of container lists. */
  lemma {:induction false} TotalsConcat(a: seq<Container>, b: seq<Container>, name: string)
    ensures Total(a + b, name) == Total(a, name) + Total(b, name)
    ensures TotalWhole(a + b, name) == TotalWhole(a, name) + TotalWhole(b, name)
    ensures Names(a + b) == Names(a) + Names(b)
  {
    if b == [] {
      assert a + b == a;
    } else {
      var n := |b| - 1;
      assert (a + b)[..|a| + n] == a + b[..n];
      TotalsConcat(a, b[..n], name);
    }
  }

  lemma {:induction false} UnnamedIsZero(cs: seq<Container>, name: string)
    requires name !in Names(cs)
    ensures Total(cs, name) == 0 && TotalWhole(cs, name) == 0
  {
    if cs != [] {
      UnnamedIsZero(cs[..|cs| - 1], name);
    }
  }

  lemma RequestedAdds(isScalar: string -> bool, a: seq<Container>, b: seq<Container>)
    ensures var x, y, z := Requested(isScalar, a), Requested(isScalar, b), Requested(isScalar, a + b);
            && z.cpu == x.cpu + y.cpu && z.memory == x.memory + y.memory && z.gpu == x.gpu + y.gpu
            && z.scalars.Keys == x.scalars.Keys + y.scalars.Keys
            && forall n :: Get(z.scalars, n) == Get(x.scalars, n) + Get(y.scalars, n)
  {
    TotalsConcat(a, b, CPU);
    TotalsConcat(a, b, MEMORY);
    TotalsConcat(a, b, NVIDIA_GPU);
    var x, y, z := Requested(isScalar, a), Requested(isScalar, b), Requested(isScalar, a + b);
    forall n ensures Get(z.scalars, n) == Get(x.scalars, n) + Get(y.scalars, n) {
      TotalsConcat(a, b, n);
      if n !in Names(a) {
        UnnamedIsZero(a, n);
      }
      if n !in Names(b) {
        UnnamedIsZero(b, n);
      }
    }
  }

  /** The totals of one container are its own requests; with RequestedAdds this fixes the totals of any list. */
  lemma RequestedOfOne(isScalar: string -> bool, m: map<string, int>)
    ensures var r := Requested(isScalar, [Container(m)]);
            && r.cpu == Get(m, "cpu") && r.memory == Get(m, "memory")
            && r.gpu == Get(m, "alpha.kubernetes.io/nvidia-gpu")
            && (forall n :: n in r.scalars <==>
                  n in m && isScalar(n) && n != "cpu" && n != "memory" && n != "alpha.kubernetes.io/nvidia-gpu")
            && (forall n :: n in r.scalars ==> (r.scalars[n] - 1) * 1_000_000_000 < m[n] <= r.scalars[n] * 1_000_000_000)
    ensures Requested(isScalar, []) == Resources(0, 0, 0, map[])
  {
    var cs := [Container(m)];
    assert cs[..0] == [] && cs[|cs| - 1].requests == m;
    assert Total([], CPU) == 0 && Total([], MEMORY) == 0 && Total([], NVIDIA_GPU) == 0 && Names([]) == {};
    var r := Requested(isScalar, cs);
    forall n | n in r.scalars ensures r.scalars[n] == WholeValue(m[n]) {
      assert TotalWhole([], n) == 0;
    }
    forall n | n in r.scalars ensures (r.scalars[n] - 1) * 1_000_000_000 < m[n] <= r.scalars[n] * 1_000_000_000 {
      WholeValueRoundsUp(m[n]);
    }
    assert Requested(isScalar, []).scalars == map[];
  }

  // ----- getResourceRequest

  /** One request of a container added to the running totals. */
  function AddRequest(isScalar: string -> bool, r: Resources, name: string, q: int): Resources {
    if name == MEMORY then r.(memory := q + r.memory)
    else if name == CPU then r.(cpu := q + r.cpu)
    else if name == NVIDIA_GPU then r.(gpu := q + r.gpu)
    else if isScalar(name) then r.(scalars := r.scalars[name := Get(r.scalars, name) + WholeValue(q)])
    else r
  }

  /** The totals r plus the requests of m for the names in done. */
  ghost predicate Plus(isScalar: string -> bool, r: Resources, m: map<string, int>, done: set<string>, s: Resources) {
    && s.cpu == r.cpu + (if CPU in done then Get(m, CPU) else 0)
    && s.memory == r.memory + (if MEMORY in done then Get(m, MEMORY) else 0)
    && s.gpu == r.gpu + (if NVIDIA_GPU in done then Get(m, NVIDIA_GPU) else 0)
    && (forall n :: n in s.scalars <==> n in r.scalars || (n in done && Counts(isScalar, n)))
    && (forall n :: n in s.scalars ==>
          s.scalars[n] == Get(r.scalars, n) + if n in done && Counts(isScalar, n) then WholeValue(Get(m, n)) else 0)
  }

  lemma NamesDiffer()
    ensures CPU != MEMORY && CPU != NVIDIA_GPU && MEMORY != NVIDIA_GPU
  {
    assert CPU[0] == 'c' && MEMORY[0] == 'm' && NVIDIA_GPU[0] == 'a';
  }

  lemma PlusStep(isScalar: string -> bool, r: Resources, m: map<string, int>, done: set<string>, s: Resources, name: string)
    requires Plus(isScalar, r, m, done, s) && name in m && name !in done
    ensures Plus(isScalar, r, m, done + {name}, AddRequest(isScalar, s, name, m[name]))
  {
    NamesDiffer();
    if Counts(isScalar, name) {
      assert name in s.scalars <==> name in r.scalars;
    }
  }

  /** Add the requests of one container, in whatever order its map is visited. */
  method AddContainer(isScalar: string -> bool, r: Resources, m: map<string, int>) returns (s: Resources)
    ensures Plus(isScalar, r, m, m.Keys, s)
  {
    s := r;
    var todo := m.Keys;
    ghost var done: set<string> := {};
    while todo != {}
      invariant todo <= m.Keys && done == m.Keys - todo
      invariant Plus(isScalar, r, m, done, s)
      decreases |todo|
    {
      var name :| name in todo;
      PlusStep(isScalar, r, m, done, s, name);
      s := AddRequest(isScalar, s, name, m[name]);
      todo, done := todo - {name}, done + {name};
    }
  }

  lemma PlusIsNext(isScalar: string -> bool, cs: seq<Container>, i: nat, s: Resources)
    requires i < |cs| && Plus(isScalar, Requested(isScalar, cs[..i]), cs[i].requests, cs[i].requests.Keys, s)
    ensures s == Requested(isScalar, cs[..i + 1])
  {
    var t := Requested(isScalar, cs[..i + 1]);
    assert cs[..i + 1][..i] == cs[..i];
    assert s.scalars.Keys == t.scalars.Keys;
    forall n | n in s.scalars ensures s.scalars[n] == t.scalars[n] {
      if n !in Names(cs[..i]) {
        UnnamedIsZero(cs[..i], n);
      }
    }
    assert s.scalars == t.scalars;
  }

  /** The totals of a pod, whatever the order in which the request maps are visited. */
  method GetResourceRequest(isScalar: string -> bool, pod: Pod) returns (r: Resources)
    ensures r == Requested(isScalar, pod.containers)
  {
    r := Resources(0, 0, 0, map[]);
    for i := 0 to |pod.containers|
      invariant r == Requested(isScalar, pod.containers[..i])
    {
      r := AddContainer(isScalar, r, pod.containers[i].requests);
      PlusIsNext(isScalar, pod.containers, i, r);
    }
    assert pod.containers[..|pod.containers|] == pod.containers;
  }

  // ----- getReviewStatus

  datatype Result = Result(uid: string, host: string, podName: string, reason: string, resources: Resources)

  function ResultOf(isScalar: string -> bool, p: Pod): Result {
    Result(p.uid, p.nodeName, p.name, p.reason, Requested(isScalar, p.containers))
  }

  function ResultsOf(isScalar: string -> bool, pods: seq<Pod>): (rs: seq<Result>)
    ensures |rs| == |pods| && forall i :: 0 <= i < |pods| ==> rs[i] == ResultOf(isScalar, pods[i])
  {
    seq(|pods|, i requires 0 <= i < |pods| => ResultOf(isScalar, pods[i]))
  }

  /** The results with a given reason, in order. */
  function Bucket(rs: seq<Result>, reason: string): seq<Result> {
    if rs == [] then []
    else Bucket(rs[..|rs| - 1], reason) + if rs[|rs| - 1].reason == reason then [rs[|rs| - 1]] else []
  }

  /** The summary as the loop builds it. */
  function Summary(rs: seq<Result>): map<string, seq<Result>> {
    if rs == [] then map[] else Append(Summary(rs[..|rs| - 1]), rs[|rs| - 1])
  }

  function Append(m: map<string, seq<Result>>, r: Result): map<string, seq<Result>> {
    m[r.reason := (if r.reason in m then m[r.reason] else []) + [r]]
  }

  /** The summary is a stable partition: its keys are the reasons that occur, and each bucket holds the results with that
      reason, in order; no bucket is empty. */
  ghost predicate Partitions(summary: map<string, seq<Result>>, rs: seq<Result>) {
    && (forall k :: k in summary <==> exists i :: 0 <= i < |rs| && rs[i].reason == k)
    && (forall k :: k in summary ==> summary[k] == Bucket(rs, k) && summary[k] != [])
  }

  lemma {:induction false} BucketEmpty(rs: seq<Result>, k: string)
    requires forall i :: 0 <= i < |rs| ==> rs[i].reason != k
    ensures Bucket(rs, k) == []
  {
    if rs != [] {
      BucketEmpty(rs[..|rs| - 1], k);
    }
  }

  lemma BucketNext(rs: seq<Result>, r: Result, k: string)
    ensures Bucket(rs + [r], k) == Bucket(rs, k) + if r.reason == k then [r] else []
  {
    assert (rs + [r])[..|rs|] == rs;
  }

  lemma PartitionsNext(m: map<string, seq<Result>>, rs: seq<Result>, r: Result)
    requires Partitions(m, rs)
    ensures Partitions(Append(m, r), rs + [r])
  {
    var rs' := rs + [r];
    forall k ensures k in Append(m, r) <==> exists i :: 0 <= i < |rs'| && rs'[i].reason == k {
      if k in m {
        var i :| 0 <= i < |rs| && rs[i].reason == k;
        assert rs'[i].reason == k;
      }
      assert rs'[|rs|].reason == r.reason;
    }
    forall k | k in Append(m, r) ensures Append(m, r)[k] == Bucket(rs', k) && Append(m, r)[k] != [] {
      BucketNext(rs, r, k);
      if k !in m {
        BucketEmpty(rs, k);
      }
    }
  }

  lemma {:induction false} SummaryPartitions(rs: seq<Result>)
    ensures Partitions(Summary(rs), rs)
  {
    if rs != [] {
      var n := |rs| - 1;
      SummaryPartitions(rs[..n]);
      PartitionsNext(Summary(rs[..n]), rs[..n], rs[n]);
      assert rs[..n] + [rs[n]] == rs;
    }
  }

  /** Where the results of a bucket stand: exactly those with its reason, each once and in order. */
  lemma {:induction false} BucketPositions(rs: seq<Result>, reason: string) returns (idx: seq<nat>)
    ensures Picks(Bucket(rs, reason), rs, idx)
    ensures forall j :: 0 <= j < |rs| ==> (j in idx <==> rs[j].reason == reason)
  {
    idx := [];
    if rs != [] {
      var front, r := rs[..|rs| - 1], rs[|rs| - 1];
      idx := BucketPositions(front, reason);
      assert rs == front + [r];
      PicksSnoc(Bucket(front, reason), front, idx, r);
      BucketNext(front, r, reason);
      assert r.reason != reason ==> Bucket(front, reason) + [] == Bucket(front, reason);
      if r.reason == reason {
        idx := idx + [|front|];
      }
    }
  }

  lemma SummaryNext(rs: seq<Result>, r: Result)
    ensures Summary(rs + [r]) == Append(Summary(rs), r)
  {
    assert (rs + [r])[..|rs|] == rs;
  }

  lemma ResultsNext(isScalar: string -> bool, pods: seq<Pod>, i: nat)
    requires i < |pods|
    ensures ResultsOf(isScalar, pods[..i + 1]) == ResultsOf(isScalar, pods[..i]) + [ResultOf(isScalar, pods[i])]
  {
  }

  datatype Status = Status(pods: seq<Result>, summary: map<string, seq<Result>>)

  method GetReviewStatus(isScalar: string -> bool, pods: seq<Pod>) returns (s: Status)
    ensures s == Status(ResultsOf(isScalar, pods), Summary(ResultsOf(isScalar, pods)))
    ensures |s.pods| == |pods| && Partitions(s.summary, s.pods)
    ensures forall i :: 0 <= i < |pods| ==>
              && s.pods[i].uid == pods[i].uid && s.pods[i].host == pods[i].nodeName
              && s.pods[i].podName == pods[i].name && s.pods[i].reason == pods[i].reason
              && s.pods[i].resources == Requested(isScalar, pods[i].containers)
  {
    SummaryPartitions(ResultsOf(isScalar, pods));
    var summary: map<string, seq<Result>> := map[];
    var prrs: seq<Result> := [];
    for i := 0 to |pods|
      invariant prrs == ResultsOf(isScalar, pods[..i]) && summary == Summary(prrs)
    {
      var p := pods[i];
      var resources := GetResourceRequest(isScalar, p);
      var prr := Result(p.uid, p.nodeName, p.name, p.reason, resources);
      SummaryNext(prrs, prr);
      ResultsNext(isScalar, pods, i);
      if prr.reason !in summary {
        summary := summary[prr.reason := []];
      }
      summary := summary[prr.reason := summary[prr.reason] + [prr]];
      prrs := prrs + [prr];
    }
    assert pods[..|pods|] == pods;
    s := Status(prrs, summary);
  }

  // ----- Bucket sizes

  ghost function SizeSum(m: map<string, seq<Result>>): nat
    decreases |m|
  {
    if m == map[] then 0 else var k :| k in m; |m[k]| + SizeSum(m - {k})
  }

  lemma {:induction false} SizeSumRemove(m: map<string, seq<Result>>, k: string)
    requires k in m
    ensures SizeSum(m) == |m[k]| + SizeSum(m - {k})
    decreases |m|
  {
    var j :| j in m && SizeSum(m) == |m[j]| + SizeSum(m - {j});
    if j != k {
      SizeSumRemove(m - {j}, k);
      SizeSumRemove(m - {k}, j);
      assert m - {j} - {k} == m - {k} - {j};
    }
  }

  /** The bucket sizes add up to the number of results. */
  lemma {:induction false} SizesAddUp(rs: seq<Result>)
    ensures SizeSum(Summary(rs)) == |rs|
  {
    if rs != [] {
      var n := |rs| - 1;
      var m, r := Summary(rs[..n]), rs[n];
      SizesAddUp(rs[..n]);
      SizeSumRemove(Append(m, r), r.reason);
      assert Append(m, r) - {r.reason} == m - {r.reason};
      if r.reason in m {
        SizeSumRemove(m, r.reason);
      } else {
        assert m - {r.reason} == m;
      }
    }
  }

  // ----- GetReport

  datatype Requirement = Requirement(podName: string, resources: Resources, nodeSelector: map<string, string>)

  datatype Review = Review(pods: seq<Pod>, requirements: seq<Requirement>, status: Status)

  datatype GeneralReview = GeneralReview(review: map<string, Review>, failType: string, failMessage: string)

  function ReviewOf(isScalar: string -> bool, pods: seq<Pod>): Review {
    Review(pods,
           seq(|pods|, i requires 0 <= i < |pods| =>
             Requirement(pods[i].name, Requested(isScalar, pods[i].containers), pods[i].nodeSelector)),
           Status(ResultsOf(isScalar, pods), Summary(ResultsOf(isScalar, pods))))
  }

  method GetReview(isScalar: string -> bool, pods: seq<Pod>) returns (r: Review)
    ensures r == ReviewOf(isScalar, pods) && r.pods == pods && |r.requirements| == |pods|
    ensures forall i :: 0 <= i < |pods| ==>
              && r.requirements[i].podName == pods[i].name && r.requirements[i].nodeSelector == pods[i].nodeSelector
              && r.requirements[i].resources == Requested(isScalar, pods[i].containers)
  {
    var requirements: seq<Requirement> := [];
    for i := 0 to |pods|
      invariant requirements == ReviewOf(isScalar, pods).requirements[..i]
    {
      var resources := GetResourceRequest(isScalar, pods[i]);
      requirements := requirements + [Requirement(pods[i].name, resources, pods[i].nodeSelector)];
    }
    var status := GetReviewStatus(isScalar, pods);
    r := Review(pods, requirements, status);
  }

  method GetReport(isScalar: string -> bool, failed: seq<Pod>, successful: seq<Pod>, scheduled: seq<Pod>, stopReason: string)
    returns (r: GeneralReview)
    ensures r.review == map["failed" := ReviewOf(isScalar, failed), "success" := ReviewOf(isScalar, successful),
                            "scheduled" := ReviewOf(isScalar, scheduled)]
    ensures r.failType == "Stopped" && r.failMessage == stopReason
  {
    var rm: map<string, Review> := map[];
    var review := GetReview(isScalar, failed);
    rm := rm["failed" := review];
    review := GetReview(isScalar, successful);
    rm := rm["success" := review];
    review := GetReview(isScalar, scheduled);
    rm := rm["scheduled" := review];
    r := GeneralReview(rm, "Stopped", stopReason);
  }
}
