/** Sums and reversal of sequences, as the other modules need them. */
module Sequences {

  /** The numbers are positions in a sequence of length n, in order and each once. */
  predicate Positions(idx: seq<nat>, n: nat) {
    && (forall i :: 0 <= i < |idx| ==> idx[i] < n)
    && (forall i, j :: 0 <= i < j < |idx| ==> idx[i] < idx[j])
  }

  /** ys is xs at these positions. */
  ghost predicate Picks<A>(ys: seq<A>, xs: seq<A>, idx: seq<nat>) {
    Positions(idx, |xs|) && |idx| == |ys| && forall i :: 0 <= i < |ys| ==> ys[i] == xs[idx[i]]
  }

  lemma PicksSnoc<A>(ys: seq<A>, xs: seq<A>, idx: seq<nat>, x: A)
    requires Picks(ys, xs, idx)
    ensures Picks(ys, xs + [x], idx) && Picks(ys + [x], xs + [x], idx + [|xs|])
    ensures forall j :: j in idx + [|xs|] <==> j in idx || j == |xs|
  {
  }

  function Reverse<A>(xs: seq<A>): (r: seq<A>)
    ensures |r| == |xs|
  {
    if xs == [] then [] else [xs[|xs| - 1]] + Reverse(xs[..|xs| - 1])
  }

  lemma {:induction false} ReverseAt<A>(xs: seq<A>, i: nat)
    requires i < |xs|
    ensures Reverse(xs)[i] == xs[|xs| - 1 - i]
  {
    if i > 0 {
      ReverseAt(xs[..|xs| - 1], i - 1);
    }
  }

  predicate Distinct<A(==)>(xs: seq<A>) {
    forall i, j :: 0 <= i < j < |xs| ==> xs[i] != xs[j]
  }
}
