/** The stream of events that one watcher is sent from its creation on, and what its prefixes stand for. */
module WatcherStream {
  import opened Objects
  import opened Views
  import opened ViewRuns

  /** The cache after some operations. */
  function StoreAfter(start: Cache, ops: seq<Op>): Cache {
    if ops == [] then start else ApplyOp(StoreAfter(start, ops[..|ops| - 1]), ops[|ops| - 1])
  }

  /** The events sent to the watcher: the listing at its creation, then the events of each operation that match. */
  function Sent(m: Match, sel: string, listing: seq<Object>, ops: seq<Op>): seq<Event> {
    if ops == [] then AddedEvents(listing)
    else Sent(m, sel, listing, ops[..|ops| - 1]) + Matching(m, sel, EventsOf(ops[|ops| - 1]))
  }

  predicate NoReplace(ops: seq<Op>) { forall i :: 0 <= i < |ops| ==> !ops[i].Replace? }

  lemma StoreAfterSnoc(start: Cache, ops: seq<Op>, op: Op)
    ensures StoreAfter(start, ops + [op]) == ApplyOp(StoreAfter(start, ops), op)
  {
    assert (ops + [op])[..|ops|] == ops;
  }

  lemma SentSnoc(m: Match, sel: string, listing: seq<Object>, ops: seq<Op>, op: Op)
    ensures Sent(m, sel, listing, ops + [op]) == Sent(m, sel, listing, ops) + Matching(m, sel, EventsOf(op))
  {
    assert (ops + [op])[..|ops|] == ops;
  }

  /** After any operations the events sent replay to a view that agrees with the store on what matches. */
  lemma {:induction false} SentAgrees(m: Match, sel: string, start: Cache, listing: seq<Object>, ops: seq<Op>)
    requires KeyInv(start) && Lists(m, start, sel, listing)
    ensures KeyInv(StoreAfter(start, ops))
    ensures Agrees(m, StoreAfter(start, ops), sel, Replay(Sent(m, sel, listing, ops)))
  {
    if ops == [] {
      ListingShows(m, start, sel, listing);
    } else {
      var front, op := ops[..|ops| - 1], ops[|ops| - 1];
      SentAgrees(m, sel, start, listing, front);
      KeyInvStep(StoreAfter(start, front), op);
      AgreesStep(m, StoreAfter(start, front), sel, Sent(m, sel, listing, front), op);
    }
  }

  /** Without Replace, and when matching depends only on the key, the view is exactly what matches. */
  lemma {:induction false} SentExact(m: Match, sel: string, start: Cache, listing: seq<Object>, ops: seq<Op>)
    requires KeyInv(start) && Lists(m, start, sel, listing) && MatchesByKey(m, sel) && NoReplace(ops)
    ensures Replay(Sent(m, sel, listing, ops)) == Shown(m, StoreAfter(start, ops), sel)
  {
    if ops == [] {
      ListingShows(m, start, sel, listing);
    } else {
      var front, op := ops[..|ops| - 1], ops[|ops| - 1];
      SentExact(m, sel, start, listing, front);
      SentAgrees(m, sel, start, listing, front);
      ExactIff(m, StoreAfter(start, front), sel, Sent(m, sel, listing, front), op);
    }
  }

  lemma {:induction false} SentPrefix(m: Match, sel: string, listing: seq<Object>, ops: seq<Op>, j: nat)
    requires j <= |ops|
    ensures Sent(m, sel, listing, ops[..j]) <= Sent(m, sel, listing, ops)
  {
    if j == |ops| {
      assert ops[..j] == ops;
    } else {
      var front := ops[..|ops| - 1];
      SentPrefix(m, sel, listing, front, j);
      assert front[..j] == ops[..j];
    }
  }

  lemma MatchingSize(m: Match, sel: string, e: Event)
    ensures |Matching(m, sel, [e])| == if m(sel, e.obj) then 1 else 0
  {
    assert [e][..0] == [] && Matching(m, sel, []) == [];
  }

  lemma SentOneMore(m: Match, sel: string, listing: seq<Object>, ops: seq<Op>)
    requires ops != [] && NoReplace(ops)
    ensures var op, before := ops[|ops| - 1], |Sent(m, sel, listing, ops[..|ops| - 1])|;
            |Sent(m, sel, listing, ops)| == before + if m(sel, op.obj) then 1 else 0
  {
    var op := ops[|ops| - 1];
    assert EventsOf(op) == [EventsOf(op)[0]];
    MatchingSize(m, sel, EventsOf(op)[0]);
  }

  /** Without Replace every number of events, from the listing on, is what some operations sent. */
  lemma {:induction false} SentReaches(m: Match, sel: string, listing: seq<Object>, ops: seq<Op>, k: nat) returns (j: nat)
    requires NoReplace(ops) && |listing| <= k <= |Sent(m, sel, listing, ops)|
    ensures j <= |ops| && |Sent(m, sel, listing, ops[..j])| == k
  {
    if k == |Sent(m, sel, listing, ops)| {
      assert ops[..|ops|] == ops;
      j := |ops|;
    } else {
      var front := ops[..|ops| - 1];
      SentOneMore(m, sel, listing, ops);
      j := SentReaches(m, sel, listing, front, k);
      assert front[..j] == ops[..j];
    }
  }

  /** A watcher of everything is sent one event per operation. */
  lemma {:induction false} EverythingSent(sel: string, listing: seq<Object>, ops: seq<Op>)
    requires NoReplace(ops)
    ensures |Sent(EVERYTHING, sel, listing, ops)| == |listing| + |ops|
  {
    if ops != [] {
      EverythingSent(sel, listing, ops[..|ops| - 1]);
      SentOneMore(EVERYTHING, sel, listing, ops);
    }
  }
}
