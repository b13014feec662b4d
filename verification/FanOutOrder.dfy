/** EmitObjectWatchEvent ranges over a Go map: what does and what does not depend on the order. */
module FanOutOrder {
  import opened Sequences
  import opened Views

  /** A sequence of emissions, each visiting the selectors in its own order. */
  function EmitMany(m: Match, rg: Watchers, es: seq<Event>, orders: seq<seq<string>>): Watchers
    requires |orders| == |es|
    decreases |es|
  {
    if es == [] then rg
    else
      var n := |es| - 1;
      EmitOrder(m, EmitMany(m, rg, es[..n], orders[..n]), orders[n], es[n]).0
  }

  lemma FanOutKeepsOpen(m: Match, rg: Watchers, e: Event)
    requires AllOpen(rg)
    ensures AllOpen(FanOut(m, rg, e)) && FanOut(m, rg, e).Keys == rg.Keys
  {
  }

  lemma {:induction false} EmitManyIsFanOut(m: Match, rg: Watchers, es: seq<Event>, orders: seq<seq<string>>)
    requires |orders| == |es| && AllOpen(rg) && forall i :: 0 <= i < |orders| ==> Visits(orders[i], rg)
    ensures EmitMany(m, rg, es, orders) == FanOutMany(m, rg, es)
    ensures AllOpen(FanOutMany(m, rg, es)) && FanOutMany(m, rg, es).Keys == rg.Keys
    decreases |es|
  {
    if es != [] {
      var n := |es| - 1;
      EmitManyIsFanOut(m, rg, es[..n], orders[..n]);
      var now := FanOutMany(m, rg, es[..n]);
      assert Visits(orders[n], now);
      FanOutAnyOrder(m, now, orders[n], es[n]);
      FanOutKeepsOpen(m, now, es[n]);
    }
  }

  /** Emitting the events to `before`, each in its own order over the selectors, leaves `after`. */
  ghost predicate Emits(m: Match, before: Watchers, es: seq<Event>, orders: seq<seq<string>>, after: Watchers) {
    && |orders| == |es| && (forall i :: 0 <= i < |orders| ==> Visits(orders[i], before))
    && after == EmitMany(m, before, es, orders)
  }

  lemma {:induction false} EmitOrderKeys(m: Match, rg: Watchers, order: seq<string>, e: Event)
    ensures EmitOrder(m, rg, order, e).0.Keys == rg.Keys
    decreases |order|
  {
    if order != [] {
      if order[0] !in rg || !m(order[0], e.obj) {
        EmitOrderKeys(m, rg, order[1..], e);
      } else if EmitList(rg[order[0]], e).1 {
        EmitOrderKeys(m, rg[order[0] := EmitList(rg[order[0]], e).0], order[1..], e);
      }
    }
  }

  lemma {:induction false} EmitManyKeys(m: Match, rg: Watchers, es: seq<Event>, orders: seq<seq<string>>)
    requires |orders| == |es|
    ensures EmitMany(m, rg, es, orders).Keys == rg.Keys
    decreases |es|
  {
    if es != [] {
      var n := |es| - 1;
      EmitManyKeys(m, rg, es[..n], orders[..n]);
      EmitOrderKeys(m, EmitMany(m, rg, es[..n], orders[..n]), orders[n], es[n]);
    }
  }

  lemma EmitsNothing(m: Match, rg: Watchers)
    ensures Emits(m, rg, [], [], rg)
  {
  }

  /** One more emission, in any order over the selectors as they are now. */
  lemma EmitsNext(m: Match, before: Watchers, es: seq<Event>, orders: seq<seq<string>>, now: Watchers,
                  order: seq<string>, e: Event)
    requires Emits(m, before, es, orders, now) && Visits(order, now)
    ensures Emits(m, before, es + [e], orders + [order], EmitOrder(m, now, order, e).0)
  {
    EmitManyKeys(m, before, es, orders);
    assert (es + [e])[..|es|] == es && (orders + [order])[..|es|] == orders;
  }

  /** With no closed watcher the orders do not matter. */
  lemma EmitsOpen(m: Match, before: Watchers, es: seq<Event>, orders: seq<seq<string>>, after: Watchers)
    requires Emits(m, before, es, orders, after) && AllOpen(before)
    ensures after == FanOutMany(m, before, es) && AllOpen(after)
  {
    EmitManyIsFanOut(m, before, es, orders);
  }

  /** With no closed watcher, for any visiting orders and over any sequence of emissions, each watcher is sent the
      emissions that match its selector, each once and in order. */
  lemma StreamsAreFiltered(m: Match, rg: Watchers, es: seq<Event>, orders: seq<seq<string>>, sel: string, i: nat)
    requires |orders| == |es| && AllOpen(rg) && forall j :: 0 <= j < |orders| ==> Visits(orders[j], rg)
    requires sel in rg && i < |rg[sel]|
    ensures var r := EmitMany(m, rg, es, orders);
            sel in r && i < |r[sel]| && r[sel][i].sent == rg[sel][i].sent + Matching(m, sel, es)
  {
    EmitManyIsFanOut(m, rg, es, orders);
    FanOutManyStream(m, rg, es, sel, i);
  }

  // ----- With closed watchers

  /** Every open watcher whose selector matches got the event. */
  ghost predicate AllServed(m: Match, rg: Watchers, after: Watchers, e: Event) {
    forall s, i :: s in rg && m(s, e.obj) && 0 <= i < |rg[s]| && !rg[s][i].closed ==>
                     s in after && i < |after[s]| && after[s][i].sent == rg[s][i].sent + [e]
  }

  /** Every closed watcher that matches stands, in its own list, behind all the open ones that match. */
  predicate ClosedComeLast(m: Match, rg: Watchers, e: Event) {
    forall s, i, t, j ::
      (s in rg && t in rg && m(s, e.obj) && m(t, e.obj) && 0 <= i < |rg[s]| && 0 <= j < |rg[t]|
       && rg[s][i].closed && !rg[t][j].closed) ==> (s == t && j < i)
  }

  function FirstClosed(ws: seq<Watcher>): (f: nat)
    ensures f <= |ws| && (forall i :: 0 <= i < f ==> !ws[i].closed) && (f < |ws| ==> ws[f].closed)
  {
    if ws == [] || ws[0].closed then 0 else 1 + FirstClosed(ws[1..])
  }

  /** The first f watchers served, the others left alone. */
  function ServeFirst(ws: seq<Watcher>, f: nat, e: Event): (r: seq<Watcher>)
    requires f <= |ws|
    ensures |r| == |ws|
    ensures forall j :: 0 <= j < |ws| ==> r[j] == if j < f then ws[j].(sent := ws[j].sent + [e]) else ws[j]
  {
    SendAll(ws[..f], e) + ws[f..]
  }

  lemma ServeFirstHead(ws: seq<Watcher>, f: nat, e: Event)
    requires 0 < f <= |ws|
    ensures ServeFirst(ws, f, e) == [ws[0].(sent := ws[0].sent + [e])] + ServeFirst(ws[1..], f - 1, e)
  {
  }

  /** Within one list exactly the watchers before the first closed one are served. */
  lemma {:induction false} EmitListPrefix(ws: seq<Watcher>, e: Event)
    ensures EmitList(ws, e) == (ServeFirst(ws, FirstClosed(ws), e), FirstClosed(ws) == |ws|)
  {
    var f := FirstClosed(ws);
    if f == 0 {
      assert ServeFirst(ws, 0, e) == ws;
    } else {
      EmitListPrefix(ws[1..], e);
      ServeFirstHead(ws, f, e);
    }
  }

  lemma {:induction false} EmitOrderConcat(m: Match, rg: Watchers, a: seq<string>, b: seq<string>, e: Event)
    requires EmitOrder(m, rg, a, e).1
    ensures EmitOrder(m, rg, a + b, e) == EmitOrder(m, EmitOrder(m, rg, a, e).0, b, e)
    decreases |a|
  {
    if a == [] {
      assert a + b == b;
    } else {
      assert (a + b)[0] == a[0] && (a + b)[1..] == a[1..] + b;
      if a[0] !in rg || !m(a[0], e.obj) {
        EmitOrderConcat(m, rg, a[1..], b, e);
      } else {
        EmitOrderConcat(m, rg[a[0] := EmitList(rg[a[0]], e).0], a[1..], b, e);
      }
    }
  }

  /** A selector that matches and has a closed watcher ends the emission. */
  lemma EmitBad(m: Match, rg: Watchers, bad: string, rest: seq<string>, e: Event)
    requires bad in rg && !Clear(m, rg, bad, e)
    ensures EmitOrder(m, rg, [bad] + rest, e).0 == rg[bad := EmitList(rg[bad], e).0]
  {
    EmitListPrefix(rg[bad], e);
    assert ([bad] + rest)[0] == bad;
  }

  lemma DistinctParts(before: seq<string>, bad: string, rest: seq<string>)
    requires Distinct(before + [bad] + rest)
    ensures Distinct(before) && bad !in before && before + [bad] + rest == before + ([bad] + rest)
  {
    assert (before + [bad] + rest)[|before|] == bad;
    assert forall i :: 0 <= i < |before| ==> (before + [bad] + rest)[i] == before[i];
  }

  /** The emission ends at the first selector that matches and has a closed watcher. */
  lemma EmitStopsAt(m: Match, rg: Watchers, before: seq<string>, bad: string, rest: seq<string>, e: Event)
    requires Distinct(before + [bad] + rest)
    requires (forall s :: s in before ==> Clear(m, rg, s, e)) && bad in rg && !Clear(m, rg, bad, e)
    ensures EmitOrder(m, rg, before + [bad] + rest, e).0
            == FanOutTo(m, rg, before, e)[bad := EmitList(rg[bad], e).0]
  {
    var now := FanOutTo(m, rg, before, e);
    assert FanOutTo(m, rg, [], e) == rg && [] + before == before;
    DistinctParts(before, bad, rest);
    EmitOrderFrom(m, rg, [], before, e);
    EmitOrderConcat(m, rg, before, [bad] + rest, e);
    assert now[bad] == rg[bad] && !Clear(m, now, bad, e);
    EmitBad(m, now, bad, rest, e);
  }

  /** The selectors of a map in some order that starts with a given one. */
  lemma OrderFrom(rg: Watchers, s: string) returns (rest: seq<string>)
    requires s in rg
    ensures Visits([s] + rest, rg)
  {
    var todo := rg.Keys - {s};
    rest := [];
    while todo != {}
      invariant s !in todo && todo <= rg.Keys && Distinct([s] + rest)
      invariant forall t :: t in [s] + rest <==> t in rg && t !in todo
      decreases |todo|
    {
      var t :| t in todo;
      assert t !in [s] + rest;
      assert [s] + (rest + [t]) == [s] + rest + [t];
      rest, todo := rest + [t], todo - {t};
    }
  }

  lemma NotServed(m: Match, rg: Watchers, e: Event) returns (order: seq<string>)
    requires !ClosedComeLast(m, rg, e)
    ensures Visits(order, rg) && !AllServed(m, rg, EmitOrder(m, rg, order, e).0, e)
  {
    var s, i, t, j :| s in rg && t in rg && m(s, e.obj) && m(t, e.obj) && 0 <= i < |rg[s]| && 0 <= j < |rg[t]|
                      && rg[s][i].closed && !rg[t][j].closed && !(s == t && j < i);
    var rest := OrderFrom(rg, s);
    order := [s] + rest;
    EmitBad(m, rg, s, rest, e);
    EmitListPrefix(rg[s], e);
    var f := FirstClosed(rg[s]);
    assert f <= i;
    var after := EmitOrder(m, rg, order, e).0;
    assert after[t][j] == rg[t][j];
    assert rg[t][j].sent != rg[t][j].sent + [e];
  }

  lemma {:induction false} SplitAtBad(m: Match, rg: Watchers, order: seq<string>, e: Event)
    returns (before: seq<string>, bad: string, rest: seq<string>)
    requires exists s :: s in order && !Clear(m, rg, s, e)
    ensures order == before + [bad] + rest && !Clear(m, rg, bad, e) && forall s :: s in before ==> Clear(m, rg, s, e)
  {
    if !Clear(m, rg, order[0], e) {
      before, bad, rest := [], order[0], order[1..];
    } else {
      before, bad, rest := SplitAtBad(m, rg, order[1..], e);
      before := [order[0]] + before;
    }
  }

  lemma ServedUntilBad(m: Match, rg: Watchers, e: Event, before: seq<string>, bad: string, rest: seq<string>)
    requires ClosedComeLast(m, rg, e) && Distinct(before + [bad] + rest)
    requires (forall s :: s in before ==> Clear(m, rg, s, e)) && bad in rg && !Clear(m, rg, bad, e)
    ensures AllServed(m, rg, EmitOrder(m, rg, before + [bad] + rest, e).0, e)
  {
    EmitStopsAt(m, rg, before, bad, rest, e);
    EmitListPrefix(rg[bad], e);
    var f := FirstClosed(rg[bad]);
    var after: Watchers := FanOutTo(m, rg, before, e)[bad := EmitList(rg[bad], e).0];
    forall t, j | t in rg && m(t, e.obj) && 0 <= j < |rg[t]| && !rg[t][j].closed
      ensures t in after && j < |after[t]| && after[t][j].sent == rg[t][j].sent + [e]
    {
      assert rg[bad][f].closed;
      assert t == bad && j < f;
    }
  }

  lemma Served(m: Match, rg: Watchers, e: Event, order: seq<string>)
    requires ClosedComeLast(m, rg, e) && Visits(order, rg)
    ensures AllServed(m, rg, EmitOrder(m, rg, order, e).0, e)
  {
    if s :| s in order && !Clear(m, rg, s, e) {
      var before, bad, rest := SplitAtBad(m, rg, order, e);
      assert bad in order;
      ServedUntilBad(m, rg, e, before, bad, rest);
    } else {
      assert [] + order == order && FanOutTo(m, rg, [], e) == rg;
      EmitOrderFrom(m, rg, [], order, e);
    }
  }

  /** A closed watcher can keep open ones from their event, depending on the map order; every open matching watcher
      is served in every order if and only if the closed ones come last. */
  lemma EveryOrderServesIff(m: Match, rg: Watchers, e: Event)
    ensures (forall order :: Visits(order, rg) ==> AllServed(m, rg, EmitOrder(m, rg, order, e).0, e))
            <==> ClosedComeLast(m, rg, e)
  {
    if ClosedComeLast(m, rg, e) {
      forall order | Visits(order, rg) ensures AllServed(m, rg, EmitOrder(m, rg, order, e).0, e) {
        Served(m, rg, e, order);
      }
    } else {
      var order := NotServed(m, rg, e);
    }
  }

  /** A closed watcher and an open one of two matching selectors: visited in one order the open one is served, in the
      other it is not. */
  lemma ClosedWatcherStarves(m: Match, a: string, b: string, e: Event)
    requires a != b && m(a, e.obj) && m(b, e.obj)
    ensures var rg: Watchers := map[a := [Watcher(true, [])], b := [Watcher(false, [])]];
            && Visits([a, b], rg) && EmitOrder(m, rg, [a, b], e) == (rg, false)
            && Visits([b, a], rg) && EmitOrder(m, rg, [b, a], e) == (rg[b := [Watcher(false, [e])]], false)
  {
    var rg: Watchers := map[a := [Watcher(true, [])], b := [Watcher(false, [])]];
    var shut, open, served := [Watcher(true, [])], [Watcher(false, [])], [Watcher(false, [e])];
    assert EmitList(shut, e) == (shut, false);
    assert rg[a] == shut && rg[a := shut] == rg;
    EmitListOpen(open, e);
    assert [] + [e] == [e] && SendAll(open, e)[0] == served[0];
    var rg' := rg[b := served];
    assert rg[b] == open && rg'[a] == shut && rg'[a := shut] == rg' && [b, a][1..] == [a];
    assert SendAll(open, e) == served;
    assert EmitOrder(m, rg', [a], e) == (rg', false);
    assert EmitOrder(m, rg, [b, a], e) == EmitOrder(m, rg', [a], e);
    assert EmitOrder(m, rg, [a, b], e) == (rg, false);
    assert [a, b][0] == a && [a, b][1] == b && [b, a][0] == b && [b, a][1] == a;
    assert Visits([a, b], rg) && Visits([b, a], rg);
  }
}
