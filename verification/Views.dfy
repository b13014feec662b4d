/**
 The list/watch side of one resource: its cache, the watchers of each field selector, the events they are sent,
 and the copy of the cache that a watcher rebuilds from its events.
 */
module Views {
  import opened Sequences
  import opened Objects
  import opened Framing

  datatype Event = Event(ty: EventType, obj: Object)

  /** A registered watch buffer: whether it was closed, and the events written to it. */
  datatype Watcher = Watcher(closed: bool, sent: seq<Event>)

  /** fields.ParseSelectorOrDie(selector).Matches(object) */
  type Match = (string, Object) -> bool

  /** The selector that matches every object. */
  const EVERYTHING: Match := (s, o) => true

  type Watchers = map<string, seq<Watcher>>

  datatype Shelf = Shelf(cache: Cache, watchers: Watchers)

  // ----- EmitObjectWatchEvent, in the order in which the map is visited

  /** Emit to the watchers of one selector; a closed one ends the emission with an error. */
  function EmitList(ws: seq<Watcher>, e: Event): (seq<Watcher>, bool) {
    if ws == [] then ([], true)
    else if ws[0].closed then (ws, false)
    else var (rest, ok) := EmitList(ws[1..], e);
         ([ws[0].(sent := ws[0].sent + [e])] + rest, ok)
  }

  function EmitOrder(m: Match, rg: Watchers, order: seq<string>, e: Event): (Watchers, bool) {
    if order == [] then (rg, true)
    else if order[0] !in rg || !m(order[0], e.obj) then EmitOrder(m, rg, order[1..], e)
    else
      var (ws, ok) := EmitList(rg[order[0]], e);
      if ok then EmitOrder(m, rg[order[0] := ws], order[1..], e) else (rg[order[0] := ws], false)
  }

  /** order visits every selector once. */
  ghost predicate Visits(order: seq<string>, rg: Watchers) {
    Distinct(order) && (forall s :: s in order <==> s in rg)
  }

  predicate AllOpen(rg: Watchers) {
    forall s, i :: s in rg && 0 <= i < |rg[s]| ==> !rg[s][i].closed
  }

  // ----- Its meaning when no watcher is closed

  function SendAll(ws: seq<Watcher>, e: Event): (r: seq<Watcher>)
    ensures |r| == |ws|
    ensures forall i :: 0 <= i < |ws| ==> r[i] == ws[i].(sent := ws[i].sent + [e])
  {
    seq(|ws|, i requires 0 <= i < |ws| => ws[i].(sent := ws[i].sent + [e]))
  }

  /** Every watcher whose selector matches gets the event, and no other. */
  function FanOut(m: Match, rg: Watchers, e: Event): Watchers {
    map s | s in rg :: if m(s, e.obj) then SendAll(rg[s], e) else rg[s]
  }

  lemma {:induction false} EmitListOpen(ws: seq<Watcher>, e: Event)
    requires forall i :: 0 <= i < |ws| ==> !ws[i].closed
    ensures EmitList(ws, e) == (SendAll(ws, e), true)
  {
    if ws == [] {
      assert SendAll(ws, e) == [];
    } else {
      EmitListOpen(ws[1..], e);
      assert SendAll(ws, e) == [ws[0].(sent := ws[0].sent + [e])] + SendAll(ws[1..], e);
    }
  }

  /** What the emission has done after visiting some selectors. */
  function FanOutTo(m: Match, rg: Watchers, visited: seq<string>, e: Event): Watchers {
    map s | s in rg :: if s in visited && m(s, e.obj) then SendAll(rg[s], e) else rg[s]
  }

  /** No watcher of the selector is closed, or the selector does not match. */
  predicate Clear(m: Match, rg: Watchers, s: string, e: Event) {
    s in rg && (m(s, e.obj) ==> forall i :: 0 <= i < |rg[s]| ==> !rg[s][i].closed)
  }

  lemma NextIsNew(visited: seq<string>, order: seq<string>)
    requires order != [] && Distinct(visited + order)
    ensures order[0] !in visited && visited + order == visited + [order[0]] + order[1..]
  {
    assert forall i :: 0 <= i < |visited| ==> (visited + order)[i] == visited[i];
    assert (visited + order)[|visited|] == order[0];
  }

  lemma FanOutToNext(m: Match, rg: Watchers, visited: seq<string>, sel: string, e: Event)
    requires sel in rg
    ensures FanOutTo(m, rg, visited + [sel], e) ==
            if m(sel, e.obj) then FanOutTo(m, rg, visited, e)[sel := SendAll(rg[sel], e)] else FanOutTo(m, rg, visited, e)
  {
  }

  lemma {:induction false} EmitOrderFrom(m: Match, rg: Watchers, visited: seq<string>, order: seq<string>, e: Event)
    requires Distinct(visited + order) && (forall s :: s in order ==> Clear(m, rg, s, e))
    ensures EmitOrder(m, FanOutTo(m, rg, visited, e), order, e)
            == (FanOutTo(m, rg, visited + order, e), true)
    decreases |order|
  {
    if order == [] {
      assert visited + order == visited;
    } else {
      var sel := order[0];
      assert sel in order && Clear(m, rg, sel, e);
      NextIsNew(visited, order);
      FanOutToNext(m, rg, visited, sel, e);
      if m(sel, e.obj) {
        EmitListOpen(rg[sel], e);
      }
      EmitOrderFrom(m, rg, visited + [sel], order[1..], e);
    }
  }

  /** With no closed watcher the emission does not depend on the order of the map. */
  lemma FanOutAnyOrder(m: Match, rg: Watchers, order: seq<string>, e: Event)
    requires AllOpen(rg) && Visits(order, rg)
    ensures EmitOrder(m, rg, order, e) == (FanOut(m, rg, e), true)
  {
    assert FanOutTo(m, rg, [], e) == rg;
    assert [] + order == order;
    assert FanOutTo(m, rg, order, e) == FanOut(m, rg, e);
    EmitOrderFrom(m, rg, [], order, e);
  }

  // ----- Store operations

  datatype Op = Add(obj: Object) | Update(obj: Object) | Delete(obj: Object) | Replace(items: seq<Object>)

  /** The cache that cache.Replace builds: later items win. */
  function FromItems(items: seq<Object>): Cache {
    if items == [] then map[]
    else FromItems(items[..|items| - 1])[Key(items[|items| - 1]) := items[|items| - 1]]
  }

  function ApplyOp(c: Cache, op: Op): Cache {
    match op
    case Add(o) => c[Key(o) := o]
    case Update(o) => c[Key(o) := o]
    case Delete(o) => c - {Key(o)}
    case Replace(items) => FromItems(items)
  }

  function AddedEvents(items: seq<Object>): (es: seq<Event>)
    ensures |es| == |items|
    ensures forall i :: 0 <= i < |items| ==> es[i] == Event(Added, items[i])
  {
    seq(|items|, i requires 0 <= i < |items| => Event(Added, items[i]))
  }

  /** The events an operation emits; Replace announces its items and never what it drops. */
  function EventsOf(op: Op): seq<Event> {
    match op
    case Add(o) => [Event(Added, o)]
    case Update(o) => [Event(Modified, o)]
    case Delete(o) => [Event(Deleted, o)]
    case Replace(items) => AddedEvents(items)
  }

  function FanOutMany(m: Match, rg: Watchers, es: seq<Event>): Watchers {
    if es == [] then rg else FanOut(m, FanOutMany(m, rg, es[..|es| - 1]), es[|es| - 1])
  }

  function StoreStep(m: Match, s: Shelf, op: Op): Shelf {
    Shelf(ApplyOp(s.cache, op), FanOutMany(m, s.watchers, EventsOf(op)))
  }

  /** createWatchReadCloser: register a watcher and write it the matching objects, in the order of the listing. */
  function WatchStep(s: Shelf, sel: string, listing: seq<Object>): Shelf {
    var ws := if sel in s.watchers then s.watchers[sel] else [];
    s.(watchers := s.watchers[sel := ws + [Watcher(false, AddedEvents(listing))]])
  }

  /** One watcher of sel is new and last: it is open and has been sent the listing; every other one is as it was. */
  ghost predicate Opens(before: Watchers, after: Watchers, sel: string, listing: seq<Object>) {
    && after.Keys == before.Keys + {sel} && (forall s :: s in before && s != sel ==> after[s] == before[s])
    && |after[sel]| == (if sel in before then |before[sel]| else 0) + 1
    && (sel in before ==> before[sel] <= after[sel])
    && !after[sel][|after[sel]| - 1].closed
    && after[sel][|after[sel]| - 1].sent == seq(|listing|, i requires 0 <= i < |listing| => Event(Added, listing[i]))
  }

  lemma WatchStepOpens(s: Shelf, sel: string, listing: seq<Object>)
    ensures Opens(s.watchers, WatchStep(s, sel, listing).watchers, sel, listing)
  {
    var added := seq(|listing|, i requires 0 <= i < |listing| => Event(Added, listing[i]));
    assert AddedEvents(listing) == added;
  }

  /** A new watcher is open, and opening it closes no other. */
  lemma WatchStepOpen(s: Shelf, sel: string, listing: seq<Object>)
    requires AllOpen(s.watchers)
    ensures AllOpen(WatchStep(s, sel, listing).watchers)
  {
  }

  /** listing holds exactly the objects of the cache that match, each once. */
  ghost predicate Lists(m: Match, c: Cache, sel: string, listing: seq<Object>) {
    && (forall o :: o in listing <==> exists k :: k in c && c[k] == o && m(sel, o))
    && Distinct(listing)
  }

  // ----- What a watcher makes of its events

  function ApplyEvent(c: Cache, e: Event): Cache {
    if e.ty == Deleted then c - {Key(e.obj)} else c[Key(e.obj) := e.obj]
  }

  function Replay(es: seq<Event>): Cache {
    if es == [] then map[] else ApplyEvent(Replay(es[..|es| - 1]), es[|es| - 1])
  }

  lemma ReplayAppend(es: seq<Event>, e: Event)
    ensures Replay(es + [e]) == ApplyEvent(Replay(es), e)
  {
    assert (es + [e])[..|es|] == es;
  }

  /** The part of a cache that a selector shows. */
  function Shown(m: Match, c: Cache, sel: string): Cache { map k | k in c && m(sel, c[k]) :: c[k] }

  function Matching(m: Match, sel: string, es: seq<Event>): seq<Event> {
    if es == [] then []
    else Matching(m, sel, es[..|es| - 1]) + if m(sel, es[|es| - 1].obj) then [es[|es| - 1]] else []
  }

  lemma MatchingNext(m: Match, sel: string, es: seq<Event>, e: Event)
    ensures Matching(m, sel, es + [e]) == if m(sel, e.obj) then Matching(m, sel, es) + [e] else Matching(m, sel, es)
  {
    assert (es + [e])[..|es|] == es;
    assert Matching(m, sel, es) + [] == Matching(m, sel, es);
  }

  /** Where the events that match stand among all events: exactly at those positions, each once and in order. */
  lemma {:induction false} MatchingPositions(m: Match, sel: string, es: seq<Event>) returns (idx: seq<nat>)
    ensures Picks(Matching(m, sel, es), es, idx)
    ensures forall j :: 0 <= j < |es| ==> (j in idx <==> m(sel, es[j].obj))
  {
    idx := [];
    if es != [] {
      var front, e := es[..|es| - 1], es[|es| - 1];
      idx := MatchingPositions(m, sel, front);
      assert es == front + [e];
      PicksSnoc(Matching(m, sel, front), front, idx, e);
      MatchingNext(m, sel, front, e);
      if m(sel, e.obj) {
        idx := idx + [|front|];
      }
    }
  }

  /** Over any sequence of emissions each watcher's stream is the sequence filtered by its selector. */
  lemma {:induction false} FanOutManyStream(m: Match, rg: Watchers, es: seq<Event>, sel: string, i: nat)
    requires sel in rg && i < |rg[sel]|
    ensures FanOutMany(m, rg, es).Keys == rg.Keys
    ensures |FanOutMany(m, rg, es)[sel]| == |rg[sel]|
    ensures FanOutMany(m, rg, es)[sel][i] == rg[sel][i].(sent := rg[sel][i].sent + Matching(m, sel, es))
  {
    if es == [] {
      assert rg[sel][i].sent + [] == rg[sel][i].sent;
    } else {
      FanOutManyStream(m, rg, es[..|es| - 1], sel, i);
    }
  }

  lemma {:induction false} FanOutManyKeys(m: Match, rg: Watchers, es: seq<Event>)
    ensures FanOutMany(m, rg, es).Keys == rg.Keys
    ensures forall s :: s in rg ==> |FanOutMany(m, rg, es)[s]| == |rg[s]|
  {
    if es != [] {
      FanOutManyKeys(m, rg, es[..|es| - 1]);
    }
  }

  // ----- Listings

  lemma {:induction false} ReplayListing(items: seq<Object>)
    ensures Replay(AddedEvents(items)) == FromItems(items)
  {
    if items != [] {
      var n := |items| - 1;
      ReplayListing(items[..n]);
      assert AddedEvents(items)[..n] == AddedEvents(items[..n]);
    }
  }

  lemma {:induction false} FromItemsHolds(items: seq<Object>)
    ensures KeyInv(FromItems(items))
    ensures forall k :: k in FromItems(items) ==> FromItems(items)[k] in items
    ensures forall o :: o in items ==> Key(o) in FromItems(items)
  {
    if items != [] {
      var n := |items| - 1;
      FromItemsHolds(items[..n]);
      assert items == items[..n] + [items[n]];
    }
  }

  /** The cache of some items holds, under each key, the last item of that key. */
  lemma {:induction false} LastItemStays(items: seq<Object>, i: nat)
    requires i < |items| && forall j :: i < j < |items| ==> Key(items[j]) != Key(items[i])
    ensures Key(items[i]) in FromItems(items) && FromItems(items)[Key(items[i])] == items[i]
  {
    if i < |items| - 1 {
      LastItemStays(items[..|items| - 1], i);
    }
  }

  /** A listing of a cache replays to what the selector shows. */
  lemma ListingShows(m: Match, c: Cache, sel: string, listing: seq<Object>)
    requires KeyInv(c) && Lists(m, c, sel, listing)
    ensures Replay(AddedEvents(listing)) == Shown(m, c, sel)
  {
    ReplayListing(listing);
    FromItemsHolds(listing);
    var r := FromItems(listing);
    forall k ensures k in r <==> k in Shown(m, c, sel) {
      if k in r {
        assert r[k] in listing;
      }
      if k in Shown(m, c, sel) {
        assert c[k] in listing;
      }
    }
    forall k | k in r ensures r[k] == c[k] {
      assert r[k] in listing;
    }
  }
}
