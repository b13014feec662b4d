/** The resource store and the fake REST client as objects that change in place.  Their methods are proved against the
    functions of Views, in whatever order the Go maps are visited. */
module ApiServer {
  import opened Sequences
  import opened Objects
  import opened Framing
  import opened Views
  import opened FanOutOrder
  import opened ViewRuns

  /** pkg/framework/restclient/external/restclient.go: the watchers of each resource and selector. */
  class RestClient {
    const matches: Match
    var watchers: map<ResourceType, Watchers>

    constructor (matches: Match)
      ensures this.matches == matches
      ensures watchers.Keys == {Pods, PersistentVolumes, Nodes, Services, PersistentVolumeClaims}
      ensures forall rt :: rt in watchers ==> watchers[rt] == map[]
    {
      this.matches := matches;
      this.watchers := map rt | rt in STORED :: map[];
    }

    /** Emit to the watchers of one selector, up to the first closed one. */
    method EmitToList(ws: seq<Watcher>, e: Event) returns (r: seq<Watcher>, ok: bool)
      ensures (r, ok) == EmitList(ws, e)
    {
      r, ok := ws, true;
      ghost var f := FirstClosed(ws);
      EmitListPrefix(ws, e);
      for i := 0 to |ws|
        invariant i <= f && |r| == |ws| && ok
        invariant forall j :: 0 <= j < i ==> r[j] == ws[j].(sent := ws[j].sent + [e])
        invariant forall j :: i <= j < |ws| ==> r[j] == ws[j]
      {
        if ws[i].closed {
          assert r == ServeFirst(ws, f, e);
          return r, false;
        }
        r := r[i := ws[i].(sent := ws[i].sent + [e])];
      }
      assert r == ServeFirst(ws, f, e);
    }

    /** Visit every selector of the resource; order is the order the map happened to be visited in. */
    method EmitObjectWatchEvent(rt: ResourceType, ty: EventType, obj: Object) returns (ok: bool, ghost order: seq<string>)
      modifies this
      ensures rt !in old(watchers) ==> !ok && watchers == old(watchers)
      ensures rt in old(watchers) ==>
                && Visits(order, old(watchers[rt]))
                && ok == EmitOrder(matches, old(watchers[rt]), order, Event(ty, obj)).1
                && watchers == old(watchers)[rt := EmitOrder(matches, old(watchers[rt]), order, Event(ty, obj)).0]
    {
      order := [];
      if rt !in watchers {
        return false, [];
      }
      var e, rg := Event(ty, obj), watchers[rt];
      var todo := rg.Keys;
      ok := true;
      while todo != {} && ok
        invariant rt in watchers && watchers == old(watchers)[rt := watchers[rt]]
        invariant watchers[rt].Keys == rg.Keys && todo <= rg.Keys
        invariant forall s :: s in todo ==> watchers[rt][s] == rg[s]
        invariant Distinct(order) && forall s :: s in order <==> s in rg && s !in todo
        invariant EmitOrder(matches, rg, order, e) == (watchers[rt], ok)
        decreases |todo|
      {
        var s :| s in todo;
        ghost var now := watchers[rt];
        assert [s] + [] == [s] && [s][1..] == [];
        EmitOrderConcat(matches, rg, order, [s], e);
        if matches(s, obj) {
          var ws;
          ws, ok := EmitToList(watchers[rt][s], e);
          watchers := watchers[rt := watchers[rt][s := ws]];
        }
        assert EmitOrder(matches, now, [s], e) == (watchers[rt], ok);
        order, todo := order + [s], todo - {s};
      }
      if !ok {
        ghost var rest := Rest(order, rg);
        EmitOrderStops(matches, rg, order, rest, e);
        order := order + rest;
      }
    }
  }

  /** pkg/framework/store/store.go: one cache per resource, and the client each resource's handler emits to. */
  class ResourceStore {
    var caches: map<ResourceType, Cache>
    var handlers: map<ResourceType, RestClient>

    ghost predicate Valid()
      reads this
    {
      caches.Keys == STORED && forall rt :: rt in caches ==> KeyInv(caches[rt])
    }

    constructor ()
      ensures Valid() && handlers == map[] && forall rt :: rt in caches ==> caches[rt] == map[]
      ensures caches.Keys == {Pods, PersistentVolumes, Nodes, Services, PersistentVolumeClaims}
    {
      caches := map rt | rt in STORED :: map[];
      handlers := map[];
    }

    method RegisterEventHandler(rt: ResourceType, client: RestClient)
      modifies this`handlers
      ensures handlers == old(handlers)[rt := client]
    {
      handlers := handlers[rt := client];
    }

    /** The watchers that an operation on the resource emits to, if its handler is registered and they are open. */
    ghost predicate Wired(rt: ResourceType)
      reads this, handlers.Values
    {
      rt in handlers && rt in handlers[rt].watchers && AllOpen(handlers[rt].watchers[rt])
    }

    twostate predicate NothingEmitted()
      reads this, handlers.Values
    {
      handlers == old(handlers) && forall c :: c in old(handlers).Values ==> c.watchers == old(c.watchers)
    }

    /** The handler of the resource, if there is one, emitted the events to the watchers of the resource, closed ones
        or not, visiting the selectors in these orders; nothing else was emitted. */
    twostate predicate Emitted(rt: ResourceType, es: seq<Event>, orders: seq<seq<string>>)
      reads this, handlers.Values
    {
      && handlers == old(handlers)
      && (rt in old(handlers) && rt in old(handlers[rt].watchers) ==>
            var c := old(handlers)[rt];
            && rt in c.watchers && c.watchers == old(c.watchers)[rt := c.watchers[rt]]
            && Emits(c.matches, old(c.watchers)[rt], es, orders, c.watchers[rt]))
      && (forall c :: c in old(handlers).Values && (rt !in old(handlers) || c != old(handlers)[rt] || rt !in old(c.watchers)) ==>
            c.watchers == old(c.watchers))
    }

    /** Call the handler, if there is one, which ignores whether the emission failed. */
    method Notify(rt: ResourceType, ty: EventType, obj: Object) returns (ghost order: seq<string>)
      modifies handlers.Values
      ensures rt in handlers && rt in old(handlers[rt].watchers) ==>
                var c, rg := handlers[rt], old(handlers[rt].watchers[rt]);
                && Visits(order, rg)
                && c.watchers == old(c.watchers)[rt := EmitOrder(c.matches, rg, order, Event(ty, obj)).0]
      ensures forall c :: c in handlers.Values && (rt !in handlers || c != handlers[rt] || rt !in old(c.watchers)) ==>
                            c.watchers == old(c.watchers)
    {
      order := [];
      if rt in handlers {
        assert handlers[rt] in handlers.Values;
        var ok;
        ok, order := handlers[rt].EmitObjectWatchEvent(rt, ty, obj);
      }
    }

    /** One event after the other. */
    method NotifyAll(rt: ResourceType, es: seq<Event>) returns (ghost orders: seq<seq<string>>)
      modifies handlers.Values
      ensures Emitted(rt, es, orders)
      ensures old(Wired(rt)) ==>
                var c := handlers[rt];
                c.watchers == old(c.watchers)[rt := FanOutMany(c.matches, old(c.watchers[rt]), es)] && Wired(rt)
    {
      orders := [];
      ghost var live := rt in handlers && rt in handlers[rt].watchers;
      if live {
        EmitsNothing(handlers[rt].matches, handlers[rt].watchers[rt]);
      }
      for i := 0 to |es|
        invariant Emitted(rt, es[..i], orders)
      {
        ghost var now := if live then handlers[rt].watchers[rt] else map[];
        ghost var order := Notify(rt, es[i].ty, es[i].obj);
        if live {
          EmitsNext(handlers[rt].matches, old(handlers[rt].watchers[rt]), es[..i], orders, now, order, es[i]);
        }
        orders := orders + [order];
        assert es[..i + 1] == es[..i] + [es[i]];
      }
      assert es[..|es|] == es;
      if old(Wired(rt)) {
        EmitsOpen(handlers[rt].matches, old(handlers[rt].watchers[rt]), es, orders, handlers[rt].watchers[rt]);
      }
    }

    /** Add, Update or Delete one object, and emit the event. */
    method Change(rt: ResourceType, op: Op) returns (err: bool, ghost orders: seq<seq<string>>)
      requires Valid() && !op.Replace?
      modifies this`caches, handlers.Values
      ensures Valid() && (err <==> rt !in STORED)
      ensures caches == if err then old(caches) else old(caches)[rt := ApplyOp(old(caches)[rt], op)]
      ensures if err then NothingEmitted() else Emitted(rt, EventsOf(op), orders)
      ensures !err && old(Wired(rt)) ==>
                var c := handlers[rt];
                c.watchers == old(c.watchers)[rt := FanOutMany(c.matches, old(c.watchers[rt]), EventsOf(op))] && Wired(rt)
    {
      orders := [];
      if rt !in caches {
        return true, [];
      }
      KeyInvStep(caches[rt], op);
      caches := caches[rt := ApplyOp(caches[rt], op)];
      orders := NotifyAll(rt, EventsOf(op));
      return false, orders;
    }

    method Add(rt: ResourceType, obj: Object) returns (err: bool, ghost orders: seq<seq<string>>)
      requires Valid()
      modifies this`caches, handlers.Values
      ensures Valid() && (err <==> rt !in STORED)
      ensures caches == if err then old(caches) else old(caches)[rt := old(caches)[rt][Key(obj) := obj]]
      ensures if err then NothingEmitted() else Emitted(rt, [Event(Added, obj)], orders)
      ensures !err && old(Wired(rt)) ==>
                var c := handlers[rt];
                c.watchers == old(c.watchers)[rt := FanOutMany(c.matches, old(c.watchers[rt]), [Event(Added, obj)])]
    {
      err, orders := Change(rt, Op.Add(obj));
    }

    method Update(rt: ResourceType, obj: Object) returns (err: bool, ghost orders: seq<seq<string>>)
      requires Valid()
      modifies this`caches, handlers.Values
      ensures Valid() && (err <==> rt !in STORED)
      ensures caches == if err then old(caches) else old(caches)[rt := old(caches)[rt][Key(obj) := obj]]
      ensures if err then NothingEmitted() else Emitted(rt, [Event(Modified, obj)], orders)
      ensures !err && old(Wired(rt)) ==>
                var c := handlers[rt];
                c.watchers == old(c.watchers)[rt := FanOutMany(c.matches, old(c.watchers[rt]), [Event(Modified, obj)])]
    {
      err, orders := Change(rt, Op.Update(obj));
    }

    method Delete(rt: ResourceType, obj: Object) returns (err: bool, ghost orders: seq<seq<string>>)
      requires Valid()
      modifies this`caches, handlers.Values
      ensures Valid() && (err <==> rt !in STORED)
      ensures caches == if err then old(caches) else old(caches)[rt := old(caches)[rt] - {Key(obj)}]
      ensures if err then NothingEmitted() else Emitted(rt, [Event(Deleted, obj)], orders)
      ensures !err && old(Wired(rt)) ==>
                var c := handlers[rt];
                c.watchers == old(c.watchers)[rt := FanOutMany(c.matches, old(c.watchers[rt]), [Event(Deleted, obj)])]
    {
      err, orders := Change(rt, Op.Delete(obj));
    }

    /** Replace the whole cache and announce every item as added. */
    method Replace(rt: ResourceType, items: seq<Object>) returns (err: bool, ghost orders: seq<seq<string>>)
      requires Valid()
      modifies this`caches, handlers.Values
      ensures Valid() && (err <==> rt !in STORED)
      ensures caches == if err then old(caches) else old(caches)[rt := FromItems(items)]
      ensures if err then NothingEmitted() else Emitted(rt, AddedEvents(items), orders)
      ensures !err && old(Wired(rt)) ==>
                var c := handlers[rt];
                c.watchers == old(c.watchers)[rt := FanOutMany(c.matches, old(c.watchers[rt]), AddedEvents(items))]
    {
      orders := [];
      if rt !in caches {
        return true, [];
      }
      FromItemsHolds(items);
      caches := caches[rt := FromItems(items)];
      orders := NotifyAll(rt, AddedEvents(items));
      return false, orders;
    }

    method GetByKey(rt: ResourceType, key: string) returns (err: bool, found: Option<Object>)
      ensures err <==> rt !in caches
      ensures !err ==> found == if key in caches[rt] then Some(caches[rt][key]) else None
    {
      if rt !in caches {
        return true, None;
      }
      return false, if key in caches[rt] then Some(caches[rt][key]) else None;
    }

    /** The objects of a resource in some order, each once; nothing for an unknown resource. */
    method List(rt: ResourceType) returns (items: seq<Object>)
      requires Valid()
      ensures rt !in caches ==> items == []
      ensures rt in caches ==> Lists(EVERYTHING, caches[rt], "", items)
    {
      items := [];
      if rt !in caches {
        return;
      }
      var c, todo := caches[rt], caches[rt].Keys;
      while todo != {}
        invariant todo <= c.Keys && Distinct(items)
        invariant forall o :: o in items <==> exists k :: k in c && k !in todo && c[k] == o
        decreases |todo|
      {
        var k :| k in todo;
        assert c[k] !in items;
        items, todo := items + [c[k]], todo - {k};
      }
    }
  }

  /** The typed listers: the items that the selector matches, in order. */
  method ListMatching(m: Match, sel: string, items: seq<Object>) returns (r: seq<Object>)
    ensures r == MatchingItems(m, sel, items)
  {
    r := [];
    for i := 0 to |items|
      invariant r == MatchingItems(m, sel, items[..i])
    {
      assert items[..i + 1][..i] == items[..i];
      if !m(sel, items[i]) {
        continue;
      }
      r := r + [items[i]];
    }
    assert items[..|items|] == items;
  }

  lemma {:induction false} MatchingKeepsDistinct(m: Match, sel: string, xs: seq<Object>)
    requires Distinct(xs)
    ensures Distinct(MatchingItems(m, sel, xs)) && forall o :: o in MatchingItems(m, sel, xs) <==> o in xs && m(sel, o)
  {
    if xs != [] {
      var n := |xs| - 1;
      MatchingKeepsDistinct(m, sel, xs[..n]);
      assert xs == xs[..n] + [xs[n]] && xs[n] !in xs[..n];
    }
  }

  /** A new watcher that has been written the items that match. */
  method NewWatcher(m: Match, sel: string, items: seq<Object>) returns (w: Watcher)
    ensures w == Watcher(false, AddedEvents(MatchingItems(m, sel, items)))
  {
    var matching := ListMatching(m, sel, items);
    w := Watcher(false, []);
    for i := 0 to |matching|
      invariant w == Watcher(false, AddedEvents(matching[..i]))
    {
      w := w.(sent := w.sent + [Event(Added, matching[i])]);
      assert AddedEvents(matching[..i + 1]) == AddedEvents(matching[..i]) + [Event(Added, matching[i])];
    }
    assert matching[..|matching|] == matching;
  }

  lemma MatchingLists(m: Match, c: Cache, sel: string, items: seq<Object>)
    requires Lists(EVERYTHING, c, "", items)
    ensures Lists(m, c, sel, MatchingItems(m, sel, items))
  {
    MatchingKeepsDistinct(m, sel, items);
  }

  /** createWatchReadCloser: register a new watcher and list it the objects that match. */
  method CreateWatch(store: ResourceStore, client: RestClient, rt: ResourceType, sel: string)
    returns (err: bool, ghost listing: seq<Object>)
    requires store.Valid() && client.watchers.Keys <= STORED
    modifies client
    ensures err <==> rt !in old(client.watchers)
    ensures err ==> client.watchers == old(client.watchers)
    ensures !err ==>
              && Lists(client.matches, store.caches[rt], sel, listing)
              && client.watchers == old(client.watchers)[rt := WatchStep(Shelf(store.caches[rt], old(client.watchers[rt])), sel, listing).watchers]
    ensures !err ==>
              && rt in client.watchers && client.watchers == old(client.watchers)[rt := client.watchers[rt]]
              && Opens(old(client.watchers)[rt], client.watchers[rt], sel, listing)
  {
    listing := [];
    if rt !in client.watchers {
      return true, [];
    }
    var rg := client.watchers[rt];
    var ws := if sel in rg then rg[sel] else [];
    var items := store.List(rt);
    var w := NewWatcher(client.matches, sel, items);
    MatchingLists(client.matches, store.caches[rt], sel, items);
    WatchStepOpens(Shelf(store.caches[rt], rg), sel, MatchingItems(client.matches, sel, items));
    client.watchers := client.watchers[rt := rg[sel := ws + [w]]];
    return false, MatchingItems(client.matches, sel, items);
  }

  /** Selectors that complete a visiting order. */
  lemma Rest(order: seq<string>, rg: Watchers) returns (rest: seq<string>)
    requires Distinct(order) && forall s :: s in order ==> s in rg
    ensures Visits(order + rest, rg)
  {
    rest := [];
    var todo := rg.Keys - set s | s in order;
    while todo != {}
      invariant todo <= rg.Keys && Distinct(order + rest)
      invariant forall s :: s in order + rest <==> s in rg && s !in todo
      decreases |todo|
    {
      var t :| t in todo;
      assert t !in order + rest;
      assert order + (rest + [t]) == order + rest + [t];
      rest, todo := rest + [t], todo - {t};
    }
  }

  /** Once the emission has failed the other selectors do not matter. */
  lemma {:induction false} EmitOrderStops(m: Match, rg: Watchers, a: seq<string>, b: seq<string>, e: Event)
    requires !EmitOrder(m, rg, a, e).1
    ensures EmitOrder(m, rg, a + b, e) == EmitOrder(m, rg, a, e)
    decreases |a|
  {
    assert a != [];
    assert (a + b)[0] == a[0] && (a + b)[1..] == a[1..] + b;
    if a[0] !in rg || !m(a[0], e.obj) {
      EmitOrderStops(m, rg, a[1..], b, e);
    } else if EmitList(rg[a[0]], e).1 {
      EmitOrderStops(m, rg[a[0] := EmitList(rg[a[0]], e).0], a[1..], b, e);
    }
  }
}
