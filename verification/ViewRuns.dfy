/** Whole runs of store operations and watch creations: how the copies that watchers keep relate to the store. */
module ViewRuns {
  import opened Objects
  import opened Framing
  import opened Views
  import opened FanOutOrder

  /** v agrees with the cache on every key whose stored object matches. */
  ghost predicate Agrees(m: Match, c: Cache, sel: string, v: Cache) {
    forall k :: k in c && m(sel, c[k]) ==> k in v && v[k] == c[k]
  }

  function After(m: Match, sel: string, sent: seq<Event>, op: Op): Cache {
    Replay(sent + Matching(m, sel, EventsOf(op)))
  }

  // ----- Replaying the events of a Replace

  lemma MergePut(a: Cache, b: Cache, k: string, o: Object)
    ensures (a + b)[k := o] == a + b[k := o]
  {
  }

  lemma AddedSnoc(sent: seq<Event>, xs: seq<Object>, x: Object)
    ensures sent + AddedEvents(xs + [x]) == sent + AddedEvents(xs) + [Event(Added, x)]
  {
  }

  lemma {:induction false} ReplayAdded(sent: seq<Event>, xs: seq<Object>)
    ensures Replay(sent + AddedEvents(xs)) == Replay(sent) + FromItems(xs)
  {
    if xs == [] {
      assert sent + AddedEvents(xs) == sent;
      assert Replay(sent) + map[] == Replay(sent);
    } else {
      var front, x := xs[..|xs| - 1], xs[|xs| - 1];
      ReplayAdded(sent, front);
      assert xs == front + [x];
      AddedSnoc(sent, front, x);
      ReplayAppend(sent + AddedEvents(front), Event(Added, x));
      MergePut(Replay(sent), FromItems(front), Key(x), x);
    }
  }

  function MatchingItems(m: Match, sel: string, xs: seq<Object>): seq<Object> {
    if xs == [] then []
    else MatchingItems(m, sel, xs[..|xs| - 1]) + if m(sel, xs[|xs| - 1]) then [xs[|xs| - 1]] else []
  }

  lemma {:induction false} MatchingAdded(m: Match, sel: string, xs: seq<Object>)
    ensures Matching(m, sel, AddedEvents(xs)) == AddedEvents(MatchingItems(m, sel, xs))
  {
    if xs != [] {
      var n := |xs| - 1;
      MatchingAdded(m, sel, xs[..n]);
      assert AddedEvents(xs)[..n] == AddedEvents(xs[..n]);
    }
  }

  /** An item that a Replace leaves in the cache and that matches is the last word on its key among the events. */
  lemma {:induction false} LastItemWins(m: Match, sel: string, xs: seq<Object>)
    ensures forall k :: k in FromItems(xs) && m(sel, FromItems(xs)[k]) ==>
                          k in FromItems(MatchingItems(m, sel, xs))
                          && FromItems(MatchingItems(m, sel, xs))[k] == FromItems(xs)[k]
  {
    if xs != [] {
      var n := |xs| - 1;
      LastItemWins(m, sel, xs[..n]);
      var p := MatchingItems(m, sel, xs[..n]);
      if m(sel, xs[n]) {
        assert (p + [xs[n]])[..|p|] == p;
      } else {
        assert MatchingItems(m, sel, xs) == p;
      }
    }
  }

  lemma AfterReplace(m: Match, sel: string, sent: seq<Event>, items: seq<Object>)
    ensures After(m, sel, sent, Replace(items)) == Replay(sent) + FromItems(MatchingItems(m, sel, items))
  {
    MatchingAdded(m, sel, items);
    ReplayAdded(sent, MatchingItems(m, sel, items));
  }

  /** What one more event does to a replayed view. */
  lemma AfterEvent(m: Match, sel: string, sent: seq<Event>, e: Event)
    ensures Replay(sent + Matching(m, sel, [e])) == if m(sel, e.obj) then ApplyEvent(Replay(sent), e) else Replay(sent)
  {
    assert [e][..0] == [] && Matching(m, sel, []) == [];
    assert Matching(m, sel, [e]) == if m(sel, e.obj) then [e] else [];
    if m(sel, e.obj) {
      ReplayAppend(sent, e);
    } else {
      assert sent + [] == sent;
    }
  }

  lemma AfterOne(m: Match, sel: string, sent: seq<Event>, op: Op)
    requires !op.Replace?
    ensures After(m, sel, sent, op) ==
            if !m(sel, op.obj) then Replay(sent)
            else if op.Delete? then Replay(sent) - {Key(op.obj)} else Replay(sent)[Key(op.obj) := op.obj]
  {
    AfterEvent(m, sel, sent, EventsOf(op)[0]);
  }

  // ----- One operation

  lemma AgreesStep(m: Match, c: Cache, sel: string, sent: seq<Event>, op: Op)
    requires Agrees(m, c, sel, Replay(sent))
    ensures Agrees(m, ApplyOp(c, op), sel, After(m, sel, sent, op))
  {
    if op.Replace? {
      AfterReplace(m, sel, sent, op.items);
      LastItemWins(m, sel, op.items);
    } else {
      AfterOne(m, sel, sent, op);
    }
  }

  lemma KeyInvStep(c: Cache, op: Op)
    requires KeyInv(c)
    ensures KeyInv(ApplyOp(c, op))
  {
    if op.Replace? {
      FromItemsHolds(op.items);
    }
  }

  /** No key leaves the selector's part of the store without an event that the watcher sees. */
  ghost predicate NothingSlipsAway(m: Match, c: Cache, sel: string, op: Op) {
    match op
    case Add(o) => Key(o) in c && m(sel, c[Key(o)]) ==> m(sel, o)
    case Update(o) => Key(o) in c && m(sel, c[Key(o)]) ==> m(sel, o)
    case Delete(o) => Key(o) in c && m(sel, c[Key(o)]) ==> m(sel, o)
    case Replace(items) =>
      forall k :: (k in c && m(sel, c[k])) || k in FromItems(MatchingItems(m, sel, items)) ==>
                    k in FromItems(items) && m(sel, FromItems(items)[k])
  }

  lemma ExactIffPut(m: Match, c: Cache, sel: string, o: Object)
    ensures (if m(sel, o) then Shown(m, c, sel)[Key(o) := o] else Shown(m, c, sel)) == Shown(m, c[Key(o) := o], sel)
            <==> (Key(o) in c && m(sel, c[Key(o)]) ==> m(sel, o))
  {
    var before, after := Shown(m, c, sel), Shown(m, c[Key(o) := o], sel);
    if m(sel, o) {
      assert before[Key(o) := o] == after;
    } else if Key(o) in c && m(sel, c[Key(o)]) {
      assert Key(o) in before && Key(o) !in after;
    } else {
      assert before == after;
    }
  }

  lemma ExactIffDelete(m: Match, c: Cache, sel: string, o: Object)
    ensures (if m(sel, o) then Shown(m, c, sel) - {Key(o)} else Shown(m, c, sel)) == Shown(m, c - {Key(o)}, sel)
            <==> (Key(o) in c && m(sel, c[Key(o)]) ==> m(sel, o))
  {
    var before, after := Shown(m, c, sel), Shown(m, c - {Key(o)}, sel);
    if m(sel, o) {
      assert before - {Key(o)} == after;
    } else if Key(o) in c && m(sel, c[Key(o)]) {
      assert Key(o) in before && Key(o) !in after;
    } else {
      assert before == after;
    }
  }

  /** A view that is exact stays exact across an operation if and only if nothing slips away. */
  lemma ExactIff(m: Match, c: Cache, sel: string, sent: seq<Event>, op: Op)
    requires KeyInv(c) && Replay(sent) == Shown(m, c, sel)
    ensures After(m, sel, sent, op) == Shown(m, ApplyOp(c, op), sel) <==> NothingSlipsAway(m, c, sel, op)
  {
    match op
    case Replace(items) => ExactIffReplace(m, c, sel, sent, items);
    case Delete(o) =>
      AfterOne(m, sel, sent, op);
      ExactIffDelete(m, c, sel, o);
    case Add(o) =>
      AfterOne(m, sel, sent, op);
      ExactIffPut(m, c, sel, o);
    case Update(o) =>
      AfterOne(m, sel, sent, op);
      ExactIffPut(m, c, sel, o);
  }

  lemma ExactIffReplace(m: Match, c: Cache, sel: string, sent: seq<Event>, items: seq<Object>)
    requires KeyInv(c) && Replay(sent) == Shown(m, c, sel)
    ensures After(m, sel, sent, Replace(items)) == Shown(m, FromItems(items), sel)
            <==> NothingSlipsAway(m, c, sel, Replace(items))
  {
    AfterReplace(m, sel, sent, items);
    SlipsAwayReplace(m, c, sel, items);
  }

  lemma SlipsAwayReplace(m: Match, c: Cache, sel: string, items: seq<Object>)
    ensures Shown(m, c, sel) + FromItems(MatchingItems(m, sel, items)) == Shown(m, FromItems(items), sel)
            <==> NothingSlipsAway(m, c, sel, Replace(items))
  {
    LastItemWins(m, sel, items);
    SlipsAwayIff(m, c, sel, FromItems(MatchingItems(m, sel, items)), FromItems(items));
  }

  lemma SlipsAwayIff(m: Match, c: Cache, sel: string, seen: Cache, kept: Cache)
    requires forall k :: k in kept && m(sel, kept[k]) ==> k in seen && seen[k] == kept[k]
    ensures Shown(m, c, sel) + seen == Shown(m, kept, sel)
            <==> forall k :: (k in c && m(sel, c[k])) || k in seen ==> k in kept && m(sel, kept[k])
  {
    var a, d := Shown(m, c, sel), Shown(m, kept, sel);
    MergeIff(a, seen, d);
    assert forall k :: k in a <==> k in c && m(sel, c[k]);
    assert forall k :: k in d <==> k in kept && m(sel, kept[k]);
  }

  lemma MergeIff(a: Cache, b: Cache, d: Cache)
    requires forall k :: k in d ==> k in b && b[k] == d[k]
    ensures a + b == d <==> forall k :: k in a || k in b ==> k in d
  {
    if forall k :: k in a || k in b ==> k in d {
      assert a + b == d;
    } else {
      var k :| (k in a || k in b) && k !in d;
      assert k in a + b;
    }
  }

  // ----- Runs

  datatype Step = Store(op: Op) | Watch(sel: string, listing: seq<Object>)

  function TakeStep(m: Match, s: Shelf, st: Step): Shelf {
    match st
    case Store(op) => StoreStep(m, s, op)
    case Watch(sel, listing) => WatchStep(s, sel, listing)
  }

  function RunSteps(m: Match, s: Shelf, steps: seq<Step>): Shelf
    decreases |steps|
  {
    if steps == [] then s else RunSteps(m, TakeStep(m, s, steps[0]), steps[1..])
  }

  /** Every new watcher is listed what the cache holds for it. */
  ghost predicate Proper(m: Match, s: Shelf, steps: seq<Step>)
    decreases |steps|
  {
    steps == [] ||
    ((steps[0].Watch? ==> Lists(m, s.cache, steps[0].sel, steps[0].listing))
     && Proper(m, TakeStep(m, s, steps[0]), steps[1..]))
  }

  ghost predicate AllAgree(m: Match, s: Shelf) {
    && KeyInv(s.cache)
    && forall sel, i :: sel in s.watchers && 0 <= i < |s.watchers[sel]| ==>
                          Agrees(m, s.cache, sel, Replay(s.watchers[sel][i].sent))
  }

  lemma AllAgreeStep(m: Match, s: Shelf, st: Step)
    requires AllAgree(m, s) && (st.Watch? ==> Lists(m, s.cache, st.sel, st.listing))
    ensures AllAgree(m, TakeStep(m, s, st))
  {
    match st
    case Watch(sel, listing) =>
      ListingShows(m, s.cache, sel, listing);
    case Store(op) =>
      KeyInvStep(s.cache, op);
      var t := StoreStep(m, s, op);
      FanOutManyKeys(m, s.watchers, EventsOf(op));
      forall sel, i | sel in t.watchers && 0 <= i < |t.watchers[sel]|
        ensures Agrees(m, t.cache, sel, Replay(t.watchers[sel][i].sent))
      {
        FanOutManyStream(m, s.watchers, EventsOf(op), sel, i);
        AgreesStep(m, s.cache, sel, s.watchers[sel][i].sent, op);
      }
  }

  lemma {:induction false} AllAgreeRun(m: Match, s: Shelf, steps: seq<Step>)
    requires AllAgree(m, s) && Proper(m, s, steps)
    ensures AllAgree(m, RunSteps(m, s, steps))
    decreases |steps|
  {
    if steps != [] {
      AllAgreeStep(m, s, steps[0]);
      AllAgreeRun(m, TakeStep(m, s, steps[0]), steps[1..]);
    }
  }

  const EmptyShelf := Shelf(map[], map[])

  /** Selector views: in every run of Add, Update, Delete and Replace with watches created at any point, each
      watcher's view agrees with the store on every key whose stored object matches its selector. */
  lemma SelectorViews(m: Match, steps: seq<Step>, sel: string, i: nat)
    requires Proper(m, EmptyShelf, steps)
    requires var s := RunSteps(m, EmptyShelf, steps); sel in s.watchers && i < |s.watchers[sel]|
    ensures var s := RunSteps(m, EmptyShelf, steps);
            Agrees(m, s.cache, sel, Replay(s.watchers[sel][i].sent))
  {
    AllAgreeRun(m, EmptyShelf, steps);
  }

  // ----- Exact views

  ghost predicate AllExact(m: Match, s: Shelf, sel: string) {
    && KeyInv(s.cache)
    && (sel in s.watchers ==>
          forall i :: 0 <= i < |s.watchers[sel]| ==> Replay(s.watchers[sel][i].sent) == Shown(m, s.cache, sel))
  }

  /** Nothing slips away from sel at any operation of the run. */
  ghost predicate Guarded(m: Match, s: Shelf, steps: seq<Step>, sel: string)
    decreases |steps|
  {
    steps == [] ||
    ((steps[0].Store? ==> NothingSlipsAway(m, s.cache, sel, steps[0].op))
     && Guarded(m, TakeStep(m, s, steps[0]), steps[1..], sel))
  }

  lemma AllExactStep(m: Match, s: Shelf, st: Step, sel: string)
    requires AllExact(m, s, sel) && (st.Watch? ==> Lists(m, s.cache, st.sel, st.listing))
    requires st.Store? ==> NothingSlipsAway(m, s.cache, sel, st.op)
    ensures AllExact(m, TakeStep(m, s, st), sel)
  {
    match st
    case Watch(sel', listing) =>
      ListingShows(m, s.cache, sel', listing);
    case Store(op) =>
      KeyInvStep(s.cache, op);
      var t := StoreStep(m, s, op);
      FanOutManyKeys(m, s.watchers, EventsOf(op));
      if sel in t.watchers {
        forall i | 0 <= i < |t.watchers[sel]|
          ensures Replay(t.watchers[sel][i].sent) == Shown(m, t.cache, sel)
        {
          FanOutManyStream(m, s.watchers, EventsOf(op), sel, i);
          ExactIff(m, s.cache, sel, s.watchers[sel][i].sent, op);
        }
      }
  }

  lemma {:induction false} AllExactRun(m: Match, s: Shelf, steps: seq<Step>, sel: string)
    requires AllExact(m, s, sel) && Proper(m, s, steps) && Guarded(m, s, steps, sel)
    ensures AllExact(m, RunSteps(m, s, steps), sel)
    decreases |steps|
  {
    if steps != [] {
      AllExactStep(m, s, steps[0], sel);
      AllExactRun(m, TakeStep(m, s, steps[0]), steps[1..], sel);
    }
  }

  /** The view of a watcher is what its selector shows. */
  ghost predicate ExactAt(m: Match, s: Shelf, sel: string, i: nat) {
    sel in s.watchers && i < |s.watchers[sel]| && Replay(s.watchers[sel][i].sent) == Shown(m, s.cache, sel)
  }

  /** It is so now and after every step of the run. */
  ghost predicate AlwaysExact(m: Match, s: Shelf, steps: seq<Step>, sel: string, i: nat) {
    forall j :: 0 <= j <= |steps| ==> ExactAt(m, RunSteps(m, s, steps[..j]), sel, i)
  }

  lemma AlwaysExactCons(m: Match, s: Shelf, steps: seq<Step>, sel: string, i: nat)
    requires steps != []
    ensures AlwaysExact(m, s, steps, sel, i)
            <==> ExactAt(m, s, sel, i) && AlwaysExact(m, TakeStep(m, s, steps[0]), steps[1..], sel, i)
  {
    var t, rest := TakeStep(m, s, steps[0]), steps[1..];
    forall j | 0 < j <= |steps| ensures RunSteps(m, s, steps[..j]) == RunSteps(m, t, rest[..j - 1]) {
      assert steps[..j][1..] == rest[..j - 1];
    }
    assert RunSteps(m, s, steps[..0]) == s;
    forall j | 0 <= j <= |rest| ensures RunSteps(m, t, rest[..j]) == RunSteps(m, s, steps[..j + 1]) {
      assert steps[..j + 1][1..] == rest[..j];
    }
  }

  /** One step keeps the view exact if and only if nothing slips away from it. */
  lemma ExactStepIff(m: Match, s: Shelf, st: Step, sel: string, i: nat)
    requires KeyInv(s.cache) && ExactAt(m, s, sel, i)
    ensures ExactAt(m, TakeStep(m, s, st), sel, i) <==> (st.Store? ==> NothingSlipsAway(m, s.cache, sel, st.op))
  {
    if st.Store? {
      FanOutManyStream(m, s.watchers, EventsOf(st.op), sel, i);
      ExactIff(m, s.cache, sel, s.watchers[sel][i].sent, st.op);
    }
  }

  /** A view that is exact stays exact through a whole run if and only if nothing slips away at any operation of it. */
  lemma {:induction false} AlwaysExactIff(m: Match, s: Shelf, steps: seq<Step>, sel: string, i: nat)
    requires KeyInv(s.cache) && ExactAt(m, s, sel, i)
    ensures AlwaysExact(m, s, steps, sel, i) <==> Guarded(m, s, steps, sel)
    decreases |steps|
  {
    if steps == [] {
      assert steps[..0] == [];
    } else {
      AlwaysExactCons(m, s, steps, sel, i);
      ExactStepIff(m, s, steps[0], sel, i);
      var t := TakeStep(m, s, steps[0]);
      if ExactAt(m, t, sel, i) {
        if steps[0].Store? {
          KeyInvStep(s.cache, steps[0].op);
        }
        AlwaysExactIff(m, t, steps[1..], sel, i);
      } else {
        NowExact(m, t, steps[1..], sel, i);
      }
    }
  }

  lemma NowExact(m: Match, s: Shelf, steps: seq<Step>, sel: string, i: nat)
    ensures AlwaysExact(m, s, steps, sel, i) ==> ExactAt(m, s, sel, i)
  {
    assert steps[..0] == [];
  }

  /** Exact views over whole runs: a watcher created at any point of any run has the exact view after every step from
      then on if and only if nothing slips away at any operation from then on. */
  lemma ExactSinceCreationIff(m: Match, before: seq<Step>, sel: string, listing: seq<Object>, after: seq<Step>)
    requires Proper(m, EmptyShelf, before)
    requires Lists(m, RunSteps(m, EmptyShelf, before).cache, sel, listing)
    ensures var s := WatchStep(RunSteps(m, EmptyShelf, before), sel, listing);
            AlwaysExact(m, s, after, sel, |s.watchers[sel]| - 1) <==> Guarded(m, s, after, sel)
  {
    var s := RunSteps(m, EmptyShelf, before);
    AllAgreeRun(m, EmptyShelf, before);
    ListingShows(m, s.cache, sel, listing);
    var t := WatchStep(s, sel, listing);
    AlwaysExactIff(m, t, after, sel, |t.watchers[sel]| - 1);
  }

  /** Matching depends only on the key. */
  ghost predicate MatchesByKey(m: Match, sel: string) {
    forall a, b :: Key(a) == Key(b) ==> m(sel, a) == m(sel, b)
  }

  lemma {:induction false} KeyMatchingIsGuarded(m: Match, s: Shelf, steps: seq<Step>, sel: string)
    requires MatchesByKey(m, sel) && KeyInv(s.cache)
    requires forall i :: 0 <= i < |steps| && steps[i].Store? ==> !steps[i].op.Replace?
    ensures Guarded(m, s, steps, sel)
    decreases |steps|
  {
    if steps != [] {
      if steps[0].Store? {
        KeyInvStep(s.cache, steps[0].op);
      }
      KeyMatchingIsGuarded(m, TakeStep(m, s, steps[0]), steps[1..], sel);
    }
  }

  /** Without Replace, and when matching depends only on the key, every view equals the filtered store. */
  lemma ExactViews(m: Match, steps: seq<Step>, sel: string, i: nat)
    requires Proper(m, EmptyShelf, steps) && MatchesByKey(m, sel)
    requires forall j :: 0 <= j < |steps| && steps[j].Store? ==> !steps[j].op.Replace?
    requires var s := RunSteps(m, EmptyShelf, steps); sel in s.watchers && i < |s.watchers[sel]|
    ensures var s := RunSteps(m, EmptyShelf, steps);
            Replay(s.watchers[sel][i].sent) == Shown(m, s.cache, sel)
  {
    KeyMatchingIsGuarded(m, EmptyShelf, steps, sel);
    AllExactRun(m, EmptyShelf, steps, sel);
  }

  /** With Replace a view can keep an object the store has dropped. */
  lemma ReplaceLeavesStaleObject(m: Match, sel: string, o: Object)
    requires m(sel, o)
    ensures var steps := [Store(Add(o)), Watch(sel, [o]), Store(Replace([]))];
            && Proper(m, EmptyShelf, steps)
            && var s := RunSteps(m, EmptyShelf, steps);
               sel in s.watchers && |s.watchers[sel]| == 1
               && s.cache == map[] && Replay(s.watchers[sel][0].sent) == map[Key(o) := o]
  {
    var w := Watcher(false, [Event(Added, o)]);
    var s1 := Shelf(map[Key(o) := o], map[]);
    var s2 := Shelf(map[Key(o) := o], map[sel := [w]]);
    var s3 := Shelf(map[], map[sel := [w]]);
    var a, b, c := Store(Add(o)), Watch(sel, [o]), Store(Replace([]));
    FanOutManyKeys(m, map[], EventsOf(Add(o)));
    assert TakeStep(m, EmptyShelf, a) == s1;
    assert AddedEvents([o]) == [Event(Added, o)] && [] + [w] == [w];
    assert TakeStep(m, s1, b) == s2;
    assert TakeStep(m, s2, c) == s3;
    var steps := [a, b, c];
    assert steps[1..] == [b, c] && [b, c][1..] == [c] && [c][1..] == [];
    assert RunSteps(m, s2, [c]) == s3 && RunSteps(m, s1, [b, c]) == s3;
    assert s1.cache[Key(o)] == o;
    assert Proper(m, s2, [c]) && Proper(m, s1, [b, c]);
    ReplayAppend([], Event(Added, o));
    assert [] + [Event(Added, o)] == [Event(Added, o)];
  }

  // ----- Watchers stay open

  lemma {:induction false} FanOutManyOpen(m: Match, rg: Watchers, es: seq<Event>)
    requires AllOpen(rg)
    ensures AllOpen(FanOutMany(m, rg, es)) && FanOutMany(m, rg, es).Keys == rg.Keys
  {
    if es != [] {
      FanOutManyOpen(m, rg, es[..|es| - 1]);
      FanOutKeepsOpen(m, FanOutMany(m, rg, es[..|es| - 1]), es[|es| - 1]);
    }
  }

  lemma {:induction false} OpenRun(m: Match, s: Shelf, steps: seq<Step>)
    requires AllOpen(s.watchers)
    ensures AllOpen(RunSteps(m, s, steps).watchers)
    decreases |steps|
  {
    if steps != [] {
      match steps[0] {
        case Store(op) => FanOutManyOpen(m, s.watchers, EventsOf(op));
        case Watch(sel, listing) => WatchStepOpen(s, sel, listing);
      }
      OpenRun(m, TakeStep(m, s, steps[0]), steps[1..]);
    }
  }

  /** In every run with none closed, every watcher is open, so the emissions of the next operation serve all of them,
      whatever the order in which the map is visited at each. */
  lemma RunsServeAll(m: Match, steps: seq<Step>, op: Op, orders: seq<seq<string>>)
    requires |orders| == |EventsOf(op)|
    requires forall i :: 0 <= i < |orders| ==> Visits(orders[i], RunSteps(m, EmptyShelf, steps).watchers)
    ensures var s := RunSteps(m, EmptyShelf, steps);
            AllOpen(s.watchers) && EmitMany(m, s.watchers, EventsOf(op), orders) == StoreStep(m, s, op).watchers
  {
    OpenRun(m, EmptyShelf, steps);
    EmitManyIsFanOut(m, RunSteps(m, EmptyShelf, steps).watchers, EventsOf(op), orders);
  }
}
