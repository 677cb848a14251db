/** Which tests a set of definitions enables, directly or not, and in which order a test's stages are run. */
module EnabledTests {
  import opened Options
  import opened Graphs

  /** A test needs other tests of its own set; None is a name that stands for none of them. */
  datatype TestDef = TestDef(disabled: bool, needs: seq<Option<Node>>)
  type Tests = map<Node, TestDef>

  function Resolved(needs: seq<Option<Node>>): seq<Node> {
    if needs == [] then []
    else (if needs[0].Some? then [needs[0].value] else []) + Resolved(needs[1..])
  }

  lemma {:induction false} ResolvedHas(needs: seq<Option<Node>>, n: Node)
    ensures n in Resolved(needs) <==> Some(n) in needs
  {
    if needs != [] {
      ResolvedHas(needs[1..], n);
      assert needs == [needs[0]] + needs[1..];
    }
  }

  function Needing(tests: Tests): Graph {
    map t | t in tests :: Resolved(tests[t].needs)
  }

  ghost predicate Valid(tests: Tests) {
    forall t, n | t in tests && Some(n) in tests[t].needs :: n in tests
  }

  predicate AllFound(tests: Tests, t: Node) {
    t in tests && None !in tests[t].needs
  }

  ghost function Enabled(tests: Tests): set<Node> {
    set t | t in tests && !tests[t].disabled
  }

  ghost predicate OnlyEnables(s: Tests, t: Tests) {
    && t.Keys == s.Keys
    && forall n | n in s :: t[n].needs == s[n].needs && (t[n].disabled ==> s[n].disabled)
  }

  lemma EdgeIsNeed(tests: Tests, a: Node, b: Node)
    ensures Edge(Needing(tests), a, b) <==> a in tests && Some(b) in tests[a].needs
  {
    if a in tests {
      ResolvedHas(tests[a].needs, b);
    }
  }

  /** What one descent leaves behind: everything it enabled has its needs enabled, and so has the test it began with. */
  ghost predicate Descended(before: Tests, after: Tests, top: Node) {
    && OnlyEnables(before, after)
    && (forall a, b | a in Enabled(after) - Enabled(before) + {top} && Edge(Needing(before), a, b) :: b in Enabled(after))
    && (forall a | a in Enabled(after) - Enabled(before) + {top} :: AllFound(before, a))
  }

  ghost predicate OnlyReached(before: Tests, after: Tests, top: Node) {
    forall n | n in Enabled(after) - Enabled(before) :: Reach(Needing(before), [top], n)
  }

  ghost predicate Lost(tests: Tests, top: Node) {
    exists n :: Reach(Needing(tests), [top], n) && n in tests && !AllFound(tests, n)
  }

  /** Part of a descent: only the test it began with may still lack something. */
  ghost predicate Partial(start: Tests, now: Tests, t: Node) {
    && OnlyEnables(start, now) && OnlyReached(start, now, t)
    && (forall a, b | a in Enabled(now) - Enabled(start) - {t} && Edge(Needing(start), a, b) :: b in Enabled(now))
    && (forall a | a in Enabled(now) - Enabled(start) - {t} :: AllFound(start, a))
  }

  lemma ChildEnabled(start: Tests, before: Tests, child: Node, enabled: Tests)
    requires OnlyEnables(start, before) && child in before && before[child].disabled
    requires enabled == before[child := before[child].(disabled := false)]
    ensures OnlyEnables(before, enabled) && OnlyEnables(start, enabled) && Enabled(enabled) == Enabled(before) + {child}
    ensures Valid(start) ==> Valid(enabled)
    ensures child !in Enabled(before)
  {
  }

  lemma Returned(start: Tests, before: Tests, enabled: Tests, after: Tests, t: Node, child: Node)
    requires OnlyEnables(start, before) && OnlyReached(start, before, t) && OnlyEnables(before, enabled) && OnlyEnables(enabled, after)
    requires Enabled(enabled) == Enabled(before) + {child}
    requires OnlyReached(enabled, after, child) && Reach(Needing(start), [t], child)
    ensures OnlyEnables(start, after) && OnlyReached(start, after, t)
  {
    SameNeeds(start, before);
    SameNeeds(before, enabled);
    forall n | n in Enabled(after) - Enabled(start) ensures Reach(Needing(start), [t], n) {
      if n in Enabled(after) - Enabled(enabled) {
        ReachOn(Needing(start), [t], child, n);
      }
    }
  }

  lemma LostBelow(start: Tests, enabled: Tests, t: Node, child: Node)
    requires OnlyEnables(start, enabled) && Lost(enabled, child) && Reach(Needing(start), [t], child)
    ensures Lost(start, t)
  {
    SameNeeds(start, enabled);
    var n :| Reach(Needing(enabled), [child], n) && n in enabled && !AllFound(enabled, n);
    ReachOn(Needing(start), [t], child, n);
  }

  class Definitions {
    var tests: Tests

    method EnsureChildrenNotDisabled(t: Node) returns (ok: bool)
      requires Valid(tests) && t in tests
      modifies this
      ensures OnlyEnables(old(tests), tests) && OnlyReached(old(tests), tests, t)
      ensures ok ==> Descended(old(tests), tests, t)
      ensures !ok ==> Lost(old(tests), t)
      decreases tests.Keys - Enabled(tests)
    {
      ghost var start, g := tests, Needing(tests);
      var needs := tests[t].needs;
      ReachRoot(g, [t], t);
      for i := 0 to |needs|
        invariant Partial(start, tests, t)
        invariant forall j | 0 <= j < i :: needs[j].Some? && needs[j].value in Enabled(tests)
      {
        if needs[i].None? {
          assert None in start[t].needs;
          return false;
        }
        var child := needs[i].value;
        assert Some(child) in start[t].needs;
        EdgeIsNeed(start, t, child);
        ReachEdge(g, [t], t, child);
        if tests[child].disabled {
          ghost var before := tests;
          tests := tests[child := tests[child].(disabled := false)];
          ghost var enabled := tests;
          ChildEnabled(start, before, child, enabled);
          ok := EnsureChildrenNotDisabled(child);
          Returned(start, before, enabled, tests, t, child);
          if !ok {
            LostBelow(start, enabled, t, child);
            return;
          }
          Deeper(start, before, enabled, tests, t, child);
        }
      }
      forall b | Edge(g, t, b) ensures b in Enabled(tests) {
        EdgeIsNeed(start, t, b);
      }
      ok := true;
    }

    /** Enables exactly what the tests enabled at first need, directly or not; fails exactly when one of those names no test. */
    method EnsureAllAppropriateChildrenEnabled() returns (ok: bool, ghost roots: seq<Node>)
      requires Valid(tests)
      modifies this
      ensures OnlyEnables(old(tests), tests) && Elems(roots) == Enabled(old(tests))
      ensures ok ==> forall n :: n in Enabled(tests) <==> Reach(Needing(old(tests)), roots, n)
      ensures ok <==> forall n | Reach(Needing(old(tests)), roots, n) :: n in old(tests) && None !in old(tests)[n].needs
    {
      ghost var start := tests;
      roots := Listing(Enabled(start));
      Begins(start, roots);
      var todo := tests.Keys;
      while todo != {}
        invariant todo <= tests.Keys && Going(start, tests, roots, todo)
      {
        var t :| t in todo;
        ghost var before := tests;
        SameNeeds(start, before);
        if !tests[t].disabled {
          ok := EnsureChildrenNotDisabled(t);
          if !ok {
            LostFromRoots(start, before, roots, t);
            return;
          }
          OneMore(start, before, tests, roots, todo, t);
        } else {
          Skip(start, before, roots, todo, t);
        }
        todo := todo - {t};
      }
      SameNeeds(start, tests);
      AllReached(start, tests, roots);
      ok := true;
    }
  }

  /** All that are enabled, but for those still to be looked at, have what they need enabled. */
  ghost predicate Settled(start: Tests, now: Tests, todo: set<Node>) {
    && (forall a, b | a in Enabled(now) && a !in Enabled(start) * todo && Edge(Needing(start), a, b) :: b in Enabled(now))
    && (forall a | a in Enabled(now) && a !in Enabled(start) * todo :: AllFound(start, a))
  }

  lemma Settles(start: Tests, before: Tests, after: Tests, todo: set<Node>, t: Node)
    requires OnlyEnables(start, before) && Descended(before, after, t) && Settled(start, before, todo + {t})
    ensures Settled(start, after, todo)
  {
    SameNeeds(start, before);
    SameNeeds(before, after);
  }

  ghost predicate Going(start: Tests, now: Tests, roots: seq<Node>, todo: set<Node>) {
    && OnlyEnables(start, now) && Settled(start, now, todo)
    && (forall n | n in Enabled(now) :: Reach(Needing(start), roots, n))
  }

  lemma Begins(start: Tests, roots: seq<Node>)
    requires Elems(roots) == Enabled(start)
    ensures Going(start, start, roots, start.Keys) && forall r | r in roots :: r in Enabled(start)
  {
    assert forall n :: n in roots <==> n in Elems(roots);
    forall n | n in roots ensures Reach(Needing(start), roots, n) { ReachRoot(Needing(start), roots, n); }
  }

  lemma OneMore(start: Tests, before: Tests, after: Tests, roots: seq<Node>, todo: set<Node>, t: Node)
    requires Going(start, before, roots, todo) && t in todo && t in Enabled(before)
    requires Descended(before, after, t) && OnlyReached(before, after, t)
    ensures Going(start, after, roots, todo - {t})
  {
    SameNeeds(start, before);
    Reached(Needing(start), before, after, roots, t);
    assert todo - {t} + {t} == todo;
    Settles(start, before, after, todo - {t}, t);
  }

  lemma Skip(start: Tests, now: Tests, roots: seq<Node>, todo: set<Node>, t: Node)
    requires Going(start, now, roots, todo) && t in start && now[t].disabled
    ensures Going(start, now, roots, todo - {t})
  {
    SameNeeds(start, now);
    assert t !in Enabled(start);
    assert Enabled(start) * todo == Enabled(start) * (todo - {t});
  }

  lemma AllReached(start: Tests, now: Tests, roots: seq<Node>)
    requires Settled(start, now, {}) && forall r | r in roots :: r in Enabled(now)
    ensures forall n | Reach(Needing(start), roots, n) :: n in Enabled(now) && AllFound(start, n)
  {
    forall n | Reach(Needing(start), roots, n) ensures n in Enabled(now) && AllFound(start, n) {
      var p :| Leads(Needing(start), roots, p, n);
      StaysIn(Needing(start), Enabled(now), p, |p| - 1);
    }
  }

  lemma LostFromRoots(start: Tests, before: Tests, roots: seq<Node>, t: Node)
    requires OnlyEnables(start, before) && Lost(before, t) && Reach(Needing(start), roots, t)
    ensures exists n :: Reach(Needing(start), roots, n) && !AllFound(start, n)
  {
    SameNeeds(start, before);
    var n :| Reach(Needing(before), [t], n) && n in before && !AllFound(before, n);
    ReachOn(Needing(start), roots, t, n);
  }

  lemma Reached(g: Graph, before: Tests, after: Tests, roots: seq<Node>, t: Node)
    requires g == Needing(before) && Reach(g, roots, t) && OnlyReached(before, after, t)
    requires forall n | n in Enabled(before) :: Reach(g, roots, n)
    ensures forall n | n in Enabled(after) :: Reach(g, roots, n)
  {
    forall n | n in Enabled(after) - Enabled(before) ensures Reach(g, roots, n) {
      ReachOn(g, roots, t, n);
    }
  }

  lemma SameNeeds(s: Tests, t: Tests)
    requires OnlyEnables(s, t)
    ensures Needing(t) == Needing(s) && (Valid(s) ==> Valid(t)) && forall n :: AllFound(t, n) == AllFound(s, n)
    ensures Enabled(s) <= Enabled(t)
  {
  }

  /** A descent into a child that was just enabled, seen from its parent. */
  lemma Deeper(start: Tests, before: Tests, enabled: Tests, after: Tests, t: Node, child: Node)
    requires OnlyEnables(start, before) && OnlyEnables(before, enabled) && Enabled(enabled) == Enabled(before) + {child}
    requires Descended(enabled, after, child) && Partial(start, before, t) && OnlyReached(start, after, t)
    ensures Partial(start, after, t) && Enabled(before) + {child} <= Enabled(after)
  {
    SameNeeds(start, before);
    SameNeeds(before, enabled);
    SameNeeds(enabled, after);
  }

  /*** sortTestStages ***/

  type Body(==, !new)
  datatype Order = Order(at: real)
  datatype Stage = Stage(order: Order, body: Body)

  function OfOrder(stages: seq<Stage>, o: Order): seq<Stage> {
    if stages == [] then []
    else OfOrder(stages[..|stages| - 1], o) + if stages[|stages| - 1].order == o then [stages[|stages| - 1]] else []
  }

  predicate InOrder(stages: seq<Stage>) {
    forall i, j | 0 <= i < j < |stages| :: stages[i].order.at <= stages[j].order.at
  }

  /** Sorted, with the stages of one order as they stood. */
  ghost predicate StablySorted(stages: seq<Stage>, sorted: seq<Stage>) {
    InOrder(sorted) && forall o :: OfOrder(sorted, o) == OfOrder(stages, o)
  }

  lemma {:induction false} OfOrderPlus(s: seq<Stage>, t: seq<Stage>, o: Order)
    ensures OfOrder(s + t, o) == OfOrder(s, o) + OfOrder(t, o)
  {
    if t == [] {
      assert s + t == s;
    } else {
      var u := s + t;
      assert u[..|u| - 1] == s + t[..|t| - 1] && u[|u| - 1] == t[|t| - 1];
      OfOrderPlus(s, t[..|t| - 1], o);
    }
  }

  lemma OfOrderLast(stages: seq<Stage>, o: Order)
    requires stages != []
    ensures var front, last := stages[..|stages| - 1], stages[|stages| - 1];
      OfOrder(stages, o) == if last.order == o then OfOrder(front, o) + [last] else OfOrder(front, o)
  {
  }

  lemma OfOrderOne(stage: Stage, o: Order)
    ensures OfOrder([stage], o) == if stage.order == o then [stage] else []
  {
    assert [stage][..0] == [];
  }

  lemma {:induction false} OfOrderAgain(stages: seq<Stage>, o: Order, p: Order)
    ensures OfOrder(OfOrder(stages, o), p) == if p == o then OfOrder(stages, o) else []
    ensures forall x | x in OfOrder(stages, o) :: x.order == o
  {
    if stages != [] {
      var front, last := stages[..|stages| - 1], stages[|stages| - 1];
      OfOrderAgain(front, o, p);
      OfOrderLast(stages, o);
      if last.order == o {
        OfOrderPlus(OfOrder(front, o), [last], p);
        OfOrderOne(last, p);
        assert OfOrder(OfOrder(stages, o), p) == OfOrder(OfOrder(front, o), p) + OfOrder([last], p);
        assert p != o ==> OfOrder(OfOrder(stages, o), p) == [] + [];
      }
    }
  }

  lemma {:induction false} OfOrderNone(stages: seq<Stage>, o: Order)
    ensures OfOrder(stages, o) != [] <==> exists x :: x in stages && x.order == o
  {
    if stages != [] {
      var front, last := stages[..|stages| - 1], stages[|stages| - 1];
      OfOrderNone(front, o);
      assert stages == front + [last];
    }
  }

  /** There is one stable sort. */
  lemma {:induction false} OneStableSort(a: seq<Stage>, b: seq<Stage>)
    requires InOrder(a) && InOrder(b) && forall o :: OfOrder(a, o) == OfOrder(b, o)
    ensures a == b
  {
    if a == [] || b == [] {
      if b != [] { OfOrderNone(b, b[0].order); OfOrderNone(a, b[0].order); }
      if a != [] { OfOrderNone(a, a[0].order); OfOrderNone(b, a[0].order); }
    } else {
      var x, y, c, d := a[|a| - 1], b[|b| - 1], a[..|a| - 1], b[..|b| - 1];
      NoHigherLast(a, b, y);
      NoHigherLast(b, a, x);
      forall o ensures OfOrder(c, o) == OfOrder(d, o) && x == y {
        assert OfOrder(a, x.order) == OfOrder(b, x.order);
        SameLast(a, b);
        SameFront(a, b, o);
      }
      OneStableSort(c, d);
      assert a == c + [x] && b == d + [y];
    }
  }

  /** What is last of all is not lower than what is last in another arrangement. */
  lemma NoHigherLast(a: seq<Stage>, b: seq<Stage>, y: Stage)
    requires a != [] && InOrder(a) && y in b && OfOrder(a, y.order) == OfOrder(b, y.order)
    ensures y.order.at <= a[|a| - 1].order.at
  {
    OfOrderNone(a, y.order);
    OfOrderNone(b, y.order);
    var z :| z in a && z.order == y.order;
  }

  lemma SameLast(a: seq<Stage>, b: seq<Stage>)
    requires a != [] && b != [] && a[|a| - 1].order == b[|b| - 1].order
    requires OfOrder(a, a[|a| - 1].order) == OfOrder(b, a[|a| - 1].order)
    ensures a[|a| - 1] == b[|b| - 1]
  {
    var x, y := a[|a| - 1], b[|b| - 1];
    OfOrderLast(a, x.order);
    OfOrderLast(b, x.order);
    LastOf(OfOrder(a[..|a| - 1], x.order), x);
    LastOf(OfOrder(b[..|b| - 1], x.order), y);
  }

  lemma LastOf(s: seq<Stage>, x: Stage)
    ensures (s + [x])[|s + [x]| - 1] == x && (s + [x])[..|s + [x]| - 1] == s
  {
  }

  lemma SameFront(a: seq<Stage>, b: seq<Stage>, o: Order)
    requires a != [] && b != [] && a[|a| - 1] == b[|b| - 1] && OfOrder(a, o) == OfOrder(b, o)
    ensures OfOrder(a[..|a| - 1], o) == OfOrder(b[..|b| - 1], o)
  {
    var x := a[|a| - 1];
    OfOrderLast(a, o);
    OfOrderLast(b, o);
    LastOf(OfOrder(a[..|a| - 1], o), x);
    LastOf(OfOrder(b[..|b| - 1], o), x);
  }

  method Least(s: set<Order>) returns (least: Order)
    requires s != {}
    ensures least in s && forall x | x in s :: least.at <= x.at
  {
    least :| least in s;
    var todo := s - {least};
    while todo != {}
      invariant todo <= s && least in s && forall x | x in s - todo :: least.at <= x.at
    {
      var x :| x in todo;
      if x.at < least.at {
        least := x;
      }
      todo := todo - {x};
    }
  }

  method SortTestStages(stages: seq<Stage>) returns (result: seq<Stage>)
    ensures StablySorted(stages, result)
  {
    var orders := ByOrder(stages);
    result := [];
    var todo := orders.Keys;
    while todo != {}
      invariant todo <= orders.Keys && SortedBelow(stages, orders, todo, result)
    {
      var o := Least(todo);
      OneOrderMore(stages, orders, todo, result, o);
      result := result + orders[o];
      todo := todo - {o};
    }
    forall o ensures OfOrder(result, o) == OfOrder(stages, o) {
      assert OfOrder(result, o) == Put(orders, {}, o);
    }
  }

  ghost predicate Filed(stages: seq<Stage>, orders: map<Order, seq<Stage>>) {
    forall o {:trigger o in orders} {:trigger OfOrder(stages, o)} :: (o in orders <==> OfOrder(stages, o) != []) && (o in orders ==> orders[o] == OfOrder(stages, o))
  }

  ghost function Put(orders: map<Order, seq<Stage>>, todo: set<Order>, o: Order): seq<Stage> {
    if o in orders && o !in todo then orders[o] else []
  }

  /** The result has all stages whose order is not to be dealt with yet, sorted, and those are above it. */
  ghost predicate SortedBelow(stages: seq<Stage>, orders: map<Order, seq<Stage>>, todo: set<Order>, result: seq<Stage>) {
    && Filed(stages, orders) && InOrder(result)
    && (forall x, o | x in result && o in todo :: x.order.at < o.at)
    && (forall o {:trigger OfOrder(result, o)} :: OfOrder(result, o) == Put(orders, todo, o))
  }

  lemma OneOrderMore(stages: seq<Stage>, orders: map<Order, seq<Stage>>, todo: set<Order>, was: seq<Stage>, o: Order)
    requires SortedBelow(stages, orders, todo, was) && o in todo && o in orders && forall x | x in todo :: o.at <= x.at
    ensures SortedBelow(stages, orders, todo - {o}, was + orders[o])
  {
    var next := orders[o];
    assert next == OfOrder(stages, o);
    forall p ensures OfOrder(was + next, p) == Put(orders, todo - {o}, p) {
      PutOneMore(stages, orders, todo, was, o, p);
    }
    OfOrderAgain(stages, o, o);
    AppendInOrder(was, next, o);
    assert forall p | p in todo - {o} :: o.at < p.at;
  }

  lemma PutOneMore(stages: seq<Stage>, orders: map<Order, seq<Stage>>, todo: set<Order>, was: seq<Stage>, o: Order, p: Order)
    requires Filed(stages, orders) && o in todo && o in orders && OfOrder(was, p) == Put(orders, todo, p)
    ensures OfOrder(was + orders[o], p) == Put(orders, todo - {o}, p)
  {
    assert orders[o] == OfOrder(stages, o);
    OfOrderPlus(was, orders[o], p);
    OfOrderAgain(stages, o, p);
  }

  lemma AppendInOrder(s: seq<Stage>, t: seq<Stage>, o: Order)
    requires InOrder(s) && (forall x | x in s :: x.order.at < o.at) && (forall x | x in t :: x.order == o)
    ensures InOrder(s + t) && forall x | x in s + t :: x.order.at <= o.at
  {
    assert forall x | x in s + t :: x in s || x in t;
    var u := s + t;
    forall i, j | 0 <= i < j < |u| ensures u[i].order.at <= u[j].order.at {
      assert i < |s| ==> u[i] in s;
      assert j < |s| ==> u[j] in s;
      assert i >= |s| ==> u[i] in t;
      assert j >= |s| ==> u[j] in t;
    }
  }

  method ByOrder(stages: seq<Stage>) returns (orders: map<Order, seq<Stage>>)
    ensures Filed(stages, orders)
  {
    orders := map[];
    for i := 0 to |stages|
      invariant Filed(stages[..i], orders)
    {
      var stage := stages[i];
      assert stages[..i + 1][..i] == stages[..i];
      if stage.order !in orders {
        orders := orders[stage.order := []];
      }
      orders := orders[stage.order := orders[stage.order] + [stage]];
    }
    assert stages[..|stages|] == stages;
  }
}
