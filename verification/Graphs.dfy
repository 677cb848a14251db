/** Graph walks: what is reachable, whether it loops, and how it falls into levels. */
module Graphs {
  import opened Options

  type Node(==, !new)

  /** What the edge function answers on the finitely many nodes it can lead to. */
  type Graph = map<Node, seq<Node>>

  predicate Edge(g: Graph, a: Node, b: Node) {
    a in g && b in g[a]
  }

  ghost predicate Closed(g: Graph) {
    forall a, b | Edge(g, a, b) :: b in g
  }

  ghost predicate Rooted(g: Graph, roots: seq<Node>) {
    Closed(g) && forall r | r in roots :: r in g
  }

  ghost predicate Step(g: Graph, p: seq<Node>, i: nat)
    requires i + 1 < |p|
  {
    Edge(g, p[i], p[i + 1])
  }

  ghost predicate Path(g: Graph, p: seq<Node>) {
    p != [] && forall i: nat {:trigger Step(g, p, i)} | i + 1 < |p| :: Step(g, p, i)
  }

  ghost function Last(p: seq<Node>): Node
    requires p != []
  {
    p[|p| - 1]
  }

  ghost predicate Leads(g: Graph, roots: seq<Node>, p: seq<Node>, n: Node) {
    Path(g, p) && p[0] in roots && Last(p) == n
  }

  ghost predicate Reach(g: Graph, roots: seq<Node>, n: Node) {
    exists p :: Leads(g, roots, p, n)
  }

  /** A path from a root whose last node it has met before. */
  ghost predicate Loop(g: Graph, roots: seq<Node>, p: seq<Node>) {
    Path(g, p) && p[0] in roots && Last(p) in p[..|p| - 1]
  }

  ghost predicate Cyclic(g: Graph, roots: seq<Node>) {
    exists p :: Loop(g, roots, p)
  }

  predicate Distinct(s: seq<Node>) {
    forall i, j | 0 <= i < j < |s| :: s[i] != s[j]
  }

  /*** Paths ***/

  lemma Joined(g: Graph, p: seq<Node>, q: seq<Node>)
    requires Path(g, p) && Path(g, q) && Last(p) == q[0]
    ensures Path(g, p + q[1..]) && Last(p + q[1..]) == Last(q)
  {
    var r := p + q[1..];
    forall i: nat | i + 1 < |r| ensures Step(g, r, i) {
      if i + 1 < |p| {
        assert Step(g, p, i);
      } else {
        assert Step(g, q, i + 1 - |p|);
      }
    }
  }

  lemma Part(g: Graph, p: seq<Node>, i: nat, j: nat)
    requires Path(g, p) && i < j <= |p|
    ensures Path(g, p[i..j])
  {
    forall k: nat | k + 1 < j - i ensures Step(g, p[i..j], k) {
      assert Step(g, p, i + k);
    }
  }

  lemma Hop(g: Graph, a: Node, b: Node)
    requires Edge(g, a, b)
    ensures Path(g, [a, b])
  {
    assert Step(g, [a, b], 0);
  }

  lemma ReachRoot(g: Graph, roots: seq<Node>, r: Node)
    requires r in roots
    ensures Reach(g, roots, r)
  {
    assert Leads(g, roots, [r], r);
  }

  lemma ReachOn(g: Graph, roots: seq<Node>, a: Node, n: Node)
    requires Reach(g, roots, a) && Reach(g, [a], n)
    ensures Reach(g, roots, n)
  {
    var p :| Leads(g, roots, p, a);
    var q :| Leads(g, [a], q, n);
    Joined(g, p, q);
    assert Leads(g, roots, p + q[1..], n);
  }

  lemma ReachEdge(g: Graph, roots: seq<Node>, a: Node, b: Node)
    requires Reach(g, roots, a) && Edge(g, a, b)
    ensures Reach(g, roots, b) && Reach(g, [a], b)
  {
    Hop(g, a, b);
    assert Leads(g, [a], [a, b], b);
    ReachOn(g, roots, a, b);
  }

  /** A set that holds the start of a path and every child of its own members holds the whole path. */
  lemma {:induction false} StaysIn(g: Graph, all: set<Node>, p: seq<Node>, k: nat)
    requires Path(g, p) && p[0] in all && k < |p|
    requires forall a, b | a in all && Edge(g, a, b) :: b in all
    ensures p[k] in all
  {
    if k > 0 {
      StaysIn(g, all, p, k - 1);
      assert Step(g, p, k - 1);
    }
  }

  /*** findAllNodes ***/

  method Walk(g: Graph, node: Node, seen: set<Node>) returns (all: set<Node>)
    requires Closed(g) && node in g && seen <= g.Keys
    ensures seen <= all <= g.Keys && node in all
    ensures forall n | n in all - seen :: Reach(g, [node], n)
    ensures forall a, b | a in all - seen && Edge(g, a, b) :: b in all
    decreases g.Keys - seen
  {
    if node in seen {
      return seen;
    }
    all := seen + {node};
    ReachRoot(g, [node], node);
    for i := 0 to |g[node]|
      invariant seen + {node} <= all <= g.Keys
      invariant forall n | n in all - seen :: Reach(g, [node], n)
      invariant forall a, b | a in all - seen - {node} && Edge(g, a, b) :: b in all
      invariant forall b | b in g[node][..i] :: b in all
    {
      var child := g[node][i];
      assert Edge(g, node, child);
      var more := Walk(g, child, all);
      forall n | n in more - all ensures Reach(g, [node], n) {
        ReachEdge(g, [node], node, child);
        ReachOn(g, [node], child, n);
      }
      all := more;
    }
  }

  method FindAllNodes(g: Graph, nodes: seq<Node>) returns (all: set<Node>)
    requires Rooted(g, nodes)
    ensures forall n :: n in all <==> Reach(g, nodes, n)
    ensures all <= g.Keys
  {
    all := {};
    for i := 0 to |nodes|
      invariant all <= g.Keys
      invariant forall n | n in all :: Reach(g, nodes, n)
      invariant forall a, b | a in all && Edge(g, a, b) :: b in all
      invariant forall r | r in nodes[..i] :: r in all
    {
      var more := Walk(g, nodes[i], all);
      forall n | n in more - all ensures Reach(g, nodes, n) {
        ReachRoot(g, nodes, nodes[i]);
        ReachOn(g, nodes, nodes[i], n);
      }
      all := more;
    }
    forall n | Reach(g, nodes, n) ensures n in all {
      var p :| Leads(g, nodes, p, n);
      StaysIn(g, all, p, |p| - 1);
    }
  }

  /*** graphFindCycleMultipleRoots ***/

  /** Listed after all of its children, and once. */
  ghost predicate Listed(g: Graph, order: seq<Node>, i: nat)
    requires i < |order|
  {
    order[i] !in order[..i] && forall b | Edge(g, order[i], b) :: b in order[..i]
  }

  /** An order that shows there is no cycle among its nodes. */
  ghost predicate Sorted(g: Graph, order: seq<Node>) {
    forall i: nat {:trigger Listed(g, order, i)} | i < |order| :: Listed(g, order, i)
  }

  ghost predicate SameNodes(s: set<Node>, order: seq<Node>) {
    forall n :: n in s <==> n in order
  }

  lemma {:induction false} PathGoesDown(g: Graph, order: seq<Node>, p: seq<Node>, i: nat, k: nat)
    requires Sorted(g, order) && Path(g, p) && i < |order| && p[0] == order[i] && 0 < k < |p|
    ensures p[k] in order[..i]
  {
    assert Step(g, p, 0) && Listed(g, order, i);
    if k > 1 {
      var j :| 0 <= j < i && order[j] == p[1];
      Part(g, p, 1, |p|);
      assert p[1..|p|] == p[1..];
      PathGoesDown(g, order, p[1..], j, k - 1);
    }
  }

  lemma SortedNoCycle(g: Graph, order: seq<Node>, roots: seq<Node>)
    requires Sorted(g, order) && forall r | r in roots :: r in order
    ensures !Cyclic(g, roots)
  {
    if Cyclic(g, roots) {
      var p :| Loop(g, roots, p);
      var k :| 0 <= k < |p| - 1 && p[k] == Last(p);
      var all := set n | n in order;
      forall a, b | a in all && Edge(g, a, b) ensures b in all {
        var i :| 0 <= i < |order| && order[i] == a;
        assert Listed(g, order, i);
      }
      StaysIn(g, all, p, k);
      var i :| 0 <= i < |order| && order[i] == p[k];
      Part(g, p, k, |p|);
      assert p[k..|p|] == p[k..];
      assert Listed(g, order, i);
      PathGoesDown(g, order, p[k..], i, |p| - 1 - k);
      assert false;
    }
  }

  lemma Extended(g: Graph, order: seq<Node>, n: Node)
    requires Sorted(g, order) && n !in order && forall b | Edge(g, n, b) :: b in order
    ensures Sorted(g, order + [n])
  {
    var longer := order + [n];
    forall i: nat | i < |longer| ensures Listed(g, longer, i) {
      assert longer[..i] == order[..i];
      if i < |order| {
        assert Listed(g, order, i);
      } else {
        assert order[..i] == order;
      }
    }
  }

  /** Looks for a cycle below `node`, which hangs under `above`; `clear` holds what is known to be free of cycles. */
  method Check(g: Graph, node: Node, above: seq<Node>, clear: set<Node>, ghost order: seq<Node>)
    returns (cycle: Option<seq<Node>>, clear': set<Node>, ghost order': seq<Node>)
    requires Closed(g) && node in g && node !in above && (forall a | a in above :: a in g && a !in clear)
    requires Path(g, above + [node])
    requires Sorted(g, order) && SameNodes(clear, order)
    ensures cycle.Some? ==> Loop(g, [(above + [node])[0]], cycle.value)
    ensures cycle.None? ==> node in clear' && clear <= clear' && Sorted(g, order') && SameNodes(clear', order')
    ensures cycle.None? ==> forall a | a in above :: a !in clear'
    decreases g.Keys - set a | a in above
  {
    if node in clear {
      return None, clear, order;
    }
    var here := above + [node];
    clear', order' := clear, order;
    for i := 0 to |g[node]|
      invariant clear <= clear' && Sorted(g, order') && SameNodes(clear', order')
      invariant forall a | a in here :: a !in clear'
      invariant forall b | b in g[node][..i] :: b in clear'
    {
      var child := g[node][i];
      Hop(g, node, child);
      Joined(g, here, [node, child]);
      assert here + [node, child][1..] == here + [child];
      if child in here {
        assert Loop(g, [here[0]], here + [child]);
        return Some(here + [child]), clear', order';
      }
      assert Edge(g, node, child) && (set a | a in here) == (set a | a in above) + {node};
      cycle, clear', order' := Check(g, child, here, clear', order');
      if cycle.Some? {
        return;
      }
    }
    assert g[node][..|g[node]|] == g[node];
    Extended(g, order', node);
    clear', order' := clear' + {node}, order' + [node];
    cycle := None;
  }

  /** Finds a path that runs into itself exactly when there is one. */
  method FindCycle(g: Graph, roots: seq<Node>) returns (cycle: Option<seq<Node>>)
    requires Rooted(g, roots)
    ensures cycle.Some? <==> Cyclic(g, roots)
    ensures cycle.Some? ==> Loop(g, roots, cycle.value)
  {
    var clear: set<Node> := {};
    ghost var order := [];
    for i := 0 to |roots|
      invariant Sorted(g, order) && SameNodes(clear, order)
      invariant forall r | r in roots[..i] :: r in clear
    {
      cycle, clear, order := Check(g, roots[i], [], clear, order);
      if cycle.Some? {
        assert Loop(g, roots, cycle.value);
        return;
      }
    }
    SortedNoCycle(g, order, roots);
    cycle := None;
  }

  /*** placeNodesInLevels ***/

  /** Repeated edges make the removal of an edge fail with a missing key. */
  datatype Outcome = Placed(groups: seq<seq<Node>>) | CycleFound | MissingKey

  predicate At(groups: seq<seq<Node>>, k: nat, n: Node) {
    k < |groups| && n in groups[k]
  }

  ghost predicate InSome(groups: seq<seq<Node>>, n: Node) {
    exists k: nat :: At(groups, k, n)
  }

  /** Each reachable node stands once, in the group right after the last of those that lead to it. */
  ghost predicate Leveled(g: Graph, roots: seq<Node>, groups: seq<seq<Node>>) {
    && (forall n :: InSome(groups, n) <==> Reach(g, roots, n))
    && Once(groups)
    && Rising(g, groups)
    && Tight(g, groups)
  }

  ghost predicate Once(groups: seq<seq<Node>>) {
    && (forall k: nat | k < |groups| :: Distinct(groups[k]))
    && (forall i: nat, j: nat, n | At(groups, i, n) && At(groups, j, n) :: i == j)
  }

  ghost predicate Rising(g: Graph, groups: seq<seq<Node>>) {
    forall i: nat, j: nat, a, b | At(groups, i, a) && At(groups, j, b) && Edge(g, a, b) :: i < j
  }

  ghost predicate Fed(g: Graph, groups: seq<seq<Node>>, k: nat, n: Node)
    requires k > 0
  {
    exists a :: At(groups, k - 1, a) && Edge(g, a, n)
  }

  ghost predicate Tight(g: Graph, groups: seq<seq<Node>>) {
    forall k: nat, n | k > 0 && At(groups, k, n) :: Fed(g, groups, k, n)
  }

  ghost function Parents(g: Graph, all: set<Node>, n: Node): set<Node> {
    set a | a in all && Edge(g, a, n)
  }

  /** Whom a node still waits for; it is gone from the map when that is nobody. */
  function Awaits(waiting: map<Node, set<Node>>, n: Node): set<Node> {
    if n in waiting then waiting[n] else {}
  }

  ghost predicate Tidy(waiting: map<Node, set<Node>>) {
    forall n | n in waiting :: waiting[n] != {}
  }

  /** Who still waits for whom, when `done` nodes have had their edges removed and `front` waits for nobody. */
  ghost predicate Halfway(g: Graph, all: set<Node>, done: set<Node>, front: set<Node>, waiting: map<Node, set<Node>>) {
    && done <= all && waiting.Keys <= all && front <= all
    && Tidy(waiting)
    && (forall n {:trigger Awaits(waiting, n)} | n in all :: Awaits(waiting, n) == Parents(g, all, n) - done)
    && (forall n {:trigger Awaits(waiting, n)} | n in done :: Awaits(waiting, n) == {})
    && (forall n {:trigger Awaits(waiting, n)} {:trigger n in front} | n in all :: n in front <==> n !in done && Awaits(waiting, n) == {})
  }

  ghost predicate Complete(g: Graph, all: set<Node>) {
    all <= g.Keys && forall a, b | a in all && Edge(g, a, b) :: b in all
  }

  method ReverseEdges(g: Graph, all: set<Node>) returns (waiting: map<Node, set<Node>>)
    requires Complete(g, all)
    ensures waiting.Keys == all && forall n | n in all :: waiting[n] == Parents(g, all, n)
  {
    waiting := map n | n in all :: {};
    var todo := all;
    ghost var seen := {};
    while todo != {}
      invariant todo <= all && seen == all - todo && waiting.Keys == all
      invariant forall n | n in all :: waiting[n] == Parents(g, seen, n)
    {
      var a :| a in todo;
      waiting := AddEdges(g, all, a, waiting);
      forall n | n in all ensures waiting[n] == Parents(g, seen + {a}, n) {
        ParentsPlus(g, seen, a, n);
      }
      todo, seen := todo - {a}, seen + {a};
    }
  }

  lemma ParentsPlus(g: Graph, seen: set<Node>, a: Node, n: Node)
    ensures Parents(g, seen + {a}, n) == Parents(g, seen, n) + if Edge(g, a, n) then {a} else {}
  {
  }

  method AddEdges(g: Graph, all: set<Node>, a: Node, was: map<Node, set<Node>>) returns (waiting: map<Node, set<Node>>)
    requires Complete(g, all) && a in all && was.Keys == all
    ensures waiting.Keys == all && forall n | n in all :: waiting[n] == was[n] + if Edge(g, a, n) then {a} else {}
  {
    waiting := was;
    for i := 0 to |g[a]|
      invariant waiting.Keys == all
      invariant forall n | n in all :: waiting[n] == if n in g[a][..i] then was[n] + {a} else was[n]
    {
      var child := g[a][i];
      assert Edge(g, a, child);
      waiting := waiting[child := waiting[child] + {a}];
    }
    assert g[a][..|g[a]|] == g[a];
  }

  /** What is left of the waiting lists when `n` has had its edges to `children` removed. */
  ghost predicate Relaxed(was: map<Node, set<Node>>, n: Node, children: seq<Node>, now: map<Node, set<Node>>, freed: seq<Node>) {
    && Tidy(now) && now.Keys <= was.Keys
    && (forall m :: Awaits(now, m) == if m in children then Awaits(was, m) - {n} else Awaits(was, m))
    && (forall m :: m in freed <==> m in children && m in was && Awaits(now, m) == {})
    && Distinct(freed)
  }

  /** Removes the edges of `n`; a child met twice is no longer there to remove. */
  method Relax(g: Graph, ghost all: set<Node>, ghost done: set<Node>, ghost front: set<Node>, was: map<Node, set<Node>>, n: Node)
    returns (ok: bool, now: map<Node, set<Node>>, freed: seq<Node>)
    requires Complete(g, all) && Halfway(g, all, done, front, was) && n in front
    ensures ok <==> Distinct(g[n])
    ensures ok ==> Relaxed(was, n, g[n], now, freed)
  {
    now, freed := was, [];
    for i := 0 to |g[n]|
      invariant Relaxed(was, n, g[n][..i], now, freed)
      invariant Distinct(g[n][..i])
    {
      var child := g[n][i];
      ChildWaits(g, all, done, front, was, n, child);
      StillThere(was, n, g[n][..i], now, freed, child);
      OneMoreDistinct(g[n], i);
      if child !in now || n !in now[child] {
        return false, now, freed;
      }
      ghost var before, soFar := now, freed;
      now := now[child := now[child] - {n}];
      if now[child] == {} {
        freed := freed + [child];
        now := now - {child};
      }
      RelaxedOne(was, n, g[n][..i], before, soFar, child, now, freed);
    }
    assert g[n][..|g[n]|] == g[n];
    ok := true;
  }

  lemma OneMoreDistinct(s: seq<Node>, i: nat)
    requires i < |s| && Distinct(s[..i])
    ensures s[..i + 1] == s[..i] + [s[i]]
    ensures if s[i] in s[..i] then !Distinct(s) else Distinct(s[..i + 1])
  {
    if s[i] in s[..i] {
      var j :| 0 <= j < i && s[..i][j] == s[i];
      assert s[j] == s[i];
    }
  }

  lemma StillThere(was: map<Node, set<Node>>, n: Node, children: seq<Node>, now: map<Node, set<Node>>, freed: seq<Node>, child: Node)
    requires Relaxed(was, n, children, now, freed) && n in Awaits(was, child)
    ensures child in now && n in now[child] <==> child !in children
  {
    assert Awaits(now, child) == if child in children then Awaits(was, child) - {n} else Awaits(was, child);
  }

  lemma ChildWaits(g: Graph, all: set<Node>, done: set<Node>, front: set<Node>, waiting: map<Node, set<Node>>, n: Node, child: Node)
    requires Complete(g, all) && Halfway(g, all, done, front, waiting) && n in front && Edge(g, n, child)
    ensures n in Awaits(waiting, child)
  {
    assert n in Parents(g, all, child);
  }

  lemma RelaxedOne(was: map<Node, set<Node>>, n: Node, children: seq<Node>, before: map<Node, set<Node>>, soFar: seq<Node>,
                   child: Node, now: map<Node, set<Node>>, freed: seq<Node>)
    requires Relaxed(was, n, children, before, soFar) && child in before && child !in children
    requires var left := before[child] - {n};
      if left == {} then now == before - {child} && freed == soFar + [child] else now == before[child := left] && freed == soFar
    ensures Relaxed(was, n, children + [child], now, freed)
  {
    assert Awaits(now, child) == Awaits(before, child) - {n};
    assert forall m | m != child :: Awaits(now, m) == Awaits(before, m);
  }

  lemma RelaxedHalfway(g: Graph, all: set<Node>, done: set<Node>, front: set<Node>, was: map<Node, set<Node>>, n: Node,
                       now: map<Node, set<Node>>, freed: seq<Node>)
    requires Complete(g, all) && Halfway(g, all, done, front, was) && n in front
    requires Relaxed(was, n, g[n], now, freed)
    ensures Halfway(g, all, done + {n}, front - {n} + (set m | m in freed), now)
  {
    forall m | m in all
      ensures Awaits(now, m) == Parents(g, all, m) - (done + {n})
      ensures m in done + {n} ==> Awaits(now, m) == {}
      ensures m in freed <==> Awaits(was, m) != {} && Awaits(now, m) == {}
    {
      RelaxedNode(g, all, done, front, was, n, now, freed, m);
    }
  }

  lemma RelaxedNode(g: Graph, all: set<Node>, done: set<Node>, front: set<Node>, was: map<Node, set<Node>>, n: Node,
                    now: map<Node, set<Node>>, freed: seq<Node>, m: Node)
    requires Complete(g, all) && Halfway(g, all, done, front, was) && n in front && m in all
    requires Relaxed(was, n, g[n], now, freed)
    ensures Awaits(now, m) == Parents(g, all, m) - (done + {n})
    ensures m in done + {n} ==> Awaits(now, m) == {}
    ensures m in freed <==> Awaits(was, m) != {} && Awaits(now, m) == {}
  {
    assert Awaits(now, m) == if m in g[n] then Awaits(was, m) - {n} else Awaits(was, m);
    assert n in Parents(g, all, m) <==> m in g[n];
    assert Awaits(was, m) == Parents(g, all, m) - done;
  }

  function Elems(s: seq<Node>): set<Node> {
    set n | n in s
  }

  /** New in the next group: held back by the last group only. */
  ghost predicate Next(g: Graph, done: set<Node>, group: seq<Node>, ready: seq<Node>) {
    && Distinct(ready)
    && forall m | m in ready :: m !in done && m !in group && exists a :: a in group && Edge(g, a, m)
  }

  method RelaxGroup(g: Graph, ghost all: set<Node>, ghost done: set<Node>, group: seq<Node>, was: map<Node, set<Node>>)
    returns (ok: bool, now: map<Node, set<Node>>, ready: seq<Node>)
    requires Complete(g, all) && Halfway(g, all, done, Elems(group), was) && Distinct(group)
    ensures ok <==> forall n | n in group :: Distinct(g[n])
    ensures ok ==> Halfway(g, all, done + Elems(group), Elems(ready), now) && Next(g, done, group, ready)
  {
    now, ready := was, [];
    GroupEnds(done, group);
    for i := 0 to |group|
      invariant Halfway(g, all, done + Elems(group[..i]), Elems(group[i..] + ready), now)
      invariant Next(g, done, group, ready)
      invariant forall n | n in group[..i] :: Distinct(g[n])
    {
      var n := group[i];
      assert n in group[i..] + ready;
      ghost var before := now;
      var freed: seq<Node>;
      ok, now, freed := Relax(g, all, done + Elems(group[..i]), Elems(group[i..] + ready), now, n);
      if !ok {
        return;
      }
      GroupStep(g, all, done, group, i, ready, before, now, freed);
      ready := ready + freed;
    }
    assert group[|group|..] + ready == ready && group[..|group|] == group;
    ok := true;
  }

  lemma GroupEnds(done: set<Node>, group: seq<Node>)
    ensures group[0..] + [] == group && done + Elems(group[..0]) == done
  {
  }

  lemma GroupStep(g: Graph, all: set<Node>, done: set<Node>, group: seq<Node>, i: nat, ready: seq<Node>,
                  before: map<Node, set<Node>>, now: map<Node, set<Node>>, freed: seq<Node>)
    requires i < |group| && Distinct(group) && Next(g, done, group, ready)
    requires Complete(g, all) && group[i] in g
    requires Halfway(g, all, done + Elems(group[..i]), Elems(group[i..] + ready), before)
    requires Relaxed(before, group[i], g[group[i]], now, freed)
    ensures Halfway(g, all, done + Elems(group[..i + 1]), Elems(group[i + 1..] + (ready + freed)), now)
    ensures Next(g, done, group, ready + freed)
  {
    var n, gone, front := group[i], done + Elems(group[..i]), Elems(group[i..] + ready);
    FreedIsNext(g, all, done, group, i, ready, before, now, freed);
    assert n in group[i..] + ready;
    RelaxedHalfway(g, all, gone, front, before, n, now, freed);
    SetsMove(done, group, i, ready, freed);
  }

  lemma SetsMove(done: set<Node>, group: seq<Node>, i: nat, ready: seq<Node>, freed: seq<Node>)
    requires i < |group| && Distinct(group) && group[i] !in ready + freed
    ensures done + Elems(group[..i]) + {group[i]} == done + Elems(group[..i + 1])
    ensures Elems(group[i..] + ready) - {group[i]} + (set m | m in freed) == Elems(group[i + 1..] + (ready + freed))
  {
    assert group[..i + 1] == group[..i] + [group[i]];
    assert group[i..] == [group[i]] + group[i + 1..];
  }

  lemma FreedIsNext(g: Graph, all: set<Node>, done: set<Node>, group: seq<Node>, i: nat, ready: seq<Node>,
                    before: map<Node, set<Node>>, now: map<Node, set<Node>>, freed: seq<Node>)
    requires i < |group| && Distinct(group) && Next(g, done, group, ready)
    requires Complete(g, all) && group[i] in g
    requires Halfway(g, all, done + Elems(group[..i]), Elems(group[i..] + ready), before)
    requires Relaxed(before, group[i], g[group[i]], now, freed)
    ensures Next(g, done, group, ready + freed)
    ensures group[i] !in ready + freed
  {
    assert group == group[..i] + group[i..];
    forall m | m in freed ensures m !in done && m !in group && m !in ready && Edge(g, group[i], m) {
      assert Awaits(before, m) != {};
      assert m !in done + Elems(group[..i]);
      assert m !in Elems(group[i..] + ready);
      assert m !in group[i..] + ready;
    }
    assert group[i] in group;
    DistinctPlus(ready, freed);
  }

  lemma DistinctPlus(s: seq<Node>, t: seq<Node>)
    requires Distinct(s) && Distinct(t) && forall n | n in t :: n !in s
    ensures Distinct(s + t)
  {
    var u := s + t;
    forall i, j | 0 <= i < j < |u| ensures u[i] != u[j] {
      assert u[j] == if j < |s| then s[j] else t[j - |s|];
      if i < |s| <= j { assert u[j] in t && u[i] in s; }
    }
  }

  /** Groups so far, where everything comes right after the last of its parents. */
  ghost predicate Grown(g: Graph, all: set<Node>, groups: seq<seq<Node>>) {
    && Once(groups) && Tight(g, groups)
    && (forall k: nat, n | At(groups, k, n) :: n in all && Parents(g, all, n) <= Before(all, groups, k))
  }

  ghost function Before(all: set<Node>, groups: seq<seq<Node>>, k: nat): set<Node> {
    set n | n in all && exists j: nat :: j < k && At(groups, j, n)
  }

  lemma GrownPlus(g: Graph, all: set<Node>, groups: seq<seq<Node>>, ready: seq<Node>)
    requires Grown(g, all, groups) && Distinct(ready)
    requires forall n | n in ready :: n in all && !InSome(groups, n) && Parents(g, all, n) <= Before(all, groups, |groups|)
    requires groups != [] ==> forall n | n in ready :: Fed(g, groups, |groups|, n)
    ensures Grown(g, all, groups + [ready])
  {
    var more := groups + [ready];
    assert forall k: nat, n | k < |groups| :: At(more, k, n) == At(groups, k, n);
    assert forall k: nat | k <= |groups| :: Before(all, more, k) == Before(all, groups, k);
    forall k: nat, n | k > 0 && At(more, k, n) ensures Fed(g, more, k, n) {
      assert Fed(g, groups, k, n);
      var a :| At(groups, k - 1, a) && Edge(g, a, n);
      assert At(more, k - 1, a);
    }
    forall i: nat, j: nat, n | At(more, i, n) && At(more, j, n) ensures i == j {
      if i < |groups| { assert At(groups, i, n) && InSome(groups, n); }
      if j < |groups| { assert At(groups, j, n) && InSome(groups, n); }
    }
  }

  /*** What is left over ***/

  ghost predicate HeldBy(g: Graph, held: set<Node>, n: Node) {
    exists a :: a in held && Edge(g, a, n)
  }

  /** Behind everything that is held stands something that is held. */
  ghost predicate AllHeld(g: Graph, held: set<Node>) {
    forall n {:trigger HeldBy(g, held, n)} | n in held :: HeldBy(g, held, n)
  }

  lemma WaitingIsHeld(g: Graph, all: set<Node>, done: set<Node>, waiting: map<Node, set<Node>>)
    requires Halfway(g, all, done, {}, waiting)
    ensures AllHeld(g, waiting.Keys) && waiting.Keys <= all
  {
    forall n | n in waiting ensures HeldBy(g, waiting.Keys, n) {
      assert Awaits(waiting, n) != {};
      var a :| a in Parents(g, all, n) - done;
      assert Awaits(waiting, a) != {};
    }
  }

  lemma {:induction false} Backwards(g: Graph, held: set<Node>, n: Node, k: nat) returns (p: seq<Node>)
    requires AllHeld(g, held) && n in held
    ensures Path(g, p) && |p| == k + 1 && forall x | x in p :: x in held
  {
    if k == 0 {
      p := [n];
    } else {
      var q := Backwards(g, held, n, k - 1);
      assert HeldBy(g, held, q[0]);
      var a :| a in held && Edge(g, a, q[0]);
      Hop(g, a, q[0]);
      Joined(g, [a, q[0]], q);
      p := [a] + q;
      assert p == [a, q[0]] + q[1..];
    }
  }

  lemma {:induction false} Pigeons(p: seq<Node>, s: set<Node>)
    requires (forall x | x in p :: x in s) && |p| > |s|
    ensures !Distinct(p)
  {
    if Distinct(p) {
      DistinctFits(p, s);
    }
  }

  lemma {:induction false} DistinctFits(p: seq<Node>, s: set<Node>)
    requires (forall x | x in p :: x in s) && Distinct(p)
    ensures |p| <= |s|
  {
    if p != [] {
      DistinctFits(p[1..], s - {p[0]});
    }
  }

  lemma Stuck(g: Graph, roots: seq<Node>, held: set<Node>, n: Node)
    requires AllHeld(g, held) && n in held
    requires forall x | x in held :: Reach(g, roots, x)
    ensures Cyclic(g, roots)
  {
    var p := Backwards(g, held, n, |held|);
    Pigeons(p, held);
    var i: nat, j: nat :| i < j < |p| && p[i] == p[j];
    assert p[i] in p;
    var q :| Leads(g, roots, q, p[i]);
    Part(g, p, i, j + 1);
    Around(g, roots, q, p[i..j + 1]);
  }

  lemma Around(g: Graph, roots: seq<Node>, q: seq<Node>, r: seq<Node>)
    requires Path(g, r) && |r| > 1 && Last(r) == r[0] && Leads(g, roots, q, r[0])
    ensures Cyclic(g, roots)
  {
    Joined(g, q, r);
    var whole := q + r[1..];
    assert whole[|q| - 1] == r[0] && Last(whole) == r[0];
    assert whole[|q| - 1] in whole[..|whole| - 1];
    assert Loop(g, roots, whole);
  }

  /*** What levels mean ***/

  /** Along a path each step rises by a group at least. */
  lemma {:induction false} Climbs(g: Graph, roots: seq<Node>, groups: seq<seq<Node>>, p: seq<Node>, k: nat, m: nat) returns (j: nat)
    requires Leveled(g, roots, groups) && Path(g, p) && At(groups, k, p[0]) && m < |p|
    ensures At(groups, j, p[m]) && j >= k + m
  {
    if m == 0 {
      j := k;
    } else {
      var i := Climbs(g, roots, groups, p, k, m - 1);
      assert Step(g, p, m - 1);
      assert InSome(groups, p[m - 1]);
      ReachEdge(g, roots, p[m - 1], p[m]);
      assert InSome(groups, p[m]);
      j :| At(groups, j, p[m]);
    }
  }

  /** No path from anywhere into the k-th group has more than k edges. */
  lemma NoLongerPath(g: Graph, roots: seq<Node>, groups: seq<seq<Node>>, p: seq<Node>, k: nat)
    requires Leveled(g, roots, groups) && Path(g, p) && Reach(g, roots, p[0]) && At(groups, k, Last(p))
    ensures |p| - 1 <= k
  {
    var i := LevelOf(g, roots, groups, p[0]);
    var j := Climbs(g, roots, groups, p, i, |p| - 1);
    OneLevel(groups, Last(p), j, k);
  }

  lemma LevelOf(g: Graph, roots: seq<Node>, groups: seq<seq<Node>>, n: Node) returns (k: nat)
    requires Leveled(g, roots, groups) && Reach(g, roots, n)
    ensures At(groups, k, n)
  {
    assert InSome(groups, n);
    k :| At(groups, k, n);
  }

  lemma OneLevel(groups: seq<seq<Node>>, n: Node, j: nat, k: nat)
    requires Once(groups) && At(groups, j, n) && At(groups, k, n)
    ensures j == k
  {
  }

  /** Some path from the first group to a node of the k-th has k edges. */
  lemma {:induction false} LongestPath(g: Graph, roots: seq<Node>, groups: seq<seq<Node>>, n: Node, k: nat) returns (p: seq<Node>)
    requires Leveled(g, roots, groups) && At(groups, k, n)
    ensures Path(g, p) && At(groups, 0, p[0]) && Last(p) == n && |p| - 1 == k
  {
    if k == 0 {
      p := [n];
    } else {
      assert Fed(g, groups, k, n);
      var a :| At(groups, k - 1, a) && Edge(g, a, n);
      var q := LongestPath(g, roots, groups, a, k - 1);
      Hop(g, a, n);
      Joined(g, q, [a, n]);
      p := q + [a, n][1..];
    }
  }

  /** What nothing reachable leads to is in the first group, and it is a root. */
  lemma FirstGroup(g: Graph, roots: seq<Node>, groups: seq<seq<Node>>, n: Node)
    requires Leveled(g, roots, groups) && Reach(g, roots, n)
    ensures At(groups, 0, n) <==> forall a | Reach(g, roots, a) :: !Edge(g, a, n)
    ensures At(groups, 0, n) ==> n in roots
  {
    assert InSome(groups, n);
    var k: nat :| At(groups, k, n);
    if k > 0 {
      assert Fed(g, groups, k, n);
      var a :| At(groups, k - 1, a) && Edge(g, a, n);
      assert InSome(groups, a);
    } else {
      forall a | Reach(g, roots, a) ensures !Edge(g, a, n) {
        assert InSome(groups, a);
      }
      var p :| Leads(g, roots, p, n);
      if |p| > 1 {
        assert Step(g, p, |p| - 2);
        Part(g, p, 0, |p| - 1);
        assert Leads(g, roots, p[0..|p| - 1], p[|p| - 2]);
      }
    }
  }

  lemma LeveledNoCycle(g: Graph, roots: seq<Node>, groups: seq<seq<Node>>)
    requires Leveled(g, roots, groups)
    ensures !Cyclic(g, roots)
  {
    if Cyclic(g, roots) {
      var p :| Loop(g, roots, p);
      var i :| 0 <= i < |p| - 1 && p[i] == Last(p);
      Part(g, p, 0, i + 1);
      assert Leads(g, roots, p[0..i + 1], p[i]);
      assert InSome(groups, p[i]);
      var k: nat :| At(groups, k, p[i]);
      Part(g, p, i, |p|);
      NoLongerPathFrom(g, roots, groups, p[i..|p|], k);
    }
  }

  lemma NoLongerPathFrom(g: Graph, roots: seq<Node>, groups: seq<seq<Node>>, p: seq<Node>, k: nat)
    requires Leveled(g, roots, groups) && Path(g, p) && At(groups, k, p[0]) && Last(p) == p[0]
    ensures |p| == 1
  {
    var j := Climbs(g, roots, groups, p, k, |p| - 1);
  }

  /** There is one way to place the nodes: any two placements have the same groups, up to their order. */
  lemma OneLeveling(g: Graph, roots: seq<Node>, gs: seq<seq<Node>>, hs: seq<seq<Node>>, n: Node, k: nat)
    requires Leveled(g, roots, gs) && Leveled(g, roots, hs) && At(gs, k, n)
    ensures At(hs, k, n)
  {
    assert InSome(gs, n);
    var j: nat :| At(hs, j, n);
    var p := LongestPath(g, roots, gs, n, k);
    assert InSome(gs, p[0]);
    NoLongerPath(g, roots, hs, p, j);
    var q := LongestPath(g, roots, hs, n, j);
    assert InSome(hs, q[0]);
    NoLongerPath(g, roots, gs, q, k);
  }

  /** Who waits for nobody, and whom the others wait for. */
  method Start(g: Graph, all: set<Node>) returns (ready: seq<Node>, waiting: map<Node, set<Node>>)
    requires Complete(g, all)
    ensures Halfway(g, all, {}, Elems(ready), waiting) && Distinct(ready) && Grown(g, all, [ready])
  {
    var reverse := ReverseEdges(g, all);
    ready := ToList(set n | n in all && reverse[n] == {});
    waiting := map n | n in all && reverse[n] != {} :: reverse[n];
    forall n | n in ready ensures n in all && !InSome([], n) && Parents(g, all, n) <= Before(all, [], 0) {
      assert n in Elems(ready);
    }
    GrownPlus(g, all, [], ready);
    assert [] + [ready] == [ready];
  }

  method PlaceNodesInLevels(g: Graph, roots: seq<Node>) returns (r: Outcome)
    requires Rooted(g, roots)
    ensures r.Placed? ==> Leveled(g, roots, r.groups) && forall n | n in g && Reach(g, roots, n) :: Distinct(g[n])
    ensures r.Placed? ==> r.groups != [] && forall k: nat | 0 < k < |r.groups| :: r.groups[k] != []
    ensures r.CycleFound? ==> Cyclic(g, roots)
    ensures r.Placed? ==> !Cyclic(g, roots)
    ensures r.MissingKey? ==> exists n :: Reach(g, roots, n) && n in g && !Distinct(g[n])
    ensures (forall n | n in g && Reach(g, roots, n) :: Distinct(g[n])) ==> !r.MissingKey? && (r.CycleFound? <==> Cyclic(g, roots))
  {
    var all := FindAllNodes(g, roots);
    forall a, b | a in all && Edge(g, a, b) ensures b in all { ReachEdge(g, roots, a, b); }
    var ready, waiting := Start(g, all);
    var groups: seq<seq<Node>> := [];
    ghost var done: set<Node> := {};
    assert [] + [ready] == [ready];
    while true
      invariant Placing(g, all, groups, ready, waiting, done)
      decreases all - done
    {
      var group, earlier := ready, groups;
      groups := groups + [group];
      var ok;
      ok, waiting, ready := RelaxGroup(g, all, done, group, waiting);
      if !ok {
        var n :| n in group && !Distinct(g[n]);
        assert n in Elems(group);
        return MissingKey;
      }
      DoneSoFar(all, earlier, group, done);
      if ready == [] {
        assert Elems([]) == {};
        if waiting != map[] {
          var n :| n in waiting;
          WaitingIsHeld(g, all, done + Elems(group), waiting);
          Stuck(g, roots, waiting.Keys, n);
          return CycleFound;
        }
        AllPlaced(g, roots, all, done + Elems(group), groups);
        LeveledNoCycle(g, roots, groups);
        return Placed(groups);
      }
      PlacedOneMore(g, all, earlier, group, done, ready, waiting);
      done := done + Elems(group);
    }
  }

  /** The groups placed so far, and the next one, whose parents have all been dealt with. */
  ghost predicate Placing(g: Graph, all: set<Node>, groups: seq<seq<Node>>, ready: seq<Node>, waiting: map<Node, set<Node>>, done: set<Node>) {
    && all <= g.Keys
    && Halfway(g, all, done, Elems(ready), waiting) && Distinct(ready)
    && Grown(g, all, groups + [ready])
    && (forall n | n in all :: n in done <==> InSome(groups, n))
    && (forall n | n in done :: Distinct(g[n]))
    && (groups != [] ==> ready != [])
    && (forall k: nat | 0 < k < |groups| :: groups[k] != [])
  }

  lemma PlacedOneMore(g: Graph, all: set<Node>, earlier: seq<seq<Node>>, group: seq<Node>, done: set<Node>, ready: seq<Node>,
                      waiting: map<Node, set<Node>>)
    requires all <= g.Keys && Grown(g, all, earlier + [group]) && ready != []
    requires Halfway(g, all, done + Elems(group), Elems(ready), waiting) && Next(g, done, group, ready)
    requires forall n | n in all :: n in done + Elems(group) <==> InSome(earlier + [group], n)
    requires forall n | n in done + Elems(group) :: n in g && Distinct(g[n])
    requires forall k: nat | 0 < k < |earlier + [group]| :: (earlier + [group])[k] != []
    requires forall n | n in group :: n !in done && n in all
    ensures Placing(g, all, earlier + [group], ready, waiting, done + Elems(group))
    ensures all - (done + Elems(group)) < all - done
  {
    assert ready[0] in ready && group != [] && group[0] in Elems(group);
    NextGrown(g, all, done, group, ready, waiting, earlier);
  }

  lemma DoneSoFar(all: set<Node>, groups: seq<seq<Node>>, group: seq<Node>, done: set<Node>)
    requires forall n | n in all :: n in done <==> InSome(groups, n)
    ensures forall n | n in all :: n in done + Elems(group) <==> InSome(groups + [group], n)
  {
    var more := groups + [group];
    forall n | n in all ensures n in done + Elems(group) <==> InSome(more, n) {
      if InSome(groups, n) {
        var k: nat :| At(groups, k, n);
        assert At(more, k, n);
      }
      if n in group {
        assert At(more, |groups|, n);
      }
      if InSome(more, n) {
        var k: nat :| At(more, k, n);
        assert k < |groups| ==> At(groups, k, n);
      }
    }
  }

  lemma InEither(a: Node, s: set<Node>, t: set<Node>)
    requires a in s && s - t == {}
    ensures a in t
  {
    assert a in s - t <==> a !in t;
  }

  lemma NextGrown(g: Graph, all: set<Node>, done: set<Node>, group: seq<Node>, ready: seq<Node>, waiting: map<Node, set<Node>>,
                  groups: seq<seq<Node>>)
    requires Grown(g, all, groups + [group]) && Halfway(g, all, done + Elems(group), Elems(ready), waiting)
    requires Next(g, done, group, ready)
    requires forall n | n in all :: n in done + Elems(group) <==> InSome(groups + [group], n)
    ensures Grown(g, all, groups + [group] + [ready])
  {
    var more := groups + [group];
    forall n | n in ready
      ensures n in all && !InSome(more, n) && Parents(g, all, n) <= Before(all, more, |more|) && Fed(g, more, |more|, n)
    {
      assert n in Elems(ready);
      assert Parents(g, all, n) - (done + Elems(group)) == {};
      forall a | a in Parents(g, all, n) ensures a in Before(all, more, |more|) {
        InEither(a, Parents(g, all, n), done + Elems(group));
        var k: nat :| At(more, k, a);
      }
      var a :| a in group && Edge(g, a, n);
      assert At(more, |more| - 1, a);
    }
    GrownPlus(g, all, more, ready);
  }

  lemma AllPlaced(g: Graph, roots: seq<Node>, all: set<Node>, done: set<Node>, groups: seq<seq<Node>>)
    requires Grown(g, all, groups) && Halfway(g, all, done, {}, map[]) && forall n | n in all :: n in done <==> InSome(groups, n)
    requires forall n :: n in all <==> Reach(g, roots, n)
    ensures Leveled(g, roots, groups) && done == all
  {
    forall n | n in all ensures n in done { assert Awaits(map[], n) == {}; }
    forall n | InSome(groups, n) ensures n in all { var k: nat :| At(groups, k, n); }
    forall i: nat, j: nat, a, b | At(groups, i, a) && At(groups, j, b) && Edge(g, a, b) ensures i < j {
      assert a in all && a in Parents(g, all, b);
    }
  }

  /** The members of a set, listed. */
  ghost function Listing(s: set<Node>): (r: seq<Node>)
    ensures Elems(r) == s && Distinct(r)
  {
    if s == {} then []
    else (
      var v :| v in s;
      var rest := Listing(s - {v});
      assert v !in Elems(rest) && Elems([v] + rest) == {v} + Elems(rest);
      [v] + rest
    )
  }

  /** A list of a set's members, in some order. */
  method ToList(s: set<Node>) returns (r: seq<Node>)
    ensures Distinct(r) && Elems(r) == s
  {
    r := [];
    var todo := s;
    while todo != {}
      invariant Distinct(r) && todo !! Elems(r) && todo + Elems(r) == s
    {
      var n :| n in todo;
      assert n !in r;
      todo, r := todo - {n}, r + [n];
    }
  }

  /*** Going through the groups in order ***/

  /** In the groups before the k-th, or among the first i of it. */
  ghost predicate Handled(groups: seq<seq<Node>>, k: nat, i: nat, b: Node) {
    (exists j: nat :: j < k && At(groups, j, b)) || (k < |groups| && i <= |groups[k]| && b in groups[k][..i])
  }

  /** The nodes dealt with when the i-th of the k-th group is next. */
  ghost predicate DoneAre(groups: seq<seq<Node>>, k: nat, i: nat, done: set<Node>) {
    forall b {:trigger Handled(groups, k, i, b)} {:trigger b in done} :: b in done <==> Handled(groups, k, i, b)
  }

  lemma DoneNext(groups: seq<seq<Node>>, k: nat, i: nat, done: set<Node>)
    requires k < |groups| && i < |groups[k]| && DoneAre(groups, k, i, done)
    ensures DoneAre(groups, k, i + 1, done + {groups[k][i]})
  {
    assert groups[k][..i + 1] == groups[k][..i] + [groups[k][i]];
  }

  lemma DoneLevel(groups: seq<seq<Node>>, k: nat, done: set<Node>)
    requires k < |groups| && DoneAre(groups, k, |groups[k]|, done)
    ensures DoneAre(groups, k + 1, 0, done)
  {
    assert groups[k][..|groups[k]|] == groups[k];
    forall b ensures Handled(groups, k + 1, 0, b) <==> Handled(groups, k, |groups[k]|, b) {
      if b in groups[k] { assert At(groups, k, b); }
    }
  }

  lemma DoneReached(groups: seq<seq<Node>>, k: nat, i: nat, done: set<Node>, g: Graph, roots: seq<Node>, a: Node)
    requires Leveled(g, roots, groups) && DoneAre(groups, k, i, done) && a in done
    ensures Reach(g, roots, a)
  {
    assert Handled(groups, k, i, a);
    assert k < |groups| && a in groups[k] ==> At(groups, k, a);
    var j: nat :| At(groups, j, a);
    assert InSome(groups, a);
  }

  lemma NotDone(groups: seq<seq<Node>>, k: nat, i: nat, done: set<Node>, g: Graph, roots: seq<Node>)
    requires Leveled(g, roots, groups) && k < |groups| && i < |groups[k]| && DoneAre(groups, k, i, done)
    ensures groups[k][i] !in done
  {
    var b := groups[k][i];
    assert At(groups, k, b) && Distinct(groups[k]) && (b in done <==> Handled(groups, k, i, b));
  }
}
