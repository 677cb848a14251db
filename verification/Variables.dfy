/** Variables defined in terms of each other: their levels, and substitution in one pass. */
module Variables {
  import opened Options
  import opened Graphs

  type Var = Node
  type Sets = map<Var, set<Var>>

  /** The uses are the dependencies turned round. */
  ghost predicate Turned(deps: Sets, uses: Sets) {
    && uses.Keys == deps.Keys
    && (forall v, d | v in deps && d in deps[v] :: d in deps)
    && (forall v, d | d in uses && v in uses[d] :: v in deps)
    && (forall v, d | v in deps && d in deps :: d in deps[v] <==> v in uses[d])
  }

  /** The graph whose edges lead from a variable to those that depend on it. */
  ghost predicate Drawn(g: Graph, all: seq<Var>, deps: Sets) {
    && g.Keys == deps.Keys && (forall v :: v in all <==> v in deps)
    && (forall d, v :: Edge(g, d, v) <==> d in deps && v in deps && d in deps[v])
  }

  /*** compute_graph_levels ***/

  /** One above the highest dependency, and 0 without any. */
  ghost predicate Fits(deps: Sets, levels: map<Var, nat>, v: Var, l: nat)
    requires v in deps
  {
    && (forall d | d in deps[v] :: d in levels && levels[d] < l)
    && (l > 0 ==> exists d :: d in deps[v] && d in levels && levels[d] == l - 1)
  }

  ghost predicate Waits(deps: Sets, levels: map<Var, nat>, v: Var)
    requires v in deps
  {
    exists d :: d in deps[v] && d !in levels
  }

  method ComputeLevel(deps: Sets, levels: map<Var, nat>, v: Var) returns (r: Option<nat>)
    requires v in deps
    ensures r.None? <==> Waits(deps, levels, v)
    ensures r.Some? ==> Fits(deps, levels, v, r.value)
  {
    var todo := deps[v];
    var l := 0;
    while todo != {}
      invariant todo <= deps[v]
      invariant forall d | d in deps[v] && d !in todo :: d in levels && levels[d] < l
      invariant l > 0 ==> exists d :: d in deps[v] && d in levels && levels[d] == l - 1
    {
      var d :| d in todo;
      todo := todo - {d};
      if d !in levels {
        return None;
      }
      if levels[d] >= l {
        l := levels[d] + 1;
      }
    }
    r := Some(l);
  }

  /** The levels found so far are right, and whoever could be next is still to be looked at. */
  ghost predicate Found(deps: Sets, levels: map<Var, nat>, pending: set<Var>) {
    && levels.Keys <= deps.Keys && pending <= deps.Keys
    && (forall v {:trigger Fits(deps, levels, v, levels[v])} | v in levels :: Fits(deps, levels, v, levels[v]))
    && (forall v {:trigger Waits(deps, levels, v)} | v in deps && v !in levels && v !in pending :: Waits(deps, levels, v))
  }

  lemma FoundOne(deps: Sets, uses: Sets, levels: map<Var, nat>, pending: set<Var>, v: Var, l: nat)
    requires Turned(deps, uses) && v in deps && v !in levels && Found(deps, levels, pending) && Fits(deps, levels, v, l)
    ensures Found(deps, levels[v := l], pending - {v} + uses[v])
  {
    var more := levels[v := l];
    forall u | u in levels ensures Fits(deps, more, u, more[u]) {
      assert Fits(deps, levels, u, levels[u]);
    }
    assert Fits(deps, more, v, l) by { assert v !in deps[v]; }
    forall u | u in deps && u !in more && u !in pending - {v} + uses[v] ensures Waits(deps, more, u) {
      assert Waits(deps, levels, u);
      var d :| d in deps[u] && d !in levels;
      assert d != v && d in deps[u] && d !in more;
    }
  }

  function LevelIn(levels: map<Var, nat>, v: Var): Option<nat> {
    if v in levels then Some(levels[v]) else None
  }

  /** A level that was found is never found to be another. */
  lemma Same(deps: Sets, levels: map<Var, nat>, pending: set<Var>, v: Var, l: Option<nat>)
    requires Found(deps, levels, pending) && v in deps
    requires (l.None? <==> Waits(deps, levels, v)) && (l.Some? ==> Fits(deps, levels, v, l.value))
    ensures v in levels ==> l == Some(levels[v])
    ensures v !in levels && l.None? ==> Found(deps, levels, pending - {v})
  {
    if v in levels {
      assert Fits(deps, levels, v, levels[v]);
    }
  }

  /** One assignment of a level to a variable. */
  datatype Given = Given(v: Var, level: nat)

  predicate OnceEach(log: seq<Given>) {
    forall i, j | 0 <= i < j < |log| :: log[i].v != log[j].v
  }

  /** The assignments so far are those of the levels found so far, each made once. */
  ghost predicate Logged(levels: map<Var, nat>, log: seq<Given>) {
    OnceEach(log) && forall v, l: nat :: Given(v, l) in log <==> LevelIn(levels, v) == Some(l)
  }

  lemma LogOne(levels: map<Var, nat>, log: seq<Given>, v: Var, l: nat)
    requires Logged(levels, log) && v !in levels
    ensures Logged(levels[v := l], log + [Given(v, l)])
  {
    var more := log + [Given(v, l)];
    forall i, j | 0 <= i < j < |more| ensures more[i].v != more[j].v {
      assert Given(log[i].v, log[i].level) in log;
    }
    forall u, k: nat ensures Given(u, k) in more <==> LevelIn(levels[v := l], u) == Some(k) {
      assert Given(u, k) in more <==> Given(u, k) in log || (u == v && k == l);
    }
  }

  /** Looks at each dirty variable once; those above a new level are to be looked at next. */
  method OneRound(deps: Sets, uses: Sets, dirty: set<Var>, was: map<Var, nat>, ghost before: seq<Given>)
    returns (levels: map<Var, nat>, again: set<Var>, ghost log: seq<Given>)
    requires Turned(deps, uses) && Found(deps, was, dirty) && Logged(was, before)
    ensures Found(deps, levels, again) && Logged(levels, log) && before <= log
    ensures was.Keys <= levels.Keys && forall v | v in was :: levels[v] == was[v]
    ensures levels == was ==> again == {}
  {
    levels, again, log := was, {}, before;
    var todo := dirty;
    assert dirty + {} == dirty;
    while todo != {}
      invariant todo <= dirty && Found(deps, levels, todo + again)
      invariant Logged(levels, log) && before <= log
      invariant was.Keys <= levels.Keys && forall v | v in was :: levels[v] == was[v]
      invariant levels == was ==> again == {}
    {
      var v :| v in todo;
      var l := ComputeLevel(deps, levels, v);
      Same(deps, levels, todo + again, v, l);
      if l != LevelIn(levels, v) {
        FoundOne(deps, uses, levels, todo + again, v, l.value);
        LogOne(levels, log, v, l.value);
        levels := levels[v := l.value];
        log := log + [Given(v, l.value)];
        assert todo + again - {v} + uses[v] <= todo - {v} + (again + uses[v]);
        again := again + uses[v];
      }
      todo := todo - {v};
    }
    assert {} + again == again;
  }

  /** Levels as groups. */
  ghost predicate Grouped(levels: map<Var, nat>, groups: seq<seq<Var>>) {
    && (forall v, l: nat :: At(groups, l, v) <==> LevelIn(levels, v) == Some(l))
    && (forall l: nat | l < |groups| :: Distinct(groups[l]))
  }

  /** Lists the variables of each level that occurs. */
  method ByLevel(deps: Sets, levels: map<Var, nat>) returns (result: map<nat, seq<Var>>)
    ensures forall l: nat :: l in result <==> exists v :: v in levels && levels[v] == l
    ensures forall l: nat | l in result :: Distinct(result[l]) && forall v :: v in result[l] <==> LevelIn(levels, v) == Some(l)
  {
    result := map l | l in levels.Values :: [];
    var todo := levels.Keys;
    while todo != {}
      invariant todo <= levels.Keys
      invariant result.Keys == levels.Values
      invariant forall l: nat | l in result :: Distinct(result[l])
      invariant forall l: nat, v | l in result :: v in result[l] <==> v !in todo && LevelIn(levels, v) == Some(l)
    {
      var v :| v in todo;
      var l := levels[v];
      assert v !in result[l];
      result := result[l := result[l] + [v]];
      todo := todo - {v};
    }
  }

  /** No level below one that occurs is missing. */
  lemma {:induction false} NoGap(deps: Sets, levels: map<Var, nat>, v: Var, l: nat)
    requires Found(deps, levels, {}) && v in levels && l <= levels[v]
    ensures exists u :: u in levels && levels[u] == l
    decreases levels[v]
  {
    if l < levels[v] {
      assert Fits(deps, levels, v, levels[v]);
      var d :| d in deps[v] && d in levels && levels[d] == levels[v] - 1;
      NoGap(deps, levels, d, l);
    }
  }

  /** The levels 0 to n-1 are all there are. */
  lemma {:induction false} Contiguous(levels: set<nat>, n: nat)
    requires |levels| == n && forall l: nat, m: nat | l in levels && m <= l :: m in levels
    ensures forall l: nat :: l in levels <==> l < n
  {
    if n > 0 {
      var top := Top(levels);
      Contiguous(levels - {top}, n - 1);
      assert top !in levels - {top};
      assert n - 1 < top ==> n - 1 in levels - {top};
      assert forall l: nat | l != top :: l in levels <==> l in levels - {top};
    } else {
      assert levels == {};
    }
  }

  lemma {:induction false} Top(s: set<nat>) returns (top: nat)
    requires s != {}
    ensures top in s && forall x | x in s :: x <= top
  {
    top :| top in s;
    if s - {top} != {} {
      var other := Top(s - {top});
      assert forall x | x in s && x != top :: x in s - {top};
      if other > top { top := other; }
    } else {
      assert forall x | x in s && x != top :: x in s - {top};
    }
  }

  lemma LevelsAreGroups(g: Graph, all: seq<Var>, deps: Sets, levels: map<Var, nat>, groups: seq<seq<Var>>)
    requires Drawn(g, all, deps) && Found(deps, levels, {}) && levels.Keys == deps.Keys && Grouped(levels, groups)
    ensures Leveled(g, all, groups)
  {
    forall v ensures InSome(groups, v) <==> Reach(g, all, v) {
      if v in deps {
        assert LevelIn(levels, v) == Some(levels[v]);
        assert At(groups, levels[v], v);
        ReachRoot(g, all, v);
      } else {
        OnlyReal(g, all, deps, v);
        assert LevelIn(levels, v) == None;
        assert forall l: nat :: !At(groups, l, v);
      }
    }
    forall i: nat, j: nat, a, b | At(groups, i, a) && At(groups, j, b) && Edge(g, a, b) ensures i < j {
      assert LevelIn(levels, a) == Some(i) && LevelIn(levels, b) == Some(j);
      assert Fits(deps, levels, b, levels[b]);
    }
    forall k: nat, v | k > 0 && At(groups, k, v) ensures Fed(g, groups, k, v) {
      assert LevelIn(levels, v) == Some(k);
      assert Fits(deps, levels, v, levels[v]);
      var d :| d in deps[v] && d in levels && levels[d] == k - 1;
      assert LevelIn(levels, d) == Some(k - 1) && At(groups, k - 1, d) && Edge(g, d, v);
    }
  }

  lemma OnlyReal(g: Graph, all: seq<Var>, deps: Sets, v: Var)
    requires Drawn(g, all, deps)
    ensures Reach(g, all, v) ==> v in deps
  {
    if p :| Leads(g, all, p, v) {
      if |p| > 1 {
        assert Step(g, p, |p| - 2);
      }
    }
  }

  /** What has no level when nothing is dirty is behind a cycle. */
  lemma StuckVariables(g: Graph, all: seq<Var>, deps: Sets, levels: map<Var, nat>)
    requires Drawn(g, all, deps) && Found(deps, levels, {}) && levels.Keys != deps.Keys
    requires forall v, d | v in deps && d in deps[v] :: d in deps
    ensures Cyclic(g, all)
  {
    var held := deps.Keys - levels.Keys;
    forall v | v in held ensures HeldBy(g, held, v) && Reach(g, all, v) {
      assert Waits(deps, levels, v);
      var d :| d in deps[v] && d !in levels;
      assert d in held && Edge(g, d, v);
      ReachRoot(g, all, v);
    }
    var v :| v in deps && v !in levels;
    assert v in held;
    Stuck(g, all, held, v);
  }

  method Grouping(deps: Sets, levels: map<Var, nat>) returns (result: map<nat, seq<Var>>, ghost groups: seq<seq<Var>>)
    requires Found(deps, levels, {})
    ensures Grouped(levels, groups)
    ensures forall l: nat :: (l in result <==> l < |groups|) && (l in result ==> result[l] == groups[l])
  {
    result := ByLevel(deps, levels);
    forall l: nat, m: nat | l in result && m <= l ensures m in result {
      var v :| v in levels && levels[v] == l;
      NoGap(deps, levels, v, m);
    }
    Contiguous(result.Keys, |result.Keys|);
    groups := seq(|result.Keys|, l requires 0 <= l < |result.Keys| => assert l in result.Keys; result[l]);
    forall v, l: nat ensures At(groups, l, v) <==> LevelIn(levels, v) == Some(l) {
      if LevelIn(levels, v) == Some(l) {
        assert l in result.Keys;
      }
    }
  }

  /** Fails exactly on a cycle; otherwise the levels are the groups of the graph: the longest chain of dependencies. */
  method ComputeGraphLevels(deps: Sets, uses: Sets, ghost g: Graph, ghost all: seq<Var>)
    returns (r: Option<map<nat, seq<Var>>>, ghost groups: seq<seq<Var>>, ghost log: seq<Given>)
    requires Turned(deps, uses) && Drawn(g, all, deps)
    ensures r.None? <==> Cyclic(g, all)
    ensures r.Some? ==> Leveled(g, all, groups) && forall l: nat :: (l in r.value <==> l < |groups|) && (l in r.value ==> r.value[l] == groups[l])
    ensures OnceEach(log) && (r.Some? ==> forall v, l: nat :: Given(v, l) in log <==> At(groups, l, v))
  {
    var levels: map<Var, nat> := map[];
    groups, log := [], [];
    var dirty := deps.Keys;
    while dirty != {}
      invariant Found(deps, levels, dirty) && Logged(levels, log)
      decreases deps.Keys - levels.Keys, dirty
    {
      ghost var before := levels;
      levels, dirty, log := OneRound(deps, uses, dirty, levels, log);
      assert levels.Keys == before.Keys ==> levels == before;
    }
    if deps.Keys != levels.Keys {
      StuckVariables(g, all, deps, levels);
      return None, groups, log;
    }
    var result;
    result, groups := Grouping(deps, levels);
    LevelsAreGroups(g, all, deps, levels, groups);
    LeveledNoCycle(g, all, groups);
    r := Some(result);
  }

  /*** apply_variable_substitutions_and_merge ***/

  /** A text is characters and references ${name}. */
  datatype Token = Literal(c: char) | Ref(name: Var)
  type Text = seq<Token>
  type Defs = map<Var, Text>

  function Refs(text: Text): set<Var> {
    set t | t in text && t.Ref? :: t.name
  }

  /** Every reference to a variable in the map replaced by what it maps to. */
  function Expand(text: Text, vars: Defs): Text {
    if text == [] then []
    else Piece(text[0], vars) + Expand(text[1..], vars)
  }

  function Piece(t: Token, vars: Defs): Text {
    if t.Ref? && t.name in vars then vars[t.name] else [t]
  }

  /** A reference in a text gives way to its value, once, and whatever else there is stays in its place. */
  lemma ExpandExactly(before: Text, t: Token, after: Text, vars: Defs)
    ensures Expand([], vars) == []
    ensures Expand(before + [t] + after, vars) ==
            Expand(before, vars) + (if t.Ref? && t.name in vars then vars[t.name] else [t]) + Expand(after, vars)
  {
    ExpandPlus(before + [t], after, vars);
    ExpandPlus(before, [t], vars);
    assert Expand([t], vars) == Piece(t, vars) + Expand([], vars);
  }

  lemma {:induction false} ExpandPlus(s: Text, t: Text, vars: Defs)
    ensures Expand(s + t, vars) == Expand(s, vars) + Expand(t, vars)
  {
    if s == [] {
      assert s + t == t;
    } else {
      var u, piece := s + t, Piece(s[0], vars);
      assert u[0] == s[0] && u[1..] == s[1..] + t;
      ExpandPlus(s[1..], t, vars);
      assert Expand(u, vars) == piece + (Expand(s[1..], vars) + Expand(t, vars));
      assert Expand(s, vars) == piece + Expand(s[1..], vars);
    }
  }

  lemma RefsPlus(s: Text, t: Text)
    ensures Refs(s + t) == Refs(s) + Refs(t)
  {
    forall v ensures v in Refs(s + t) <==> v in Refs(s) + Refs(t) {
      assert Ref(v) in s + t <==> Ref(v) in s || Ref(v) in t;
    }
  }

  lemma {:induction false} ExpandSame(text: Text, vars: Defs, more: Defs)
    requires forall v | v in Refs(text) :: (v in vars <==> v in more) && (v in vars ==> vars[v] == more[v])
    ensures Expand(text, vars) == Expand(text, more)
  {
    if text != [] {
      assert text == [text[0]] + text[1..];
      RefsPlus([text[0]], text[1..]);
      assert text[0].Ref? ==> text[0].name in Refs([text[0]]);
      ExpandSame(text[1..], vars, more);
    }
  }

  lemma {:induction false} ExpandNothing(text: Text, vars: Defs)
    requires Refs(text) !! vars.Keys
    ensures Expand(text, vars) == text
  {
    if text != [] {
      assert text == [text[0]] + text[1..];
      RefsPlus([text[0]], text[1..]);
      assert text[0].Ref? ==> text[0].name in Refs([text[0]]);
      ExpandNothing(text[1..], vars);
    }
  }

  /** References that are left are those that were not replaced, and those in what came for them. */
  lemma {:induction false} ExpandRefs(text: Text, vars: Defs, v: Var)
    requires v in Refs(Expand(text, vars))
    ensures (v in Refs(text) && v !in vars) || exists u :: u in Refs(text) && u in vars && v in Refs(vars[u])
  {
    var head := Piece(text[0], vars);
    assert text == [text[0]] + text[1..];
    RefsPlus([text[0]], text[1..]);
    RefsPlus(head, Expand(text[1..], vars));
    assert text[0].Ref? ==> text[0].name in Refs([text[0]]);
    if v in Refs(Expand(text[1..], vars)) {
      ExpandRefs(text[1..], vars, v);
    }
  }

  /** Replacing one more variable afterwards is replacing it along with the others, if none of those mention it. */
  lemma {:induction false} ExpandOneMore(text: Text, vars: Defs, v: Var, x: Text)
    requires v !in vars && forall u | u in vars :: v !in Refs(vars[u])
    ensures Expand(Expand(text, vars), map[v := x]) == Expand(text, vars[v := x])
  {
    if text != [] {
      var head := Piece(text[0], vars);
      ExpandPlus(head, Expand(text[1..], vars), map[v := x]);
      ExpandOneMore(text[1..], vars, v, x);
      if text[0].Ref? && text[0].name in vars {
        ExpandNothing(head, map[v := x]);
      } else {
        assert Expand(head[1..], map[v := x]) == [];
      }
    }
  }

  /** One variable after the other is all at once, when no definition mentions another of the variables. */
  method SubstituteVariables(text: Text, vars: Defs) returns (r: Text)
    requires forall u, v | u in vars && v in vars && u != v :: v !in Refs(vars[u])
    ensures r == Expand(text, vars)
  {
    r := text;
    var todo := vars.Keys;
    ghost var past: Defs := map[];
    ExpandNothing(text, past);
    while todo != {}
      invariant todo <= vars.Keys && past.Keys == vars.Keys - todo && forall v | v in past :: past[v] == vars[v]
      invariant r == Expand(text, past)
    {
      var v :| v in todo;
      ExpandOneMore(text, past, v, vars[v]);
      r := Expand(r, map[v := vars[v]]);
      past := past[v := vars[v]];
      todo := todo - {v};
    }
    assert past == vars;
  }

  /** Each variable is its definition with the values of all defined variables filled in. */
  ghost predicate Solves(defs: Defs, named: set<Var>, sol: Defs) {
    && sol.Keys == named
    && named <= defs.Keys
    && forall v | v in named :: sol[v] == Expand(defs[v], sol)
  }

  ghost predicate DepsOf(defs: Defs, named: set<Var>, deps: Sets) {
    && named <= defs.Keys && deps.Keys == named
    && forall v | v in named :: deps[v] == Refs(defs[v]) * named
  }

  ghost function Drawing(uses: Sets): Graph {
    map d | d in uses :: Listing(uses[d])
  }

  lemma DrawingDraws(deps: Sets, uses: Sets)
    requires Turned(deps, uses)
    ensures Drawn(Drawing(uses), Listing(deps.Keys), deps)
  {
    forall d, v ensures Edge(Drawing(uses), d, v) <==> d in deps && v in deps && d in deps[v] {
      if d in uses {
        assert v in Listing(uses[d]) <==> v in Elems(Listing(uses[d]));
      }
    }
    forall v ensures v in Listing(deps.Keys) <==> v in deps {
      assert v in Listing(deps.Keys) <==> v in Elems(Listing(deps.Keys));
    }
  }

  /** The definitions have one solution only, if they do not go in a circle. */
  lemma {:induction false} OneSolution(defs: Defs, named: set<Var>, deps: Sets, g: Graph, all: seq<Var>, groups: seq<seq<Var>>,
                                       s: Defs, t: Defs, v: Var, k: nat)
    requires DepsOf(defs, named, deps) && Drawn(g, all, deps) && Leveled(g, all, groups)
    requires Solves(defs, named, s) && Solves(defs, named, t) && At(groups, k, v) && v in named
    ensures s[v] == t[v]
    decreases k
  {
    forall d | d in Refs(defs[v]) && d in named ensures s[d] == t[d] {
      assert Edge(g, d, v);
      ReachRoot(g, all, d);
      assert InSome(groups, d);
      var j: nat :| At(groups, j, d);
      OneSolution(defs, named, deps, g, all, groups, s, t, d, j);
    }
    ExpandSame(defs[v], s, t);
  }

  /*** The pass ***/

  /** The variables in `sol` have their values and are filled in everywhere; the rest is still to be filled in. */
  ghost predicate Filled(defs: Defs, deps: Sets, cur: Defs, sol: Defs)
    requires deps.Keys <= defs.Keys
  {
    && sol.Keys <= deps.Keys && cur.Keys == defs.Keys
    && (forall v | v in defs :: cur[v] == if v in deps then Expand(defs[v], sol) else defs[v])
    && (forall h | h in sol :: deps[h] <= sol.Keys && cur[h] == sol[h] && Refs(sol[h]) !! deps.Keys)
  }

  lemma ValueIsClosed(defs: Defs, named: set<Var>, deps: Sets, cur: Defs, sol: Defs, v: Var)
    requires DepsOf(defs, named, deps) && Filled(defs, deps, cur, sol) && v in named && deps[v] <= sol.Keys
    ensures Refs(cur[v]) !! named
  {
    forall u | u in Refs(cur[v]) ensures u !in named {
      ExpandRefs(defs[v], sol, u);
    }
  }

  lemma FilledOne(defs: Defs, named: set<Var>, deps: Sets, uses: Sets, cur: Defs, sol: Defs, v: Var, cur': Defs)
    requires DepsOf(defs, named, deps) && Turned(deps, uses) && Filled(defs, deps, cur, sol)
    requires v in named && v !in sol && deps[v] <= sol.Keys
    requires cur'.Keys == cur.Keys && forall u | u in cur :: cur'[u] == if u in uses[v] then Expand(cur[u], map[v := cur[v]]) else cur[u]
    ensures Filled(defs, deps, cur', sol[v := cur[v]])
  {
    var sol' := sol[v := cur[v]];
    ValueIsClosed(defs, named, deps, cur, sol, v);
    forall u | u in defs ensures cur'[u] == if u in deps then Expand(defs[u], sol') else defs[u] {
      if u in deps {
        if u in uses[v] {
          ExpandOneMore(defs[u], sol, v, cur[v]);
        } else {
          assert v !in deps[u];
          ExpandSame(defs[u], sol, sol');
        }
      }
    }
    forall h | h in sol' ensures h !in uses[v] {
      assert v !in deps[h];
    }
  }

  method FillIn(ghost defs: Defs, ghost named: set<Var>, ghost deps: Sets, uses: Sets, was: Defs, ghost sol: Defs, v: Var) returns (cur: Defs)
    requires DepsOf(defs, named, deps) && Turned(deps, uses) && Filled(defs, deps, was, sol)
    requires v in named && v !in sol && deps[v] <= sol.Keys
    ensures Filled(defs, deps, cur, sol[v := was[v]])
  {
    assert v !in uses[v];
    cur := ReplaceIn(uses[v], was, v);
    FilledOne(defs, named, deps, uses, was, sol, v, cur);
  }

  /** Replaces a variable in each of some definitions, its own not among them. */
  method ReplaceIn(users: set<Var>, was: Defs, v: Var) returns (cur: Defs)
    requires v in was && v !in users && users <= was.Keys
    ensures cur.Keys == was.Keys && forall u | u in cur :: cur[u] == if u in users then Expand(was[u], map[v := was[v]]) else was[u]
  {
    cur := was;
    var todo := users;
    while todo != {}
      invariant todo <= users && cur.Keys == was.Keys
      invariant forall u | u in cur :: (cur[u] == if u in users - todo then Expand(was[u], map[v := was[v]]) else was[u])
    {
      var u :| u in todo;
      cur := cur[u := Expand(cur[u], map[v := cur[v]])];
      todo := todo - {u};
    }
  }

  datatype Substituted = Done(defs: Defs) | CyclicVariables | DefinedTwice

  /** Which variables a definition mentions, and which mention it. */
  method Dependencies(defs: Defs, named: set<Var>) returns (deps: Sets, uses: Sets)
    requires named <= defs.Keys
    ensures DepsOf(defs, named, deps) && Turned(deps, uses)
  {
    deps := map v | v in named :: Refs(defs[v]) * named;
    uses := map v | v in named :: {};
    var todo := named;
    ghost var seen := {};
    while todo != {}
      invariant todo <= named && seen == named - todo && uses.Keys == named
      invariant forall d | d in named :: uses[d] == Users(deps, seen, d)
    {
      var v :| v in todo;
      uses := AddUser(named, deps[v], v, uses);
      forall d | d in named ensures uses[d] == Users(deps, seen + {v}, d) {
        UsersPlus(deps, seen, v, d);
      }
      todo, seen := todo - {v}, seen + {v};
    }
    TurnedByUsers(deps, uses);
  }

  method AddUser(ghost named: set<Var>, needs: set<Var>, v: Var, was: Sets) returns (uses: Sets)
    requires needs <= named && was.Keys == named
    ensures uses.Keys == named && forall d | d in named :: uses[d] == was[d] + if d in needs then {v} else {}
  {
    uses := was;
    var todo := needs;
    while todo != {}
      invariant todo <= needs && uses.Keys == named
      invariant forall d | d in named :: uses[d] == if d in needs - todo then was[d] + {v} else was[d]
    {
      var d :| d in todo;
      uses := uses[d := uses[d] + {v}];
      todo := todo - {d};
    }
  }

  ghost function Users(deps: Sets, among: set<Var>, d: Var): set<Var> {
    set v | v in among && v in deps && d in deps[v]
  }

  lemma UsersPlus(deps: Sets, among: set<Var>, v: Var, d: Var)
    requires v in deps
    ensures Users(deps, among + {v}, d) == Users(deps, among, d) + if d in deps[v] then {v} else {}
  {
  }

  lemma TurnedByUsers(deps: Sets, uses: Sets)
    requires uses.Keys == deps.Keys && forall d | d in deps :: uses[d] == Users(deps, deps.Keys, d)
    requires forall v, d | v in deps && d in deps[v] :: d in deps
    ensures Turned(deps, uses)
  {
  }

  /** What one pass must give: the solution of the definitions, with the extra variables filled in and added. */
  ghost predicate Passed(defs: Defs, named: set<Var>, extra: Defs, sol: Defs, r: Defs) {
    && Solves(defs, named, sol)
    && r.Keys == defs.Keys + extra.Keys
    && (forall v | v in defs :: r[v] == Expand(if v in named then sol[v] else defs[v], extra))
    && (forall v | v in extra :: r[v] == extra[v])
  }

  /** In the order of the levels, each variable is filled in wherever it is used; `named` are those with an identifier for a name. */
  method SubstituteByLevel(defs: Defs, named: set<Var>, ghost deps: Sets, uses: Sets, levels: map<nat, seq<Var>>,
                           ghost g: Graph, ghost all: seq<Var>, ghost groups: seq<seq<Var>>) returns (cur: Defs, ghost sol: Defs)
    requires DepsOf(defs, named, deps) && Turned(deps, uses) && Drawn(g, all, deps) && Leveled(g, all, groups)
    requires forall l: nat :: (l in levels <==> l < |groups|) && (l in levels ==> levels[l] == groups[l])
    requires |levels| == |groups|
    ensures Solves(defs, named, sol) && cur.Keys == defs.Keys && forall v | v in defs :: cur[v] == if v in named then sol[v] else defs[v]
    ensures forall v | v in sol :: Refs(sol[v]) !! named
  {
    cur, sol := defs, map[];
    forall v | v in defs ensures Expand(defs[v], map[]) == defs[v] { ExpandNothing(defs[v], map[]); }
    for l := 0 to |levels|
      invariant Filled(defs, deps, cur, sol) && DoneAre(groups, l, 0, sol.Keys)
    {
      for i := 0 to |levels[l]|
        invariant Filled(defs, deps, cur, sol) && DoneAre(groups, l, i, sol.Keys)
      {
        var v := levels[l][i];
        NotDone(groups, l, i, sol.Keys, g, all);
        NextReady(defs, named, deps, g, all, groups, l, i, sol.Keys);
        ghost var value := cur[v];
        cur := FillIn(defs, named, deps, uses, cur, sol, v);
        DoneNext(groups, l, i, sol.Keys);
        sol := sol[v := value];
      }
      DoneLevel(groups, l, sol.Keys);
    }
    AllDone(deps, g, all, groups, sol.Keys);
  }

  lemma NextReady(defs: Defs, named: set<Var>, deps: Sets, g: Graph, all: seq<Var>, groups: seq<seq<Var>>, l: nat, i: nat, done: set<Var>)
    requires DepsOf(defs, named, deps) && Drawn(g, all, deps) && Leveled(g, all, groups)
    requires l < |groups| && i < |groups[l]| && DoneAre(groups, l, i, done)
    ensures groups[l][i] in named && deps[groups[l][i]] <= done
  {
    var v := groups[l][i];
    assert At(groups, l, v) && InSome(groups, v);
    OnlyReal(g, all, deps, v);
    forall d | d in deps[v] ensures d in done {
      assert Edge(g, d, v);
      ReachRoot(g, all, d);
      assert InSome(groups, d);
      var j: nat :| At(groups, j, d);
      assert Handled(groups, l, i, d);
    }
  }

  lemma AllDone(deps: Sets, g: Graph, all: seq<Var>, groups: seq<seq<Var>>, done: set<Var>)
    requires Drawn(g, all, deps) && Leveled(g, all, groups) && DoneAre(groups, |groups|, 0, done) && done <= deps.Keys
    ensures done == deps.Keys
  {
    forall v | v in deps ensures v in done {
      ReachRoot(g, all, v);
      assert InSome(groups, v);
      var j: nat :| At(groups, j, v);
      assert Handled(groups, |groups|, 0, v);
    }
  }

  /** One pass over all definitions. The extra variables are plain text. */
  method ApplyVariableSubstitutionsAndMerge(defs: Defs, named: set<Var>, extra: Defs)
    returns (r: Substituted, ghost sol: Defs, ghost g: Graph, ghost all: seq<Var>, ghost deps: Sets)
    requires named <= defs.Keys && forall v | v in extra :: Refs(extra[v]) == {}
    ensures DepsOf(defs, named, deps) && Drawn(g, all, deps)
    ensures r.CyclicVariables? <==> Cyclic(g, all)
    ensures r.Done? ==> Passed(defs, named, extra, sol, r.defs) && forall v | v in sol :: Refs(sol[v]) !! named
    ensures r.DefinedTwice? ==> Solves(defs, named, sol) && exists v :: v in extra && v in defs && extra[v] != Expand(if v in named then sol[v] else defs[v], extra)
  {
    var needs, uses := Dependencies(defs, named);
    deps, g, all, sol := needs, Drawing(uses), Listing(named), map[];
    DrawingDraws(deps, uses);
    var levels;
    ghost var groups, log;
    levels, groups, log := ComputeGraphLevels(needs, uses, g, all);
    if levels.None? {
      return CyclicVariables, sol, g, all, deps;
    }
    SameSize(levels.value, groups);
    var cur;
    cur, sol := SubstituteByLevel(defs, named, deps, uses, levels.value, g, all, groups);
    r := MergeExtra(defs, named, extra, cur, sol);
  }

  /** The extra variables are filled in and added, unless one is already defined otherwise. */
  method MergeExtra(defs: Defs, named: set<Var>, extra: Defs, cur: Defs, ghost sol: Defs) returns (r: Substituted)
    requires named <= defs.Keys && (forall v | v in extra :: Refs(extra[v]) == {}) && Solves(defs, named, sol)
    requires cur.Keys == defs.Keys && forall v | v in defs :: cur[v] == if v in named then sol[v] else defs[v]
    ensures !r.CyclicVariables? && (r.Done? ==> Passed(defs, named, extra, sol, r.defs))
    ensures r.DefinedTwice? ==> exists v :: v in extra && v in defs && extra[v] != Expand(if v in named then sol[v] else defs[v], extra)
  {
    var final := SubstituteAll(cur, extra);
    if v :| v in extra && v in defs && final[v] != extra[v] {
      return DefinedTwice;
    }
    r := Done(final + extra);
  }

  lemma SameSize(levels: map<nat, seq<Var>>, groups: seq<seq<Var>>)
    requires forall l: nat :: l in levels <==> l < |groups|
    ensures |levels| == |groups|
  {
    Contiguous(levels.Keys, |levels.Keys|);
    assert |levels.Keys| !in levels.Keys && |groups| !in levels.Keys;
  }

  method SubstituteAll(was: Defs, extra: Defs) returns (cur: Defs)
    requires forall v | v in extra :: Refs(extra[v]) == {}
    ensures cur.Keys == was.Keys && forall v | v in was :: cur[v] == Expand(was[v], extra)
  {
    cur := was;
    var todo := was.Keys;
    while todo != {}
      invariant todo <= was.Keys && cur.Keys == was.Keys
      invariant forall v | v in was :: (cur[v] == if v in todo then was[v] else Expand(was[v], extra))
    {
      var v :| v in todo;
      var text := SubstituteVariables(cur[v], extra);
      cur := cur[v := text];
      todo := todo - {v};
    }
  }
}
