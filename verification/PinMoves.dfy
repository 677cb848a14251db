/** How far a pin is moved when its branch has moved, and the update that this starts. */
module PinMoves {
  import opened Options
  import opened Graphs
  import opened Pins

  /** The parents of the commits whose data is known. */
  type Parents = map<Hash, seq<Hash>>

  function OnlyParent(parents: Parents, c: Hash): Option<Hash> {
    if c in parents && |parents[c]| == 1 then Some(parents[c][0]) else None
  }

  /** The k-th commit below, as long as each has one parent. */
  function Down(parents: Parents, c: Hash, k: nat): Option<Hash>
    decreases k
  {
    if k == 0 then Some(c)
    else if OnlyParent(parents, c).Some? then Down(parents, OnlyParent(parents, c).value, k - 1)
    else None
  }

  predicate Descends(parents: Parents, top: Hash, k: nat, bottom: Hash) {
    Down(parents, top, k) == Some(bottom)
  }

  lemma {:induction false} DownFurther(parents: Parents, c: Hash, j: nat, k: nat)
    ensures Down(parents, c, j + k) == if Down(parents, c, j).Some? then Down(parents, Down(parents, c, j).value, k) else None
    decreases j
  {
    if j > 0 && OnlyParent(parents, c).Some? {
      DownFurther(parents, OnlyParent(parents, c).value, j - 1, k);
    }
  }

  ghost predicate Below(parents: Parents, top: Hash, c: seq<Hash>, i: nat)
    requires i < |c|
  {
    Down(parents, top, i) == Some(c[i])
  }

  /** The commits from the new one down to the old one, which comes last and only there. */
  ghost predicate Chain(parents: Parents, bottom: Hash, top: Hash, c: seq<Hash>) {
    && c != [] && (forall i: nat {:trigger Below(parents, top, c, i)} | i < |c| :: Below(parents, top, c, i))
    && Last(c, bottom) && bottom !in c[..|c| - 1]
  }

  ghost predicate Last(c: seq<Hash>, h: Hash)
    requires c != []
  {
    c[|c| - 1] == h
  }

  /** Each commit of a chain is the one and only parent of the one before, and the old commit is met just at the end. */
  lemma ChainExactly(parents: Parents, bottom: Hash, top: Hash, c: seq<Hash>)
    ensures Chain(parents, bottom, top, c) <==>
            && c != [] && c[0] == top && c[|c| - 1] == bottom && bottom !in c[..|c| - 1]
            && forall i: nat | i + 1 < |c| :: c[i] in parents && parents[c[i]] == [c[i + 1]]
  {
    if Chain(parents, bottom, top, c) {
      assert Below(parents, top, c, 0);
      forall i: nat | i + 1 < |c| ensures c[i] in parents && parents[c[i]] == [c[i + 1]] {
        assert Below(parents, top, c, i) && Below(parents, top, c, i + 1);
        DownFurther(parents, top, i, 1);
        OneDown(parents, c[i]);
      }
    }
    if c != [] && c[0] == top && forall i: nat | i + 1 < |c| :: c[i] in parents && parents[c[i]] == [c[i + 1]] {
      forall i: nat | i < |c| ensures Below(parents, top, c, i) { StepsDown(parents, top, c, i); }
    }
  }

  lemma OneDown(parents: Parents, h: Hash)
    ensures Down(parents, h, 1) == if h in parents && |parents[h]| == 1 then Some(parents[h][0]) else None
  {
    assert Down(parents, h, 1) == if OnlyParent(parents, h).Some? then Down(parents, OnlyParent(parents, h).value, 0) else None;
  }

  lemma {:induction false} StepsDown(parents: Parents, top: Hash, c: seq<Hash>, i: nat)
    requires i < |c| && c[0] == top && forall j: nat | j + 1 < |c| :: c[j] in parents && parents[c[j]] == [c[j + 1]]
    ensures Down(parents, top, i) == Some(c[i])
  {
    if i > 0 {
      StepsDown(parents, top, c, i - 1);
      DownFurther(parents, top, i - 1, 1);
      OneDown(parents, c[i - 1]);
      assert parents[c[i - 1]] == [c[i - 1 + 1]];
    }
  }

  const MaxCommits: nat := 100

  method GetFastForwardChain(parents: Parents, oldCommit: Hash, newCommit: Hash) returns (r: Option<seq<Hash>>)
    requires newCommit != oldCommit
    ensures r.Some? ==> Chain(parents, oldCommit, newCommit, r.value) && 2 <= |r.value| <= MaxCommits
    ensures r.Some? <==> exists k: nat :: k < MaxCommits && Descends(parents, newCommit, k, oldCommit)
  {
    var chain := [newCommit];
    assert Below(parents, newCommit, chain, 0);
    while chain[|chain| - 1] != oldCommit
      invariant 1 <= |chain| <= MaxCommits
      invariant forall i: nat {:trigger Below(parents, newCommit, chain, i)} | i < |chain| :: Below(parents, newCommit, chain, i)
      invariant oldCommit !in chain[..|chain| - 1]
      decreases MaxCommits - |chain|
    {
      var commit := chain[|chain| - 1];
      assert Below(parents, newCommit, chain, |chain| - 1);
      DownFurther(parents, newCommit, |chain| - 1, 1);
      NotYet(parents, newCommit, chain, oldCommit);
      if commit !in parents || |parents[commit]| != 1 {
        NeverAfter(parents, newCommit, |chain|, oldCommit);
        return None;
      }
      var longer := chain + [parents[commit][0]];
      assert OnlyParent(parents, commit) == Some(longer[|chain|]);
      forall i: nat | i < |longer| ensures Below(parents, newCommit, longer, i) {
        assert i < |chain| ==> Below(parents, newCommit, chain, i);
        assert Down(parents, commit, 1) == Some(longer[|chain|]);
      }
      assert longer[..|longer| - 1] == chain;
      chain := longer;
      if |chain| > MaxCommits {
        return None;
      }
    }
    assert Below(parents, newCommit, chain, |chain| - 1);
    assert Descends(parents, newCommit, |chain| - 1, oldCommit);
    r := Some(chain);
  }

  lemma NotYet(parents: Parents, top: Hash, chain: seq<Hash>, bottom: Hash)
    requires chain != [] && forall i: nat {:trigger Below(parents, top, chain, i)} | i < |chain| :: Below(parents, top, chain, i)
    requires bottom !in chain
    ensures forall k: nat | k < |chain| :: !Descends(parents, top, k, bottom)
  {
    forall k: nat | k < |chain| ensures !Descends(parents, top, k, bottom) {
      assert Below(parents, top, chain, k);
    }
  }

  lemma NeverAfter(parents: Parents, top: Hash, n: nat, bottom: Hash)
    requires Down(parents, top, n).None?
    ensures forall k: nat | k >= n :: !Descends(parents, top, k, bottom)
  {
    forall k: nat | k >= n ensures !Descends(parents, top, k, bottom) {
      DownFurther(parents, top, n, k - n);
    }
  }

  /** No commit is met twice on the way. */
  lemma ChainDistinct(parents: Parents, bottom: Hash, top: Hash, c: seq<Hash>, i: nat, j: nat)
    requires Chain(parents, bottom, top, c) && i < j < |c|
    ensures c[i] != c[j]
  {
    var n := |c| - 1;
    assert Below(parents, top, c, i) && Below(parents, top, c, j) && Below(parents, top, c, n) && Below(parents, top, c, n - (j - i));
    DownFurther(parents, top, i, n - j);
    DownFurther(parents, top, j, n - j);
    assert i + (n - j) == n - (j - i) && j + (n - j) == n;
    assert c[n - (j - i)] in c[..n];
  }

  /** Where a pin at `at` is moved when intermediate commits are wanted: one commit up, or to the head. */
  ghost function Advance(parents: Parents, at: Hash, head: Hash): Hash {
    if c :| Chain(parents, at, head, c) && 2 <= |c| <= MaxCommits then c[|c| - 2] else head
  }

  ghost function Advanced(parents: Parents, at: Hash, head: Hash, k: nat): Hash {
    if k == 0 then at else Advance(parents, Advanced(parents, at, head, k - 1), head)
  }

  lemma OneChain(parents: Parents, bottom: Hash, top: Hash, c: seq<Hash>, d: seq<Hash>)
    requires Chain(parents, bottom, top, c) && Chain(parents, bottom, top, d)
    ensures c == d
  {
    NotLonger(parents, bottom, top, c, d);
    NotLonger(parents, bottom, top, d, c);
    forall i: nat | i < |c| ensures c[i] == d[i] {
      assert Below(parents, top, c, i) && Below(parents, top, d, i);
    }
  }

  lemma NotLonger(parents: Parents, bottom: Hash, top: Hash, c: seq<Hash>, d: seq<Hash>)
    requires Chain(parents, bottom, top, c) && Chain(parents, bottom, top, d)
    ensures |c| <= |d|
  {
    assert Below(parents, top, d, |d| - 1);
    if |d| < |c| {
      NotBefore(parents, bottom, top, c, |d| - 1);
    }
  }

  lemma NotBefore(parents: Parents, bottom: Hash, top: Hash, c: seq<Hash>, i: nat)
    requires Chain(parents, bottom, top, c) && i < |c| - 1
    ensures Down(parents, top, i) != Some(bottom)
  {
    assert Below(parents, top, c, i) && c[i] in c[..|c| - 1];
  }

  lemma AdvanceOne(parents: Parents, head: Hash, c: seq<Hash>, n: nat)
    requires n + 2 <= |c| <= MaxCommits && Chain(parents, c[|c| - 1], head, c)
    ensures Advance(parents, c[n + 1], head) == c[n]
  {
    var d := c[..n + 2];
    forall i: nat | i < |d| ensures Below(parents, head, d, i) {
      assert Below(parents, head, c, i);
    }
    forall i | 0 <= i < n + 1 ensures d[i] != c[n + 1] {
      ChainDistinct(parents, c[|c| - 1], head, c, i, n + 1);
    }
    assert Chain(parents, c[n + 1], head, d);
    var e :| Chain(parents, c[n + 1], head, e) && 2 <= |e| <= MaxCommits && Advance(parents, c[n + 1], head) == e[|e| - 2];
    OneChain(parents, c[n + 1], head, d, e);
  }

  /** Update after update, a pin visits every commit between where it is and the head, and then rests there. */
  lemma {:induction false} VisitsAll(parents: Parents, head: Hash, c: seq<Hash>, k: nat)
    requires 2 <= |c| <= MaxCommits && Chain(parents, c[|c| - 1], head, c)
    ensures Advanced(parents, c[|c| - 1], head, k) == if k < |c| - 1 then c[|c| - 1 - k] else head
  {
    assert Below(parents, head, c, 0);
    if k > 0 {
      VisitsAll(parents, head, c, k - 1);
      if k < |c| {
        AdvanceOne(parents, head, c, |c| - 1 - k);
      } else {
        HeadRests(parents, head);
      }
    }
  }

  lemma HeadRests(parents: Parents, head: Hash)
    ensures Advance(parents, head, head) == head
  {
    forall c | Chain(parents, head, head, c) ensures |c| < 2 {
      ChainEndsAtOnce(parents, head, c);
    }
  }

  lemma ChainEndsAtOnce(parents: Parents, head: Hash, c: seq<Hash>)
    requires Chain(parents, head, head, c)
    ensures |c| == 1
  {
    assert Below(parents, head, c, 0);
  }

  /*** The update of everything that follows a branch ***/

  predicate Watches(w: World, b: Branch, p: Pin) {
    Follows(w, p, b) && Live(w, w.pins[p].owner)
  }

  /** All pins that follow b, and nothing else, are to name the commit. */
  ghost predicate AsksFor(w: World, b: Branch, to: Hash, asked: Asked) {
    && Proper(w, asked)
    && (forall p | p in w.pins :: AskedOf(w, asked, p) == if Watches(w, b, p) then Some(to) else None)
  }

  /** Asked are the automatic pins, of branches still in a repository, that name the repository and branch of b. */
  lemma AsksExactly(w: World, b: Branch, to: Hash, asked: Asked, p: Pin)
    requires Valid(w) && AsksFor(w, b, to, asked) && b in w.branches && p in w.pins
    ensures AskedOf(w, asked, p) ==
            if w.pins[p].auto && w.branches[w.pins[p].owner].repo.Some? && w.branches[b] == BranchInfo(Some(w.pins[p].repo), w.pins[p].branchname)
            then Some(to) else None
  {
  }

  /** Where the pins that follow b should move. */
  ghost predicate Destination(w: World, parents: Parents, rows: set<Hash>, b: Branch, head: Hash, intermediate: bool, to: Hash) {
    if exists at :: AllAt(w, rows, b, at)
    then var at :| AllAt(w, rows, b, at); to == if intermediate && at != head then Advance(parents, at, head) else head
    else to == head
  }

  /** All pins that follow b name one and the same commit, and it is a known one. */
  ghost predicate AllAt(w: World, rows: set<Hash>, b: Branch, at: Hash)
  {
    && (exists p :: Watches(w, b, p))
    && (forall p | Watches(w, b, p) :: p in w.current && w.current[p] == at) && at in rows
  }

  method DesiredCommit(w: World, parents: Parents, rows: set<Hash>, b: Branch, head: Hash, intermediate: bool, pins: set<Pin>) returns (to: Hash)
    requires Valid(w) && forall p :: p in pins <==> Watches(w, b, p)
    ensures Destination(w, parents, rows, b, head, intermediate, to)
  {
    to := head;
    var sources := set p | p in pins :: w.current[p];
    if intermediate && (forall h | h in sources :: h in rows) && |sources| == 1 {
      var at :| at in sources;
      OnlyOne(sources, at);
      forall p | Watches(w, b, p) ensures w.current[p] == at { assert p in pins && w.current[p] in sources; }
      assert AllAt(w, rows, b, at);
      forall other | AllAt(w, rows, b, other) ensures other == at { }
      if to != at {
        var chain := GetFastForwardChain(parents, at, to);
        if chain.Some? {
          AdvanceOne(parents, head, chain.value, |chain.value| - 2);
          to := chain.value[|chain.value| - 2];
        } else {
          NoChain(parents, at, head);
        }
      }
    } else if intermediate {
      if at: Hash :| AllAt(w, rows, b, at) {
        OneSource(w, rows, b, at, pins);
        assert false;
      }
    }
  }

  lemma OneSource(w: World, rows: set<Hash>, b: Branch, at: Hash, pins: set<Pin>)
    requires Valid(w) && (forall p :: p in pins <==> Watches(w, b, p)) && AllAt(w, rows, b, at)
    ensures (set p | p in pins :: w.current[p]) == {at}
  {
    var p :| Watches(w, b, p);
    assert p in pins;
  }

  lemma OnlyOne(s: set<Hash>, x: Hash)
    requires |s| == 1 && x in s
    ensures s == {x}
  {
    assert |s - {x}| == 0;
  }

  lemma NoChain(parents: Parents, at: Hash, head: Hash)
    requires !exists k: nat :: k < MaxCommits && Descends(parents, head, k, at)
    ensures Advance(parents, at, head) == head
  {
    forall c | Chain(parents, at, head, c) ensures Descends(parents, head, |c| - 1, at) {
      assert Below(parents, head, c, |c| - 1);
    }
  }

  method ComputePinUpdate(w: World, parents: Parents, rows: set<Hash>, b: Branch, head: Hash, intermediate: bool)
    returns (asked: Asked, to: Hash)
    requires Valid(w) && Live(w, b)
    ensures AsksFor(w, b, to, asked) && Destination(w, parents, rows, b, head, intermediate, to)
    ensures forall c | c in asked :: Dependant(w, b, c)
  {
    var pins := set p | p in w.pins && Watches(w, b, p);
    to := DesiredCommit(w, parents, rows, b, head, intermediate, pins);
    asked := map[];
    var todo := pins;
    while todo != {}
      invariant todo <= pins
      invariant Proper(w, asked) && forall c | c in asked :: Dependant(w, b, c)
      invariant forall p | p in w.pins :: (AskedOf(w, asked, p) == if p in pins - todo then Some(to) else None)
    {
      var p :| p in todo;
      var c := w.pins[p].owner;
      assert Owns(w, c, p) && Watches(w, b, p);
      ghost var before := asked;
      asked := asked[c := (if c in asked then asked[c] else map[])[p := to]];
      AskOneMore(w, before, c, p, to, asked);
      todo := todo - {p};
    }
  }

  lemma AskOneMore(w: World, before: Asked, c: Branch, p: Pin, to: Hash, asked: Asked)
    requires Proper(w, before) && Owns(w, c, p) && Live(w, c)
    requires asked == before[c := (if c in before then before[c] else map[])[p := to]]
    ensures Proper(w, asked)
    ensures forall q | q in w.pins :: AskedOf(w, asked, q) == if q == p then Some(to) else AskedOf(w, before, q)
  {
    assert p in asked[c];
  }

  /** If nothing that updates with a branch leads back to it or loops, the plan started below it cannot fail. */
  lemma AcyclicBelow(w: World, g: Graph, h: Graph, b: Branch, roots: seq<Branch>)
    requires Wired(w, g) && Wired(w, h) && Cyclic(h, roots) && forall c | c in roots :: Dependant(w, b, c)
    requires b in w.branches
    ensures Cyclic(g, [b])
  {
    var p :| Loop(h, roots, p);
    forall i: nat | i + 1 < |p| ensures Step(g, p, i) { assert Step(h, p, i); }
    Hop(g, b, p[0]);
    Joined(g, [b, p[0]], p);
    var q := [b, p[0]] + p[1..];
    assert q == [b] + p && q[..|q| - 1] == [b] + p[..|p| - 1];
    assert Loop(g, [b], q);
  }

  lemma NotBelowItself(w: World, g: Graph, b: Branch, roots: seq<Branch>)
    requires Wired(w, g) && b in w.branches && Reach(g, roots, b) && forall c | c in roots :: Dependant(w, b, c)
    ensures Cyclic(g, [b])
  {
    var p :| Leads(g, roots, p, b);
    Hop(g, b, p[0]);
    Joined(g, [b, p[0]], p);
    var q := [b, p[0]] + p[1..];
    assert q[0] in q[..|q| - 1];
    assert Loop(g, [b], q);
  }

  /** Moves everything that follows a branch, unless following leads in a circle. */
  method UpdateBranchPin(u: Updater, parents: Parents, rows: set<Hash>, b: Branch, head: Option<Hash>, intermediate: bool)
    returns (pushes: Option<seq<seq<Push>>>, ghost g: Graph, ghost roots: seq<Branch>, ghost groups: seq<seq<Branch>>,
             ghost made: map<Branch, Hash>, ghost to: Hash)
    requires u.Good() && Live(u.w, b)
    modifies u
    ensures u.Good() && Wired(u.w, g)
    ensures pushes.None? <==> head.None? || Cyclic(g, [b]) || forall p :: !Watches(u.w, b, p)
    ensures pushes.None? ==> u.commits == old(u.commits)
    ensures pushes.Some? ==> Destination(u.w, parents, rows, b, head.value, intermediate, to)
    ensures pushes.Some? ==> Leveled(g, roots, groups) && Moves(u.w, g, roots, b, to, made, u.commits)
    ensures pushes.Some? ==> OneEach(old(u.commits), u.commits, made)
    ensures pushes.Some? ==> |pushes.value| == |groups| && forall k | 0 <= k < |groups| :: pushes.value[k] == RowOf(groups[k], made)
  {
    var edges := AutopinGraph(u.w);
    pushes, g, roots, groups, made, to := None, edges, [], [], map[], 0;
    var cycle := FindCycle(edges, [b]);
    if cycle.Some? || head.None? {
      return;
    }
    var asked, desired := ComputePinUpdate(u.w, parents, rows, b, head.value, intermediate);
    to := desired;
    if asked == map[] {
      forall p ensures !Watches(u.w, b, p) {
        assert p in u.w.pins ==> AskedOf(u.w, asked, p).None?;
      }
      return;
    }
    assert !forall p :: !Watches(u.w, b, p) by { AsksSome(u.w, b, to, asked); }
    ghost var own := g;
    pushes, g, roots, groups, made := u.ExecuteSinglePinUpdate(asked);
    if Cyclic(g, roots) {
      AcyclicBelow(u.w, own, g, b, roots);
      assert false;
    }
    if Cyclic(g, [b]) {
      SameCycles(own, g, [b]);
      assert false;
    }
    AllMoved(u.w, g, roots, asked, b, to, made, u.commits);
  }

  lemma SameCycles(g: Graph, h: Graph, roots: seq<Branch>)
    requires Cyclic(h, roots) && forall a, b :: Edge(g, a, b) <==> Edge(h, a, b)
    ensures Cyclic(g, roots)
  {
    var p :| Loop(h, roots, p);
    forall i: nat | i + 1 < |p| ensures Step(g, p, i) { assert Step(h, p, i); }
    assert Loop(g, roots, p);
  }

  lemma AsksSome(w: World, b: Branch, to: Hash, asked: Asked)
    requires Valid(w) && AsksFor(w, b, to, asked) && asked != map[]
    ensures exists p :: Watches(w, b, p)
  {
    var c :| c in asked;
    var p :| p in asked[c];
    assert Owns(w, c, p) && AskedOf(w, asked, p).Some?;
  }

  /** Every pin of a live branch that follows an updated branch names its new commit, those that follow b name where
      it moves, and no other pin moves. */
  ghost predicate Moves(w: World, g: Graph, roots: seq<Branch>, b: Branch, to: Hash, made: map<Branch, Hash>, commits: map<Hash, Commit>)
    requires Valid(w)
  {
    && b !in made
    && (forall c | c in made :: Reach(g, roots, c) && made[c] in commits && commits[made[c]].branch == c)
    && (forall p | p in w.pins && Live(w, w.pins[p].owner) ::
          After(w, made, commits, p) ==
            if NewBehind(w, made, p).Some? then NewBehind(w, made, p).value
            else if Watches(w, b, p) then to
            else w.current[p])
  }

  lemma AllMoved(w: World, g: Graph, roots: seq<Branch>, asked: Asked, b: Branch, to: Hash, made: map<Branch, Hash>, commits: map<Hash, Commit>)
    requires Valid(w) && Wired(w, g) && b in w.branches && !Cyclic(g, [b])
    requires AsksFor(w, b, to, asked) && (forall c | c in asked :: Dependant(w, b, c)) && (forall c :: c in roots <==> c in asked)
    requires Plan(w, g, asked, roots, made, commits)
    ensures Moves(w, g, roots, b, to, made, commits)
  {
    if b in made {
      NotBelowItself(w, g, b, roots);
      assert false;
    }
    forall p | p in w.pins && Live(w, w.pins[p].owner)
      ensures After(w, made, commits, p) ==
              if NewBehind(w, made, p).Some? then NewBehind(w, made, p).value
              else if Watches(w, b, p) then to
              else w.current[p]
    {
      AfterNames(w, g, asked, roots, made, commits, p);
    }
    forall c | c in made ensures Reach(g, roots, c) && made[c] in commits && commits[made[c]].branch == c {
      assert Right(w, asked, made, commits, c);
    }
  }
}
