/** Updating the pins of branches when the branches they are pinned to have moved. */
module Pins {
  import opened Options
  import opened Graphs

  type Branch = Node
  type Pin(==, !new)
  type Name(==, !new)
  type Hash = nat

  datatype BranchInfo = BranchInfo(repo: Option<Name>, name: Name)
  datatype PinInfo = PinInfo(owner: Branch, repo: Name, branchname: Name, auto: bool)

  /** Branches and pins, and the commit each pin names in the head of its branch. */
  datatype World = World(branches: map<Branch, BranchInfo>, pins: map<Pin, PinInfo>, current: map<Pin, Hash>)

  datatype Commit = Commit(branch: Branch, pins: map<Pin, Hash>)
  datatype Push = Push(branch: Branch, hash: Hash)

  type Asked = map<Branch, map<Pin, Hash>>

  predicate Live(w: World, b: Branch) {
    b in w.branches && w.branches[b].repo.Some?
  }

  predicate Names(w: World, p: Pin, a: Branch) {
    p in w.pins && Live(w, a) && w.branches[a] == BranchInfo(Some(w.pins[p].repo), w.pins[p].branchname)
  }

  /** A live branch is known by its repository and name. */
  ghost predicate Valid(w: World) {
    && w.current.Keys == w.pins.Keys
    && (forall p | p in w.pins :: w.pins[p].owner in w.branches)
    && (forall a, b | Live(w, a) && Live(w, b) && w.branches[a] == w.branches[b] :: a == b)
  }

  /** The pin follows the branch by itself. */
  predicate Follows(w: World, p: Pin, a: Branch) {
    Names(w, p, a) && w.pins[p].auto
  }

  predicate Owns(w: World, b: Branch, p: Pin) {
    p in w.pins && w.pins[p].owner == b
  }

  predicate Dependant(w: World, a: Branch, b: Branch) {
    Live(w, b) && exists p :: p in w.pins && Owns(w, b, p) && Follows(w, p, a)
  }

  /** The graph whose edges lead from a branch to those that update with it. */
  ghost predicate Wired(w: World, g: Graph) {
    && g.Keys == w.branches.Keys
    && (forall a, b :: Edge(g, a, b) <==> a in w.branches && Dependant(w, a, b))
    && (forall a | a in g :: Distinct(g[a]))
  }

  method AutopinGraph(w: World) returns (g: Graph)
    requires Valid(w)
    ensures Wired(w, g)
  {
    g := map[];
    var todo := w.branches.Keys;
    while todo != {}
      invariant todo <= w.branches.Keys && g.Keys == w.branches.Keys - todo
      invariant forall a, b :: Edge(g, a, b) <==> a in g && Dependant(w, a, b)
      invariant forall a | a in g :: Distinct(g[a])
    {
      var a :| a in todo;
      var below := ToList(set b | b in w.branches && Dependant(w, a, b));
      assert forall b :: b in below <==> b in Elems(below);
      g := g[a := below];
      todo := todo - {a};
    }
  }

  /** The branch that a pin names, if it is still there. */
  ghost function Target(w: World, p: Pin): Option<Branch> {
    if a :| Names(w, p, a) then Some(a) else None
  }

  method PinnedToBranch(w: World, p: Pin) returns (r: Option<Branch>)
    requires Valid(w) && p in w.pins
    ensures r == Target(w, p)
  {
    var todo := w.branches.Keys;
    while todo != {}
      invariant forall a | Names(w, p, a) :: a in todo
    {
      var a :| a in todo;
      if Names(w, p, a) {
        return Some(a);
      }
      todo := todo - {a};
    }
    r := None;
  }

  lemma TargetIsNamed(w: World, p: Pin, a: Branch)
    requires Valid(w)
    ensures Target(w, p) == Some(a) <==> Names(w, p, a)
  {
  }

  /** A pin leads to the branch that has a repository and both its names. */
  lemma TargetExactly(w: World, p: Pin, a: Branch)
    requires Valid(w) && p in w.pins
    ensures Target(w, p) == Some(a) <==> a in w.branches && w.branches[a] == BranchInfo(Some(w.pins[p].repo), w.pins[p].branchname)
  {
    TargetIsNamed(w, p, a);
  }

  /** An edge is an automatic pin of a branch that is still in a repository, naming the repository and branch it starts from. */
  lemma EdgeExactly(w: World, g: Graph, a: Branch, b: Branch)
    requires Valid(w) && Wired(w, g) && a in w.branches && b in w.branches
    ensures Edge(g, a, b) <==> w.branches[b].repo.Some? && exists p :: AutoPin(w, p, a, b)
  {
    assert Edge(g, a, b) <==> Dependant(w, a, b);
    assert forall p | p in w.pins :: Owns(w, b, p) && Follows(w, p, a) <==> AutoPin(w, p, a, b);
  }

  predicate AutoPin(w: World, p: Pin, a: Branch, b: Branch)
    requires a in w.branches
  {
    p in w.pins && w.pins[p].owner == b && w.pins[p].auto && w.branches[a] == BranchInfo(Some(w.pins[p].repo), w.pins[p].branchname)
  }

  /*** The plan ***/

  /** The new commit that a pin follows. */
  ghost function NewBehind(w: World, made: map<Branch, Hash>, p: Pin): Option<Hash> {
    if p in w.pins && w.pins[p].auto && Target(w, p).Some? && Target(w, p).value in made
    then Some(made[Target(w, p).value]) else None
  }

  /** What was asked of a pin. */
  function AskedOf(w: World, asked: Asked, p: Pin): Option<Hash> {
    if p in w.pins && w.pins[p].owner in asked && p in asked[w.pins[p].owner]
    then Some(asked[w.pins[p].owner][p]) else None
  }

  ghost function Wish(w: World, asked: Asked, made: map<Branch, Hash>, p: Pin): Option<Hash> {
    if NewBehind(w, made, p).Some? then NewBehind(w, made, p) else AskedOf(w, asked, p)
  }

  ghost function Wanted(w: World, asked: Asked, made: map<Branch, Hash>, b: Branch): map<Pin, Hash> {
    map p | p in w.pins && Owns(w, b, p) && Wish(w, asked, made, p).Some? :: Wish(w, asked, made, p).value
  }

  function Own(w: World, b: Branch): map<Pin, Hash>
    requires w.current.Keys == w.pins.Keys
  {
    map p | p in w.pins && Owns(w, b, p) :: w.current[p]
  }

  ghost predicate Differs(w: World, want: map<Pin, Hash>) {
    exists p :: p in want && p in w.current && want[p] != w.current[p]
  }

  /** A branch gets a commit exactly when that changes a pin, and it then names all that is wanted. */
  ghost predicate Right(w: World, asked: Asked, made: map<Branch, Hash>, commits: map<Hash, Commit>, b: Branch)
    requires Valid(w)
  {
    var want := Wanted(w, asked, made, b);
    && (b in made <==> Differs(w, want))
    && (b in made ==> made[b] in commits && commits[made[b]] == Commit(b, Own(w, b) + want))
  }

  /** A new commit has all the pins of its branch and no other; those for which nothing is wished stay as they were. */
  lemma CommitHasPins(w: World, asked: Asked, made: map<Branch, Hash>, commits: map<Hash, Commit>, b: Branch)
    requires Valid(w) && Right(w, asked, made, commits, b) && b in made
    ensures var c := commits[made[b]];
      && c.branch == b && (forall p :: p in c.pins <==> p in w.pins && w.pins[p].owner == b)
      && forall p | p in c.pins :: c.pins[p] == if Wish(w, asked, made, p).Some? then Wish(w, asked, made, p).value else w.current[p]
  {
  }

  /** Asked are only pins of the live branches they are listed under, and at least one each. */
  ghost predicate Proper(w: World, asked: Asked) {
    forall b | b in asked :: Live(w, b) && asked[b] != map[] && forall p | p in asked[b] :: Owns(w, b, p)
  }

  ghost predicate Progress(w: World, asked: Asked, made: map<Branch, Hash>, commits: map<Hash, Commit>, done: set<Branch>)
    requires Valid(w)
  {
    made.Keys <= done && forall b {:trigger Right(w, asked, made, commits, b)} | b in done :: Right(w, asked, made, commits, b)
  }

  /** No new hash is one that a pin already names. */
  ghost predicate Fresh(w: World, made: map<Branch, Hash>) {
    forall b, p | b in made && p in w.current :: made[b] != w.current[p]
  }

  lemma WantedStays(w: World, asked: Asked, made: map<Branch, Hash>, b: Branch, h: Hash, c: Branch)
    requires Valid(w) && !exists p :: p in w.pins && Owns(w, c, p) && Follows(w, p, b)
    ensures Wanted(w, asked, made[b := h], c) == Wanted(w, asked, made, c)
  {
    forall p | p in w.pins && Owns(w, c, p) ensures Wish(w, asked, made[b := h], p) == Wish(w, asked, made, p) {
      TargetIsNamed(w, p, b);
      assert !Follows(w, p, b);
    }
  }

  /** The next branch is dealt with, and none that were dealt with before follow it, nor it itself. */
  lemma Progresses(w: World, asked: Asked, made: map<Branch, Hash>, commits: map<Hash, Commit>, done: set<Branch>,
                   b: Branch, h: Option<Hash>, commits': map<Hash, Commit>)
    requires Valid(w) && Progress(w, asked, made, commits, done) && b !in done
    requires forall c, p | c in done + {b} && p in w.pins && Owns(w, c, p) :: !Follows(w, p, b)
    requires h.Some? <==> Differs(w, Wanted(w, asked, made, b))
    requires h.None? ==> commits' == commits
    requires h.Some? ==> h.value !in commits && commits' == commits[h.value := Commit(b, Own(w, b) + Wanted(w, asked, made, b))]
    ensures Progress(w, asked, if h.Some? then made[b := h.value] else made, commits', done + {b})
  {
    if h.Some? {
      forall c | c in done + {b} ensures Right(w, asked, made[b := h.value], commits', c) {
        WantedStays(w, asked, made, b, h.value, c);
        assert c in done ==> Right(w, asked, made, commits, c);
      }
    }
  }

  /*** What a finished plan means ***/

  /** Where a pin points once the plan is carried out. */
  ghost function After(w: World, made: map<Branch, Hash>, commits: map<Hash, Commit>, p: Pin): Hash
    requires Valid(w) && p in w.pins
  {
    var b := w.pins[p].owner;
    if b in made && made[b] in commits && p in commits[made[b]].pins then commits[made[b]].pins[p] else w.current[p]
  }

  ghost predicate Plan(w: World, g: Graph, asked: Asked, roots: seq<Branch>, made: map<Branch, Hash>, commits: map<Hash, Commit>)
    requires Valid(w)
  {
    && (forall b | b in made :: Reach(g, roots, b))
    && (forall b {:trigger Right(w, asked, made, commits, b)} | Reach(g, roots, b) :: Right(w, asked, made, commits, b))
    && Fresh(w, made)
  }

  /** A pin of a live branch that follows an updated branch names its new commit, whatever was asked; else it is what was asked, else what it was. */
  lemma AfterNames(w: World, g: Graph, asked: Asked, roots: seq<Branch>, made: map<Branch, Hash>, commits: map<Hash, Commit>, p: Pin)
    requires Valid(w) && Wired(w, g) && Proper(w, asked) && (forall x :: x in roots <==> x in asked)
    requires Plan(w, g, asked, roots, made, commits) && p in w.pins && Live(w, w.pins[p].owner)
    ensures After(w, made, commits, p) ==
            if NewBehind(w, made, p).Some? then NewBehind(w, made, p).value
            else if AskedOf(w, asked, p).Some? then AskedOf(w, asked, p).value
            else w.current[p]
    ensures NewBehind(w, made, p).Some? ==> w.pins[p].owner in made
  {
    var b := w.pins[p].owner;
    assert Owns(w, b, p);
    if Wish(w, asked, made, p).Some? {
      if NewBehind(w, made, p).Some? {
        var a := Target(w, p).value;
        assert Follows(w, p, a) && Dependant(w, a, b) && Edge(g, a, b);
        ReachEdge(g, roots, a, b);
      } else {
        ReachRoot(g, roots, b);
      }
      assert Right(w, asked, made, commits, b);
      assert p in Wanted(w, asked, made, b);
    } else if b in made {
      assert Right(w, asked, made, commits, b);
    }
  }

  ghost predicate Dirty(w: World, asked: Asked, b: Branch) {
    b in asked && Differs(w, asked[b])
  }

  ghost predicate Behind(w: World, g: Graph, asked: Asked, b: Branch) {
    exists d :: Dirty(w, asked, d) && Reach(g, [d], b)
  }

  lemma DirtyIsMade(w: World, g: Graph, asked: Asked, roots: seq<Branch>, made: map<Branch, Hash>, commits: map<Hash, Commit>, d: Branch)
    requires Valid(w) && Proper(w, asked) && (forall x :: x in roots <==> x in asked)
    requires Plan(w, g, asked, roots, made, commits) && Dirty(w, asked, d)
    ensures d in made
  {
    ReachRoot(g, roots, d);
    var p :| p in asked[d] && p in w.current && asked[d][p] != w.current[p];
    WishDiffers(w, asked, made, d, p);
    assert Right(w, asked, made, commits, d);
  }

  lemma WishDiffers(w: World, asked: Asked, made: map<Branch, Hash>, d: Branch, p: Pin)
    requires Valid(w) && Proper(w, asked) && Fresh(w, made)
    requires d in asked && p in asked[d] && p in w.current && asked[d][p] != w.current[p]
    ensures Differs(w, Wanted(w, asked, made, d))
  {
    assert Owns(w, d, p);
    assert Wish(w, asked, made, p).Some? && Wish(w, asked, made, p).value != w.current[p];
    var want := Wanted(w, asked, made, d);
    assert p in want && want[p] != w.current[p];
  }

  lemma {:induction false} AllBehindAreMade(w: World, g: Graph, asked: Asked, roots: seq<Branch>, made: map<Branch, Hash>,
                                            commits: map<Hash, Commit>, q: seq<Branch>, k: nat)
    requires Valid(w) && Wired(w, g) && Proper(w, asked) && (forall x :: x in roots <==> x in asked)
    requires Plan(w, g, asked, roots, made, commits) && Path(g, q) && Dirty(w, asked, q[0]) && k < |q|
    ensures q[k] in made
  {
    if k == 0 {
      DirtyIsMade(w, g, asked, roots, made, commits, q[0]);
    } else {
      AllBehindAreMade(w, g, asked, roots, made, commits, q, k - 1);
      var a, b := q[k - 1], q[k];
      assert Step(g, q, k - 1);
      assert Dependant(w, a, b);
      var p :| p in w.pins && Owns(w, b, p) && Follows(w, p, a);
      TargetIsNamed(w, p, a);
      ReachEdge(g, roots, a, b);
      assert Right(w, asked, made, commits, b);
      assert Wanted(w, asked, made, b)[p] == made[a];
    }
  }

  lemma {:induction false} MadeIsBehind(w: World, g: Graph, asked: Asked, roots: seq<Branch>, made: map<Branch, Hash>,
                                        commits: map<Hash, Commit>, groups: seq<seq<Branch>>, b: Branch, k: nat)
    requires Valid(w) && Wired(w, g) && Proper(w, asked) && (forall x :: x in roots <==> x in asked)
    requires Plan(w, g, asked, roots, made, commits) && Leveled(g, roots, groups) && At(groups, k, b) && b in made
    ensures Behind(w, g, asked, b)
    decreases k
  {
    assert Right(w, asked, made, commits, b);
    var p :| p in Wanted(w, asked, made, b) && Wanted(w, asked, made, b)[p] != w.current[p];
    if NewBehind(w, made, p).None? {
      ReachRoot(g, [b], b);
    } else {
      var a := Target(w, p).value;
      MadeIsLive(w, g, asked, roots, b);
      assert Follows(w, p, a) && Dependant(w, a, b) && Edge(g, a, b);
      assert InSome(groups, a);
      var j: nat :| At(groups, j, a);
      MadeIsBehind(w, g, asked, roots, made, commits, groups, a, j);
      var d :| Dirty(w, asked, d) && Reach(g, [d], a);
      ReachEdge(g, [d], a, b);
    }
  }

  lemma MadeIsLive(w: World, g: Graph, asked: Asked, roots: seq<Branch>, b: Branch)
    requires Wired(w, g) && Proper(w, asked) && (forall x :: x in roots <==> x in asked) && Reach(g, roots, b)
    ensures Live(w, b)
  {
    var q :| Leads(g, roots, q, b);
    if |q| > 1 {
      assert Step(g, q, |q| - 2);
    }
  }

  /** A branch gets a new commit exactly when autopins lead to it from a branch of which a change was asked. */
  lemma MadeExactly(w: World, g: Graph, asked: Asked, roots: seq<Branch>, made: map<Branch, Hash>, commits: map<Hash, Commit>,
                    groups: seq<seq<Branch>>, b: Branch)
    requires Valid(w) && Wired(w, g) && Proper(w, asked) && (forall x :: x in roots <==> x in asked)
    requires Plan(w, g, asked, roots, made, commits) && Leveled(g, roots, groups)
    ensures b in made <==> Behind(w, g, asked, b)
  {
    if b in made {
      assert InSome(groups, b);
      var k: nat :| At(groups, k, b);
      MadeIsBehind(w, g, asked, roots, made, commits, groups, b, k);
    }
    if Behind(w, g, asked, b) {
      BehindIsMade(w, g, asked, roots, made, commits, b);
    }
  }

  lemma BehindIsMade(w: World, g: Graph, asked: Asked, roots: seq<Branch>, made: map<Branch, Hash>, commits: map<Hash, Commit>, b: Branch)
    requires Valid(w) && Wired(w, g) && Proper(w, asked) && (forall x :: x in roots <==> x in asked)
    requires Plan(w, g, asked, roots, made, commits) && Behind(w, g, asked, b)
    ensures b in made
  {
    var d :| Dirty(w, asked, d) && Reach(g, [d], b);
    var q :| Leads(g, [d], q, b);
    AllBehindAreMade(w, g, asked, roots, made, commits, q, |q| - 1);
  }

  /*** Carrying it out ***/

  function RowOf(level: seq<Branch>, made: map<Branch, Hash>): seq<Push> {
    if level == [] then []
    else (if level[0] in made then [Push(level[0], made[level[0]])] else []) + RowOf(level[1..], made)
  }

  lemma {:induction false} RowHas(level: seq<Branch>, made: map<Branch, Hash>, x: Push)
    ensures x in RowOf(level, made) <==> x.branch in level && x.branch in made && made[x.branch] == x.hash
  {
    if level != [] {
      RowHas(level[1..], made, x);
      assert level == [level[0]] + level[1..];
    }
  }

  lemma {:induction false} RowOnce(level: seq<Branch>, made: map<Branch, Hash>)
    requires Distinct(level)
    ensures forall i, j | 0 <= i < j < |RowOf(level, made)| :: RowOf(level, made)[i].branch != RowOf(level, made)[j].branch
  {
    if level != [] {
      RowOnce(level[1..], made);
      var rest := RowOf(level[1..], made);
      forall i | 0 <= i < |rest| ensures rest[i].branch != level[0] {
        RowHas(level[1..], made, rest[i]);
      }
    }
  }

  /** Nothing dealt with so far follows the next branch. */
  lemma NotFollowed(w: World, g: Graph, roots: seq<Branch>, asked: Asked, groups: seq<seq<Branch>>, k: nat, i: nat, done: set<Branch>, c: Branch, p: Pin)
    requires Valid(w) && Wired(w, g) && Proper(w, asked) && (forall x :: x in roots <==> x in asked)
    requires Leveled(g, roots, groups) && k < |groups| && i < |groups[k]| && DoneAre(groups, k, i, done)
    requires c in done + {groups[k][i]} && p in w.pins && Owns(w, c, p)
    ensures !Follows(w, p, groups[k][i]) && groups[k][i] !in done
  {
    var b := groups[k][i];
    assert At(groups, k, b);
    assert Distinct(groups[k]) && (b in done <==> Handled(groups, k, i, b));
    var j: nat :| j <= k && At(groups, j, c);
    assert InSome(groups, c);
    MadeIsLive(w, g, asked, roots, c);
    assert Follows(w, p, b) ==> Dependant(w, b, c);
  }

  function In(m: map<Pin, Hash>, p: Pin): Option<Hash> {
    if p in m then Some(m[p]) else None
  }

  lemma SameLookups(m: map<Pin, Hash>, n: map<Pin, Hash>)
    requires forall p :: In(m, p) == In(n, p)
    ensures m == n
  {
    forall p ensures p in m <==> p in n { assert In(m, p) == In(n, p); }
    forall p | p in m ensures m[p] == n[p] { assert In(m, p) == In(n, p); }
  }

  /** Looking at the autopins alone is enough, as no other pin follows a branch. */
  lemma CollectedAll(w: World, asked: Asked, made: map<Branch, Hash>, b: Branch, autopins: set<Pin>, want: map<Pin, Hash>)
    requires autopins == set p | p in w.pins && Owns(w, b, p) && w.pins[p].auto
    requires forall p :: In(want, p) == if p in autopins then Wish(w, asked, made, p) else if Owns(w, b, p) then AskedOf(w, asked, p) else None
    ensures want == Wanted(w, asked, made, b)
  {
    forall p ensures In(want, p) == In(Wanted(w, asked, made, b), p) {
    }
    SameLookups(want, Wanted(w, asked, made, b));
  }

  /** Of the commits there now, those that were not there before are one for each branch of the plan. */
  ghost predicate OneEach(before: map<Hash, Commit>, now: map<Hash, Commit>, made: map<Branch, Hash>) {
    && (forall h | h in before :: h in now && now[h] == before[h])
    && (forall h | h in now && h !in before :: now[h].branch in made && made[now[h].branch] == h)
    && (forall b | b in made :: made[b] in now && made[b] !in before && now[made[b]].branch == b)
  }

  lemma OneEachMore(before: map<Hash, Commit>, was: map<Hash, Commit>, made: map<Branch, Hash>, b: Branch, h: Hash, c: Commit)
    requires OneEach(before, was, made) && b !in made && h !in was && c.branch == b
    ensures OneEach(before, was[h := c], made[b := h])
  {
  }

  class Updater {
    const w: World
    var next: Hash
    var commits: map<Hash, Commit>

    ghost predicate Good()
      reads this
    {
      Valid(w) && (forall h | h in commits :: h < next) && (forall p | p in w.current :: w.current[p] < next)
    }

    constructor (w: World, next: Hash)
      requires Valid(w) && forall p | p in w.current :: w.current[p] < next
      ensures Good() && this.w == w && commits == map[]
    {
      this.w, this.next, this.commits := w, next, map[];
    }

    /** Rewrites pins in the head of a branch; nothing is committed if all name the wanted commits already. */
    method UpdatePins(b: Branch, want: map<Pin, Hash>) returns (h: Option<Hash>)
      requires Good() && forall p | p in want :: Owns(w, b, p)
      modifies this
      ensures Good() && (h.Some? <==> Differs(w, want))
      ensures h.None? ==> next == old(next) && commits == old(commits)
      ensures h.Some? ==> h.value !in old(commits) && next == old(next) + 1 && old(next) == h.value
      ensures h.Some? ==> commits == old(commits)[h.value := Commit(b, Own(w, b) + want)]
    {
      var contents := Own(w, b);
      var applied := false;
      var todo := want.Keys;
      while todo != {}
        invariant todo <= want.Keys && contents.Keys == Own(w, b).Keys
        invariant forall p | p in contents :: contents[p] == if p in want && p !in todo then want[p] else w.current[p]
        invariant applied <==> exists p :: p in want && p in w.current && p !in todo && want[p] != w.current[p]
      {
        var p :| p in todo;
        assert Owns(w, b, p);
        if w.current[p] != want[p] {
          contents := contents[p := want[p]];
          applied := true;
        }
        todo := todo - {p};
      }
      if !applied {
        return None;
      }
      assert contents == Own(w, b) + want;
      h := Some(next);
      commits := commits[next := Commit(b, contents)];
      next := next + 1;
    }

    /** What was asked of a branch, overridden by the new commits its autopins follow. */
    method CollectWanted(asked: Asked, made: map<Branch, Hash>, b: Branch) returns (want: map<Pin, Hash>)
      requires Valid(w) && Proper(w, asked)
      ensures want == Wanted(w, asked, made, b)
    {
      want := if b in asked then asked[b] else map[];
      var todo := set p | p in w.pins && Owns(w, b, p) && w.pins[p].auto;
      ghost var all := todo;
      while todo != {}
        invariant todo <= all
        invariant forall p :: (In(want, p) == if p in all && p !in todo then Wish(w, asked, made, p) else if Owns(w, b, p) then AskedOf(w, asked, p) else None)
      {
        var p :| p in todo;
        assert Owns(w, b, p);
        var a := PinnedToBranch(w, p);
        if a.Some? && a.value in made {
          want := want[p := made[a.value]];
        }
        todo := todo - {p};
      }
      CollectedAll(w, asked, made, b, all, want);
    }

    /** Deals with one branch of the plan; in the first level, what was asked is all there is to want. */
    method UpdateBranch(ghost g: Graph, asked: Asked, ghost roots: seq<Branch>, made: map<Branch, Hash>, groups: seq<seq<Branch>>,
                        k: nat, i: nat, ghost done: set<Branch>) returns (made': map<Branch, Hash>)
      requires Good() && Wired(w, g) && Proper(w, asked) && (forall x :: x in roots <==> x in asked)
      requires Leveled(g, roots, groups) && k < |groups| && i < |groups[k]| && DoneAre(groups, k, i, done)
      requires Progress(w, asked, made, commits, done)
      modifies this
      ensures Good() && Progress(w, asked, made', commits, done + {groups[k][i]}) && next >= old(next)
      ensures forall before | OneEach(before, old(commits), made) :: OneEach(before, commits, made')
      ensures forall b | b in made' :: (b in made && made'[b] == made[b]) || made'[b] >= old(next)
    {
      var b := groups[k][i];
      assert At(groups, k, b) && InSome(groups, b);
      var want;
      if k == 0 {
        forall a | a in made ensures Reach(g, roots, a) { DoneReached(groups, k, i, done, g, roots, a); }
        FirstWants(w, g, asked, roots, groups, made, b);
        want := asked[b];
      } else {
        want := CollectWanted(asked, made, b);
      }
      forall c, p | c in done + {b} && p in w.pins && Owns(w, c, p) ensures !Follows(w, p, b) {
        NotFollowed(w, g, roots, asked, groups, k, i, done, c, p);
      }
      NotDone(groups, k, i, done, g, roots);
      ghost var before := commits;
      made' := made;
      if want != map[] {
        var h := UpdatePins(b, want);
        Progresses(w, asked, made, before, done, b, h, commits);
        if h.Some? {
          made' := made[b := h.value];
          forall earlier | OneEach(earlier, before, made) ensures OneEach(earlier, commits, made') {
            OneEachMore(earlier, before, made, b, h.value, commits[h.value]);
          }
        }
      } else {
        Progresses(w, asked, made, before, done, b, None, commits);
      }
    }

    /** Plans the new commits of all branches that update with those asked for; None is the failure on a cycle. */
    method ExecuteSinglePinUpdate(asked: Asked) returns (r: Option<seq<seq<Push>>>, ghost g: Graph, ghost roots: seq<Branch>,
                                  ghost groups: seq<seq<Branch>>, ghost made: map<Branch, Hash>)
      requires Good() && Proper(w, asked)
      modifies this
      ensures Good() && Wired(w, g) && forall b :: b in roots <==> b in asked
      ensures r.None? <==> Cyclic(g, roots)
      ensures r.None? ==> commits == old(commits)
      ensures r.Some? ==> Leveled(g, roots, groups) && Plan(w, g, asked, roots, made, commits) && OneEach(old(commits), commits, made)
      ensures r.Some? && asked != map[] ==> |r.value| == |groups| && forall k | 0 <= k < |groups| :: r.value[k] == RowOf(groups[k], made)
      ensures r.Some? && asked == map[] ==> r.value == [] && made == map[]
    {
      var edges := AutopinGraph(w);
      var branches := ToList(asked.Keys);
      g, roots, made, groups := edges, branches, map[], [];
      assert forall b :: b in roots <==> b in Elems(roots);
      if asked == map[] {
        NothingReached(g);
        DistinctFits(roots, {});
        return Some([]), g, roots, groups, made;
      }
      var levels := PlaceNodesInLevels(edges, branches);
      if !levels.Placed? {
        return None, g, roots, groups, made;
      }
      groups := levels.groups;
      var hashes: map<Branch, Hash> := map[];
      ghost var done := {};
      ghost var first := next;
      for k := 0 to |levels.groups|
        invariant Good() && DoneAre(groups, k, 0, done) && Progress(w, asked, hashes, commits, done)
        invariant next >= first && forall b | b in hashes :: hashes[b] >= first
        invariant OneEach(old(commits), commits, hashes)
      {
        for i := 0 to |levels.groups[k]|
          invariant Good() && DoneAre(groups, k, i, done) && Progress(w, asked, hashes, commits, done)
          invariant next >= first && forall b | b in hashes :: hashes[b] >= first
          invariant OneEach(old(commits), commits, hashes)
        {
          hashes := UpdateBranch(g, asked, roots, hashes, levels.groups, k, i, done);
          DoneNext(groups, k, i, done);
          done := done + {levels.groups[k][i]};
        }
        DoneLevel(groups, k, done);
      }
      made := hashes;
      Finished(w, g, asked, roots, groups, made, commits, done);
      r := Some(seq(|levels.groups|, k requires 0 <= k < |levels.groups| => RowOf(levels.groups[k], hashes)));
    }
  }

  lemma NothingReached(g: Graph)
    ensures Leveled(g, [], []) && !Cyclic(g, []) && forall b :: !Reach(g, [], b)
  {
  }

  lemma Finished(w: World, g: Graph, asked: Asked, roots: seq<Branch>, groups: seq<seq<Branch>>, made: map<Branch, Hash>,
                 commits: map<Hash, Commit>, done: set<Branch>)
    requires Valid(w) && Leveled(g, roots, groups) && DoneAre(groups, |groups|, 0, done)
    requires Progress(w, asked, made, commits, done)
    requires Fresh(w, made)
    ensures Plan(w, g, asked, roots, made, commits)
  {
    forall b ensures b in done <==> Reach(g, roots, b) {
      assert b in done <==> Handled(groups, |groups|, 0, b);
      if Reach(g, roots, b) {
        assert InSome(groups, b);
        var k: nat :| At(groups, k, b);
      } else {
        assert !InSome(groups, b);
      }
    }
  }

  /** Everything in the first level was asked for, and follows nothing in the plan. */
  lemma FirstWants(w: World, g: Graph, asked: Asked, roots: seq<Branch>, groups: seq<seq<Branch>>, made: map<Branch, Hash>, b: Branch)
    requires Valid(w) && Wired(w, g) && Proper(w, asked) && (forall x :: x in roots <==> x in asked)
    requires Leveled(g, roots, groups) && At(groups, 0, b) && forall a | a in made :: Reach(g, roots, a)
    ensures b in asked && Wanted(w, asked, made, b) == asked[b]
  {
    assert InSome(groups, b);
    FirstGroup(g, roots, groups, b);
    assert b in asked && Live(w, b);
    forall a | a in made ensures !Dependant(w, a, b) {
      assert Edge(g, a, b) <==> a in w.branches && Dependant(w, a, b);
    }
    NothingNewBehind(w, asked, made, b);
  }

  /** Who depends on no updated branch wants what was asked. */
  lemma NothingNewBehind(w: World, asked: Asked, made: map<Branch, Hash>, b: Branch)
    requires Valid(w) && Proper(w, asked) && b in asked && Live(w, b) && forall a | a in made :: !Dependant(w, a, b)
    ensures Wanted(w, asked, made, b) == asked[b]
  {
    forall p | p in w.pins && Owns(w, b, p) ensures NewBehind(w, made, p).None? {
      var t := Target(w, p);
      assert t.Some? && t.value in made && w.pins[p].auto ==> Dependant(w, t.value, b);
    }
    forall p | p in asked[b] ensures Owns(w, b, p) { }
  }
}
