/** Which branch reaches a commit, and its priority. */
module CommitPriority {
  // Both are kept up to date by background tasks that spread changes from a commit to its parents.
  import opened Options

  type Commit(==, !new)

  /** Commits and the parents each names; a commit whose data is not loaded names none. */
  datatype Graph = Graph(commits: set<Commit>, parents: map<Commit, seq<Commit>>)

  ghost predicate Closed(g: Graph) {
    && g.parents.Keys == g.commits
    && forall c, p | c in g.commits && p in g.parents[c] :: p in g.commits
  }

  /** A commit is always made after its parents. */
  ghost predicate Ranked(g: Graph, rank: map<Commit, nat>) {
    && Closed(g) && rank.Keys == g.commits
    && forall c, p | c in g.commits && p in g.parents[c] :: rank[p] < rank[c]
  }

  /*** Branch names, ordered as Python orders strings ***/

  predicate Before(a: string, b: string) {
    a == [] || (b != [] && (a[0] < b[0] || (a[0] == b[0] && Before(a[1..], b[1..]))))
  }

  lemma BeforeTotal(a: string, b: string)
    ensures Before(a, b) || Before(b, a)
    ensures Before(a, b) && Before(b, a) ==> a == b
    ensures Before(a, a)
  {
    if a != [] && b != [] {
      BeforeTotal(a[1..], b[1..]);
      if a[0] == b[0] && a[1..] == b[1..] {
        assert a == [a[0]] + a[1..] && b == [b[0]] + b[1..];
      }
    }
    if a != [] { BeforeTotal(a[1..], a[1..]); }
  }

  lemma BeforeTransitive(a: string, b: string, c: string)
    requires Before(a, b) && Before(b, c)
    ensures Before(a, c)
  {
    if a != [] && a[0] == b[0] && b[0] == c[0] {
      BeforeTransitive(a[1..], b[1..], c[1..]);
    }
  }

  /** A name comes before those that go on from it; otherwise the first character that differs decides. */
  lemma {:induction false} BeforeExactly(a: string, b: string)
    ensures Before(a, b) <==> a <= b || exists k: nat :: DiffersAt(a, b, k) && a[k] < b[k]
  {
    if a != [] && b != [] {
      assert DiffersAt(a, b, 0) <==> a[0] != b[0];
      if a[0] == b[0] {
        BeforeExactly(a[1..], b[1..]);
        assert a == [a[0]] + a[1..] && b == [b[0]] + b[1..];
        assert a <= b <==> a[1..] <= b[1..];
        forall k: nat ensures DiffersAt(a, b, k + 1) <==> DiffersAt(a[1..], b[1..], k) { DiffersLater(a, b, k); }
        if k: nat :| DiffersAt(a[1..], b[1..], k) && a[1..][k] < b[1..][k] {
          assert DiffersAt(a, b, k + 1) && a[k + 1] < b[k + 1];
        }
        if k: nat :| DiffersAt(a, b, k) && a[k] < b[k] {
          assert DiffersAt(a[1..], b[1..], k - 1);
        }
      }
    }
  }

  predicate DiffersAt(a: string, b: string, k: nat) {
    k < |a| && k < |b| && a[..k] == b[..k] && a[k] != b[k]
  }

  lemma DiffersLater(a: string, b: string, k: nat)
    requires a != [] && b != [] && a[0] == b[0]
    ensures DiffersAt(a, b, k + 1) <==> DiffersAt(a[1..], b[1..], k)
  {
    if k + 1 < |a| && k + 1 < |b| {
      assert a[..k + 1] == [a[0]] + a[1..][..k] && b[..k + 1] == [b[0]] + b[1..][..k];
    }
  }

  ghost predicate IsFirst(s: set<string>, b: string) {
    b in s && forall x | x in s :: Before(b, x)
  }

  lemma FirstUnique(s: set<string>, a: string, b: string)
    requires IsFirst(s, a) && IsFirst(s, b)
    ensures a == b
  {
    BeforeTotal(a, b);
  }

  /** `r` is the first name of `s`, or None when there is none: sorted(...)[0] with the empty case. */
  ghost predicate Chosen(s: set<string>, r: Option<string>) {
    match r case None => s == {} case Some(b) => IsFirst(s, b)
  }

  /*** States ***/

  datatype State = State(
    heads: map<string, Option<Commit>>,
    anyBranch: map<Commit, Option<string>>,
    userPriority: map<Commit, int>,
    calculated: map<Commit, int>,
    queued: set<Commit>)

  ghost predicate StateOk(g: Graph, s: State) {
    && Closed(g)
    && s.anyBranch.Keys == s.userPriority.Keys == s.calculated.Keys == g.commits
    && s.queued <= g.commits
    && forall b | b in s.heads && s.heads[b].Some? :: s.heads[b].value in g.commits
  }

  /** The branches a commit is headed by, and those its children have been told. */
  ghost function Candidates(g: Graph, s: State, c: Commit): set<string>
    requires StateOk(g, s)
  {
    (set b | b in s.heads && s.heads[b] == Some(c)) +
    (set ch | ch in g.commits && c in g.parents[ch] && s.anyBranch[ch].Some? :: s.anyBranch[ch].value)
  }

  function PriorityOf(any: Option<string>, userPriority: int): int {
    if any.Some? then userPriority else 0
  }

  /** The commit agrees with its own branches and children. */
  ghost predicate Settled(g: Graph, s: State, c: Commit)
    requires StateOk(g, s) && c in g.commits
  {
    && Chosen(Candidates(g, s, c), s.anyBranch[c])
    && s.calculated[c] == PriorityOf(s.anyBranch[c], s.userPriority[c])
  }

  /** It agrees at least on whether it can be reached. */
  ghost predicate RoughlySettled(g: Graph, s: State, c: Commit)
    requires StateOk(g, s) && c in g.commits
  {
    && (s.anyBranch[c].Some? <==> Candidates(g, s, c) != {})
    && s.calculated[c] == PriorityOf(s.anyBranch[c], s.userPriority[c])
  }

  ghost predicate Sound(g: Graph, s: State) {
    StateOk(g, s) && forall c {:trigger Settled(g, s, c)} | c in g.commits && c !in s.queued :: Settled(g, s, c)
  }

  ghost predicate RoughlySound(g: Graph, s: State) {
    StateOk(g, s) && forall c {:trigger RoughlySettled(g, s, c)} | c in g.commits && c !in s.queued :: RoughlySettled(g, s, c)
  }

  /*** What the settled values mean ***/

  ghost predicate IsPath(g: Graph, path: seq<Commit>)
    requires Closed(g)
  {
    && path != []
    && (forall i | 0 <= i < |path| :: path[i] in g.commits)
    && forall i | 0 <= i < |path| - 1 :: path[i + 1] in g.parents[path[i]]
  }

  /** The head of branch `b` descends from `c`. */
  ghost predicate Reaches(g: Graph, s: State, b: string, c: Commit)
    requires Closed(g)
  {
    b in s.heads && s.heads[b].Some? &&
    exists path :: IsPath(g, path) && path[0] == s.heads[b].value && path[|path| - 1] == c
  }

  lemma ReachesHead(g: Graph, s: State, b: string, c: Commit)
    requires StateOk(g, s) && b in s.heads && s.heads[b] == Some(c)
    ensures Reaches(g, s, b, c)
  {
    assert IsPath(g, [c]);
  }

  lemma ReachesParent(g: Graph, s: State, b: string, ch: Commit, c: Commit)
    requires StateOk(g, s) && ch in g.commits && Reaches(g, s, b, ch) && c in g.parents[ch]
    ensures Reaches(g, s, b, c)
  {
    var path :| IsPath(g, path) && path[0] == s.heads[b].value && path[|path| - 1] == ch;
    assert IsPath(g, path + [c]);
  }

  ghost function Above(g: Graph, rank: map<Commit, nat>, c: Commit): set<Commit>
    requires Ranked(g, rank) && c in g.commits
  {
    set d | d in g.commits && rank[d] > rank[c]
  }

  lemma AboveShrinks(g: Graph, rank: map<Commit, nat>, ch: Commit, c: Commit)
    requires Ranked(g, rank) && ch in g.commits && c in g.parents[ch]
    ensures Above(g, rank, ch) < Above(g, rank, c)
  {
    assert ch in Above(g, rank, c) && ch !in Above(g, rank, ch);
  }

  lemma CandidateFrom(g: Graph, s: State, c: Commit, b: string) returns (ch: Option<Commit>)
    requires StateOk(g, s) && b in Candidates(g, s, c)
    ensures ch.None? ==> b in s.heads && s.heads[b] == Some(c)
    ensures ch.Some? ==> ch.value in g.commits && c in g.parents[ch.value] && s.anyBranch[ch.value] == Some(b)
  {
    if b in s.heads && s.heads[b] == Some(c) {
      return None;
    }
    var d :| d in g.commits && c in g.parents[d] && s.anyBranch[d].Some? && s.anyBranch[d].value == b;
    return Some(d);
  }

  /** With nothing queued, a named branch really reaches the commit. */
  lemma {:induction false} NamedBranchReaches(g: Graph, rank: map<Commit, nat>, s: State, c: Commit)
    requires Ranked(g, rank) && Sound(g, s) && s.queued == {} && c in g.commits && s.anyBranch[c].Some?
    ensures Reaches(g, s, s.anyBranch[c].value, c)
    decreases Above(g, rank, c)
  {
    var b := s.anyBranch[c].value;
    assert Settled(g, s, c);
    var ch := CandidateFrom(g, s, c, b);
    if ch.None? {
      ReachesHead(g, s, b, c);
    } else {
      AboveShrinks(g, rank, ch.value, c);
      NamedBranchReaches(g, rank, s, ch.value);
      ReachesParent(g, s, b, ch.value, c);
    }
  }

  /** A settled commit names a branch no later than any of its candidates. */
  lemma NameKnown(g: Graph, s: State, c: Commit, x: string, b: string)
    requires Sound(g, s) && s.queued == {} && c in g.commits && Before(x, b)
    requires (x in s.heads && s.heads[x] == Some(c)) ||
             exists ch :: ch in g.commits && c in g.parents[ch] && s.anyBranch[ch] == Some(x)
    ensures s.anyBranch[c].Some? && Before(s.anyBranch[c].value, b)
  {
    assert x in Candidates(g, s, c) by {
      if !(x in s.heads && s.heads[x] == Some(c)) {
        var ch :| ch in g.commits && c in g.parents[ch] && s.anyBranch[ch] == Some(x);
        assert s.anyBranch[ch].value == x;
      }
    }
    assert Settled(g, s, c);
    BeforeTransitive(s.anyBranch[c].value, x, b);
  }

  /** With nothing queued, a reaching branch is never before the named one. */
  lemma {:induction false} NamedBranchFirst(g: Graph, s: State, path: seq<Commit>, b: string)
    requires Sound(g, s) && s.queued == {} && IsPath(g, path) && b in s.heads && s.heads[b] == Some(path[0])
    ensures var r := s.anyBranch[path[|path| - 1]]; r.Some? && Before(r.value, b)
  {
    var n := |path| - 1;
    BeforeTotal(b, b);
    if n == 0 {
      NameKnown(g, s, path[n], b, b);
    } else {
      NamedBranchFirst(g, s, path[..n], b);
      var x := s.anyBranch[path[n - 1]].value;
      assert path[n] in g.parents[path[n - 1]];
      NameKnown(g, s, path[n], x, b);
    }
  }

  /**
   Once the queue is empty, every commit names the first of the branches whose heads reach it, or
   none when no head does, and its priority is the user's exactly when it can be reached.
   */
  lemma DrainedMeansRight(g: Graph, rank: map<Commit, nat>, s: State, c: Commit)
    requires Ranked(g, rank) && Sound(g, s) && s.queued == {} && c in g.commits
    ensures match s.anyBranch[c]
            case Some(b) => Reaches(g, s, b, c) && forall x | Reaches(g, s, x, c) :: Before(b, x)
            case None => forall x :: !Reaches(g, s, x, c)
    ensures s.calculated[c] == if exists x :: Reaches(g, s, x, c) then s.userPriority[c] else 0
  {
    assert Settled(g, s, c);
    forall x | Reaches(g, s, x, c) ensures s.anyBranch[c].Some? && Before(s.anyBranch[c].value, x) {
      var path :| IsPath(g, path) && path[0] == s.heads[x].value && path[|path| - 1] == c;
      NamedBranchFirst(g, s, path, x);
    }
    if s.anyBranch[c].Some? {
      NamedBranchReaches(g, rank, s, c);
    }
  }

  lemma {:induction false} SomeBranchReaches(g: Graph, rank: map<Commit, nat>, s: State, c: Commit)
    requires Ranked(g, rank) && RoughlySound(g, s) && s.queued == {} && c in g.commits && s.anyBranch[c].Some?
    ensures exists b :: Reaches(g, s, b, c)
    decreases Above(g, rank, c)
  {
    assert RoughlySettled(g, s, c);
    var b :| b in Candidates(g, s, c);
    var ch := CandidateFrom(g, s, c, b);
    if ch.None? {
      ReachesHead(g, s, b, c);
    } else {
      AboveShrinks(g, rank, ch.value, c);
      SomeBranchReaches(g, rank, s, ch.value);
      var x :| Reaches(g, s, x, ch.value);
      ReachesParent(g, s, x, ch.value, c);
    }
  }

  lemma {:induction false} ReachedIsNamed(g: Graph, s: State, path: seq<Commit>, b: string)
    requires RoughlySound(g, s) && s.queued == {} && IsPath(g, path) && b in s.heads && s.heads[b] == Some(path[0])
    ensures s.anyBranch[path[|path| - 1]].Some?
  {
    var n := |path| - 1;
    assert RoughlySettled(g, s, path[n]);
    if n == 0 {
      assert b in Candidates(g, s, path[n]);
    } else {
      ReachedIsNamed(g, s, path[..n], b);
      assert s.anyBranch[path[n - 1]].value in Candidates(g, s, path[n]);
    }
  }

  /** Even when the names may be stale, an empty queue means that exactly the reachable commits have a branch and a priority. */
  lemma DrainedMeansReachabilityRight(g: Graph, rank: map<Commit, nat>, s: State, c: Commit)
    requires Ranked(g, rank) && RoughlySound(g, s) && s.queued == {} && c in g.commits
    ensures s.anyBranch[c].Some? <==> exists x :: Reaches(g, s, x, c)
    ensures s.calculated[c] == if exists x :: Reaches(g, s, x, c) then s.userPriority[c] else 0
  {
    assert RoughlySettled(g, s, c);
    if s.anyBranch[c].Some? {
      SomeBranchReaches(g, rank, s, c);
    }
    forall x | Reaches(g, s, x, c) ensures s.anyBranch[c].Some? {
      var path :| IsPath(g, path) && path[0] == s.heads[x].value && path[|path| - 1] == c;
      ReachedIsNamed(g, s, path, x);
    }
  }

  /*** One task ***/

  /** The state after the task of `c` has run: its values recomputed, and its parents queued if either changed. */
  ghost predicate Processed(g: Graph, s: State, t: State, c: Commit)
    requires StateOk(g, s) && c in g.commits
  {
    && t.heads == s.heads && t.userPriority == s.userPriority
    && t.anyBranch.Keys == g.commits && t.calculated.Keys == g.commits
    && (forall d | d in g.commits && d != c :: t.anyBranch[d] == s.anyBranch[d] && t.calculated[d] == s.calculated[d])
    && Chosen(Candidates(g, s, c), t.anyBranch[c])
    && t.calculated[c] == PriorityOf(t.anyBranch[c], s.userPriority[c])
    && var changed := t.anyBranch[c] != s.anyBranch[c] || t.calculated[c] != s.calculated[c];
       t.queued == (s.queued + if changed then (set p | p in g.parents[c]) else {}) - {c}
  }

  /** The candidates of any commit but the task's parents are untouched. */
  lemma ProcessedCandidates(g: Graph, s: State, t: State, c: Commit, d: Commit)
    requires StateOk(g, s) && c in g.commits && d in g.commits && Processed(g, s, t, c)
    requires d !in g.parents[c] || t.anyBranch[c] == s.anyBranch[c]
    ensures StateOk(g, t) && Candidates(g, t, d) == Candidates(g, s, d)
  {
  }

  lemma ProcessSound(g: Graph, rank: map<Commit, nat>, s: State, t: State, c: Commit)
    requires Ranked(g, rank) && Sound(g, s) && c in s.queued && Processed(g, s, t, c)
    ensures Sound(g, t)
  {
    assert c !in g.parents[c];
    forall d | d in g.commits && d !in t.queued ensures Settled(g, t, d) {
      ProcessedCandidates(g, s, t, c, d);
      if d != c { assert Settled(g, s, d); }
    }
  }

  lemma ProcessRoughlySound(g: Graph, rank: map<Commit, nat>, s: State, t: State, c: Commit)
    requires Ranked(g, rank) && RoughlySound(g, s) && c in s.queued && Processed(g, s, t, c)
    ensures RoughlySound(g, t)
  {
    assert c !in g.parents[c];
    forall d | d in g.commits && d !in t.queued ensures RoughlySettled(g, t, d) {
      ProcessedCandidates(g, s, t, c, d);
      if d != c { assert RoughlySettled(g, s, d); }
    }
  }

  /*** Termination: a commit weighs more than its parents together ***/

  ghost function Weight(g: Graph, rank: map<Commit, nat>, c: Commit): nat
    requires Ranked(g, rank) && c in g.commits
    decreases rank[c], 1, 0
  {
    1 + WeightOf(g, rank, g.parents[c], rank[c])
  }

  ghost function WeightOf(g: Graph, rank: map<Commit, nat>, ps: seq<Commit>, bound: nat): nat
    requires Ranked(g, rank) && forall p | p in ps :: p in g.commits && rank[p] < bound
    decreases bound, 0, |ps|
  {
    if ps == [] then 0 else Weight(g, rank, ps[0]) + WeightOf(g, rank, ps[1..], bound)
  }

  ghost function Total(g: Graph, rank: map<Commit, nat>, q: set<Commit>): nat
    requires Ranked(g, rank) && q <= g.commits
  {
    if q == {} then 0 else
      var c :| c in q;
      Weight(g, rank, c) + Total(g, rank, q - {c})
  }

  lemma {:induction false} TotalSplit(g: Graph, rank: map<Commit, nat>, q: set<Commit>, c: Commit)
    requires Ranked(g, rank) && q <= g.commits && c in q
    ensures Total(g, rank, q) == Weight(g, rank, c) + Total(g, rank, q - {c})
  {
    var d :| d in q && Total(g, rank, q) == Weight(g, rank, d) + Total(g, rank, q - {d});
    if d != c {
      TotalSplit(g, rank, q - {d}, c);
      TotalSplit(g, rank, q - {c}, d);
      assert q - {d} - {c} == q - {c} - {d};
    }
  }

  lemma {:induction false} TotalWithParents(g: Graph, rank: map<Commit, nat>, q: set<Commit>, ps: seq<Commit>, bound: nat)
    requires Ranked(g, rank) && q <= g.commits && forall p | p in ps :: p in g.commits && rank[p] < bound
    decreases |ps|
    ensures Total(g, rank, q + set p | p in ps) <= Total(g, rank, q) + WeightOf(g, rank, ps, bound)
  {
    if ps == [] {
      assert q + (set p | p in ps) == q;
    } else {
      TotalWithParents(g, rank, q + {ps[0]}, ps[1..], bound);
      WithFirst(q, ps);
      TotalPlus(g, rank, q, ps[0]);
    }
  }

  lemma WithFirst(q: set<Commit>, ps: seq<Commit>)
    requires ps != []
    ensures q + {ps[0]} + (set p | p in ps[1..]) == q + (set p | p in ps)
  {
    assert ps == [ps[0]] + ps[1..];
  }

  lemma TotalPlus(g: Graph, rank: map<Commit, nat>, q: set<Commit>, c: Commit)
    requires Ranked(g, rank) && q <= g.commits && c in g.commits
    ensures Total(g, rank, q + {c}) <= Total(g, rank, q) + Weight(g, rank, c)
  {
    TotalSplit(g, rank, q + {c}, c);
    if c in q {
      assert q + {c} == q;
    } else {
      assert q + {c} - {c} == q;
    }
  }

  /** Every task makes the queue lighter, whatever it adds. */
  lemma TaskLightens(g: Graph, rank: map<Commit, nat>, s: State, t: State, c: Commit)
    requires Ranked(g, rank) && StateOk(g, s) && c in s.queued && Processed(g, s, t, c)
    ensures t.queued <= g.commits && Total(g, rank, t.queued) < Total(g, rank, s.queued)
  {
    var q, ps := s.queued - {c}, g.parents[c];
    assert c !in ps;
    TotalSplit(g, rank, s.queued, c);
    if t.queued == q {
    } else {
      TotalWithParents(g, rank, q, ps, rank[c]);
      assert t.queued == q + set p | p in ps;
    }
  }

  /*** Edits of branches and priorities ***/

  /** Branch `b` now points at `head`; the commits it left and entered are queued. */
  function MoveHead(s: State, b: string, head: Option<Commit>): State {
    var was := if b in s.heads then s.heads[b] else None;
    s.(heads := s.heads[b := head],
       queued := s.queued + (if was.Some? then {was.value} else {}) + (if head.Some? then {head.value} else {}))
  }

  function SetPriority(s: State, c: Commit, p: int): State {
    s.(userPriority := s.userPriority[c := p], queued := s.queued + {c})
  }

  lemma MoveHeadSound(g: Graph, s: State, b: string, head: Option<Commit>)
    requires StateOk(g, s) && (head.Some? ==> head.value in g.commits)
    ensures StateOk(g, MoveHead(s, b, head))
    ensures Sound(g, s) ==> Sound(g, MoveHead(s, b, head))
    ensures RoughlySound(g, s) ==> RoughlySound(g, MoveHead(s, b, head))
  {
    var t := MoveHead(s, b, head);
    forall c | c in g.commits && c !in t.queued ensures Candidates(g, t, c) == Candidates(g, s, c) {
    }
    if Sound(g, s) {
      forall c | c in g.commits && c !in t.queued ensures Settled(g, t, c) { assert Settled(g, s, c); }
    }
    if RoughlySound(g, s) {
      forall c | c in g.commits && c !in t.queued ensures RoughlySettled(g, t, c) { assert RoughlySettled(g, s, c); }
    }
  }

  lemma SetPrioritySound(g: Graph, s: State, c: Commit, p: int)
    requires StateOk(g, s) && c in g.commits
    ensures StateOk(g, SetPriority(s, c, p))
    ensures Sound(g, s) ==> Sound(g, SetPriority(s, c, p))
    ensures RoughlySound(g, s) ==> RoughlySound(g, SetPriority(s, c, p))
  {
    var t := SetPriority(s, c, p);
    forall d | d in g.commits ensures Candidates(g, t, d) == Candidates(g, s, d) {
    }
    if Sound(g, s) {
      forall d | d in g.commits && d !in t.queued ensures Settled(g, t, d) { assert Settled(g, s, d); }
    }
    if RoughlySound(g, s) {
      forall d | d in g.commits && d !in t.queued ensures RoughlySettled(g, t, d) { assert RoughlySettled(g, s, d); }
    }
  }

  ghost predicate Claimed(s: State, t: State, c: Commit)
    requires c in s.anyBranch && c in t.anyBranch
  {
    s.anyBranch[c].None? && t.anyBranch[c].Some?
  }

  /**
   Branch `b` claims, from its head down, the commits that had no branch yet, and queues them; the walk
   stops at commits that some branch had claimed before.
   */
  ghost predicate Seeded(g: Graph, s: State, t: State, b: string)
    requires StateOk(g, s)
  {
    PartlySeeded(g, s, t, b, {})
  }

  /** The walk in progress, with the commits of `needing` still to be looked at. */
  ghost predicate PartlySeeded(g: Graph, s: State, t: State, b: string, needing: set<Commit>)
    requires StateOk(g, s)
  {
    && t.heads == s.heads && t.userPriority == s.userPriority && t.calculated == s.calculated
    && t.anyBranch.Keys == g.commits && needing <= g.commits
    && (forall c | c in g.commits :: t.anyBranch[c] == if Claimed(s, t, c) then Some(b) else s.anyBranch[c])
    && t.queued == s.queued + (set c | c in g.commits && Claimed(s, t, c))
    && b in s.heads
    && (s.heads[b].Some? ==> s.heads[b].value in needing || t.anyBranch[s.heads[b].value].Some?)
    && (forall c, p | c in g.commits && Claimed(s, t, c) && p in g.parents[c] :: p in needing || t.anyBranch[p].Some?)
    && (forall c | c in needing || (c in g.commits && Claimed(s, t, c)) :: Reaches(g, s, b, c))
  }

  lemma SkipStep(g: Graph, s: State, t: State, b: string, needing: set<Commit>, c: Commit)
    requires StateOk(g, s) && PartlySeeded(g, s, t, b, needing) && c in needing && t.anyBranch[c].Some?
    ensures PartlySeeded(g, s, t, b, needing - {c})
  {
  }

  lemma ClaimStep(g: Graph, s: State, t: State, b: string, needing: set<Commit>, c: Commit)
    requires StateOk(g, s) && PartlySeeded(g, s, t, b, needing) && c in needing && t.anyBranch[c].None?
    ensures PartlySeeded(g, s, t.(anyBranch := t.anyBranch[c := Some(b)], queued := t.queued + {c}), b,
                         needing - {c} + set p | p in g.parents[c])
  {
    var t' := t.(anyBranch := t.anyBranch[c := Some(b)], queued := t.queued + {c});
    assert forall d | d in g.commits :: Claimed(s, t', d) <==> Claimed(s, t, d) || d == c;
    forall p | p in g.parents[c] ensures Reaches(g, s, b, p) {
      ReachesParent(g, s, b, c, p);
    }
  }

  ghost function Unclaimed(g: Graph, anyBranch: map<Commit, Option<string>>): set<Commit>
    requires anyBranch.Keys == g.commits
  {
    set c | c in g.commits && anyBranch[c].None?
  }

  ghost predicate HasClaimedChild(g: Graph, s: State, t: State, p: Commit)
    requires StateOk(g, s) && t.anyBranch.Keys == g.commits
  {
    exists ch :: ch in g.commits && p in g.parents[ch] && Claimed(s, t, ch)
  }

  lemma SeededCandidates(g: Graph, s: State, t: State, b: string, c: Commit)
    requires StateOk(g, s) && Seeded(g, s, t, b) && c in g.commits
    ensures StateOk(g, t)
    ensures Candidates(g, t, c) == Candidates(g, s, c) + if HasClaimedChild(g, s, t, c) then {b} else {}
  {
    forall x | x in Candidates(g, t, c) ensures x in Candidates(g, s, c) || (x == b && HasClaimedChild(g, s, t, c)) {
      var ch := CandidateFrom(g, t, c, x);
      if ch.Some? && !Claimed(s, t, ch.value) {
        assert s.anyBranch[ch.value] == Some(x);
      }
    }
    forall x | x in Candidates(g, s, c) ensures x in Candidates(g, t, c) {
      var ch := CandidateFrom(g, s, c, x);
      if ch.Some? { assert t.anyBranch[ch.value] == Some(x); }
    }
    if HasClaimedChild(g, s, t, c) {
      var ch :| ch in g.commits && c in g.parents[ch] && Claimed(s, t, ch);
      assert t.anyBranch[ch] == Some(b);
    }
  }

  /** Claiming never breaks what is known about reachability. */
  lemma SeedRoughlySound(g: Graph, s: State, t: State, b: string)
    requires RoughlySound(g, s) && Seeded(g, s, t, b)
    ensures RoughlySound(g, t)
  {
    assert StateOk(g, t);
    forall c | c in g.commits && c !in t.queued ensures RoughlySettled(g, t, c) {
      SeededCandidates(g, s, t, b, c);
      assert RoughlySettled(g, s, c);
    }
  }

  /**
   But it breaks the names for now, exactly when the walk stopped below a claimed commit at one that
   names a later branch and is not queued. Whether a task tells that commit of `b` later is settled below.
   */
  lemma SeedSoundExactly(g: Graph, s: State, t: State, b: string)
    requires Sound(g, s) && Seeded(g, s, t, b)
    ensures Sound(g, t) <==>
            (forall p | p in g.commits && p !in t.queued && HasClaimedChild(g, s, t, p) ::
               s.anyBranch[p].Some? && Before(s.anyBranch[p].value, b))
  {
    assert StateOk(g, t);
    forall p | p in g.commits && p !in t.queued
      ensures Settled(g, t, p) <==>
              (HasClaimedChild(g, s, t, p) ==> s.anyBranch[p].Some? && Before(s.anyBranch[p].value, b))
    {
      SeededCandidates(g, s, t, b, p);
      assert Settled(g, s, p);
    }
  }

  /*** When a moved branch is named wherever it should be ***/

  /** Every commit names the first of the branches whose heads reach it, or none. */
  ghost predicate NamesRight(g: Graph, s: State)
    requires StateOk(g, s)
  {
    forall c {:trigger NameRight(g, s, c)} | c in g.commits :: NameRight(g, s, c)
  }

  ghost predicate NameRight(g: Graph, s: State, c: Commit)
    requires StateOk(g, s) && c in g.commits
  {
    match s.anyBranch[c]
    case Some(b) => Reaches(g, s, b, c) && forall x | Reaches(g, s, x, c) :: Before(b, x)
    case None => forall x :: !Reaches(g, s, x, c)
  }

  ghost predicate Leads(g: Graph, path: seq<Commit>, a: Commit, c: Commit)
    requires Closed(g)
  {
    IsPath(g, path) && path[0] == a && path[|path| - 1] == c
  }

  ghost predicate Below(g: Graph, a: Commit, c: Commit)
    requires Closed(g)
  {
    exists path :: Leads(g, path, a, c)
  }

  /** No branch reaches it yet, and it will be reached from `h`. */
  ghost predicate New(g: Graph, s: State, h: Commit, c: Commit)
    requires StateOk(g, s)
  {
    c in g.commits && s.anyBranch[c].None? && Below(g, h, c)
  }

  /** It names a branch that comes after `b`. */
  predicate Later(s: State, b: string, c: Commit) {
    c in s.anyBranch && s.anyBranch[c].Some? && !Before(s.anyBranch[c].value, b)
  }

  /** It lies below a parent, reached before, of a new commit that the user gave a priority. */
  ghost predicate Retold(g: Graph, s: State, h: Commit, c: Commit)
    requires StateOk(g, s)
  {
    exists k, q :: RetoldBy(g, s, h, c, k, q)
  }

  ghost predicate RetoldBy(g: Graph, s: State, h: Commit, c: Commit, k: Commit, q: Commit)
    requires StateOk(g, s)
  {
    New(g, s, h, k) && s.userPriority[k] != 0 && q in g.parents[k] && s.anyBranch[q].Some? && Below(g, q, c)
  }

  /** Before branch `b` is moved: every commit below the new head that names a later branch will be told. */
  ghost predicate AllRetold(g: Graph, s: State, b: string, top: Option<Commit>)
    requires StateOk(g, s)
  {
    top.Some? && top.value in g.commits && s.anyBranch[top.value].None? ==>
      forall c {:trigger Later(s, b, c)} | c in g.commits && Later(s, b, c) && Below(g, top.value, c) :: Retold(g, s, top.value, c)
  }

  /** A head that moves is the only one that does, and just it and the commits it leaves and enters are affected; without a new top nothing is. */
  lemma MovedExactly(s: State, b: string, top: Option<Commit>)
    requires b in s.heads
    ensures var t := Moved(s, b, top); var was := s.heads[b];
      && t.heads == (if top.Some? then s.heads[b := top] else s.heads)
      && t.anyBranch == s.anyBranch && t.calculated == s.calculated && t.userPriority == s.userPriority
      && forall c :: c in t.queued <==> c in s.queued || (top.Some? && top != was && (was == Some(c) || top == Some(c)))
  {
  }

  /** The state between the two parts of moving a branch. */
  function Moved(s: State, b: string, top: Option<Commit>): State {
    if top.Some? && (b !in s.heads || top != s.heads[b]) then MoveHead(s, b, top) else s
  }

  lemma BelowParent(g: Graph, a: Commit, d: Commit, c: Commit)
    requires Closed(g) && d in g.commits && Below(g, a, d) && c in g.parents[d]
    ensures Below(g, a, c)
  {
    var path :| Leads(g, path, a, d);
    assert Leads(g, path + [c], a, c);
  }

  lemma BelowSelf(g: Graph, c: Commit)
    requires Closed(g) && c in g.commits
    ensures Below(g, c, c)
  {
    assert Leads(g, [c], c, c);
  }

  /** In a quiet store, the parents of a named commit are named, and no later than it is. */
  lemma ParentNamed(g: Graph, s: State, d: Commit, c: Commit)
    requires Sound(g, s) && s.queued == {} && d in g.commits && c in g.parents[d] && s.anyBranch[d].Some?
    ensures s.anyBranch[c].Some? && Before(s.anyBranch[c].value, s.anyBranch[d].value)
  {
    BeforeTotal(s.anyBranch[d].value, s.anyBranch[d].value);
    NameKnown(g, s, c, s.anyBranch[d].value, s.anyBranch[d].value);
  }

  /** What a child of a commit with a later name, or with none, is called. */
  lemma ChildLater(g: Graph, s: State, b: string, d: Commit, c: Commit)
    requires Sound(g, s) && s.queued == {} && d in g.commits && c in g.parents[d]
    ensures Later(s, b, c) && s.anyBranch[d].Some? ==> Later(s, b, d)
    ensures s.anyBranch[c].None? ==> s.anyBranch[d].None?
  {
    if s.anyBranch[d].Some? {
      ParentNamed(g, s, d, c);
      if s.anyBranch[c].Some? && Before(s.anyBranch[d].value, b) {
        BeforeTransitive(s.anyBranch[c].value, s.anyBranch[d].value, b);
      }
    }
  }

  /** What the draining of the queue keeps while some later names may be left. */
  ghost predicate Spreading(g: Graph, s: State, b: string, h: Commit, u: State)
    requires StateOk(g, s)
  {
    && StateOk(g, u)
    && u.heads == s.heads[b := Some(h)] && u.userPriority == s.userPriority
    && (forall c {:trigger Spread(g, s, b, h, u, c)} | c in g.commits :: Spread(g, s, b, h, u, c))
  }

  ghost predicate Spread(g: Graph, s: State, b: string, h: Commit, u: State, c: Commit)
    requires StateOk(g, s) && StateOk(g, u) && c in g.commits
  {
    && (New(g, s, h, c) ==>
          u.anyBranch[c] == Some(b) && (u.calculated[c] == s.userPriority[c] || (u.calculated[c] == 0 && c in u.queued)))
    && (s.anyBranch[c].None? && !New(g, s, h, c) ==> u.anyBranch[c].None? && u.calculated[c] == 0)
    && (Later(s, b, c) ==>
          && (u.anyBranch[c] == s.anyBranch[c] || u.anyBranch[c] == Some(b))
          && (c in u.queued || u.anyBranch[c] == Some(b) ==> Retold(g, s, h, c))
          && (Told(g, s, b, h, u, c) ==> c in u.queued || u.anyBranch[c] == Some(b)))
    && (c !in u.queued ==> Settled(g, u, c) || (Later(s, b, c) && Below(g, h, c) && u.anyBranch[c] == s.anyBranch[c]))
  }

  /** Some child has changed to name `b`, in a way that queues this commit. */
  ghost predicate Told(g: Graph, s: State, b: string, h: Commit, u: State, c: Commit)
    requires StateOk(g, s) && StateOk(g, u)
  {
    exists d :: d in g.commits && c in g.parents[d] && Tells(g, s, b, h, u, d)
  }

  ghost predicate Tells(g: Graph, s: State, b: string, h: Commit, u: State, d: Commit)
    requires StateOk(g, s) && StateOk(g, u) && d in g.commits
  {
    || (New(g, s, h, d) && s.userPriority[d] != 0 && u.calculated[d] == s.userPriority[d])
    || (Later(s, b, d) && u.anyBranch[d] == Some(b))
  }

  /** A new commit has no branch to name but `b`. */
  lemma NewCandidates(g: Graph, s: State, b: string, h: Commit, u: State, c: Commit)
    requires Sound(g, s) && s.queued == {} && Spreading(g, s, b, h, u) && New(g, s, h, c)
    ensures Candidates(g, u, c) == {b}
  {
    assert Settled(g, s, c) && forall x :: x in s.heads && s.heads[x] == Some(c) ==> x in Candidates(g, s, c);
    forall x | x in Candidates(g, u, c) ensures x == b {
      var d := CandidateFrom(g, u, c, x);
      if d.Some? {
        ChildLater(g, s, b, d.value, c);
        assert Spread(g, s, b, h, u, d.value);
      }
    }
    var path :| Leads(g, path, h, c);
    if |path| > 1 {
      var d := path[|path| - 2];
      assert Leads(g, path[..|path| - 1], h, d) && c in g.parents[d];
      ChildLater(g, s, b, d, c);
      assert New(g, s, h, d) && Spread(g, s, b, h, u, d);
      assert u.anyBranch[d].value in Candidates(g, u, c);
    } else {
      assert u.heads[b] == Some(c);
    }
  }

  lemma UnreachedCandidates(g: Graph, s: State, b: string, h: Commit, u: State, c: Commit)
    requires Sound(g, s) && s.queued == {} && Spreading(g, s, b, h, u) && h in g.commits
    requires c in g.commits && s.anyBranch[c].None? && !New(g, s, h, c)
    ensures Candidates(g, u, c) == {}
  {
    assert Settled(g, s, c) && forall x :: x in s.heads && s.heads[x] == Some(c) ==> x in Candidates(g, s, c);
    BelowSelf(g, h);
    if x :| x in Candidates(g, u, c) {
      var d := CandidateFrom(g, u, c, x);
      if d.Some? {
        ChildLater(g, s, b, d.value, c);
        assert Spread(g, s, b, h, u, d.value);
        if New(g, s, h, d.value) { BelowParent(g, h, d.value, c); }
      }
    }
  }

  /** A commit with a later name has the candidates it had, with `b` in place of some once it is told. */
  lemma LaterCandidates(g: Graph, s: State, b: string, h: Commit, u: State, c: Commit)
    requires Sound(g, s) && s.queued == {} && Spreading(g, s, b, h, u) && h in g.commits && s.anyBranch[h].None?
    requires c in g.commits && Later(s, b, c)
    ensures b in Candidates(g, u, c) ==> IsFirst(Candidates(g, u, c), b)
    ensures b !in Candidates(g, u, c) ==> Candidates(g, u, c) == Candidates(g, s, c)
  {
    assert Settled(g, s, c);
    var x := s.anyBranch[c].value;
    BeforeTotal(x, b);
    forall y | y in Candidates(g, u, c) ensures y == b || y in Candidates(g, s, c) {
      var d := CandidateFrom(g, u, c, y);
      if d.Some? {
        ChildLater(g, s, b, d.value, c);
        assert Spread(g, s, b, h, u, d.value);
      }
    }
    forall y | y in Candidates(g, u, c) ensures Before(b, y) {
      BeforeTotal(b, b);
      if y != b { BeforeTransitive(b, x, y); }
    }
    if b !in Candidates(g, u, c) {
      forall y | y in Candidates(g, s, c) ensures y in Candidates(g, u, c) {
        LaterCandidateStays(g, s, b, h, u, c, y);
      }
    }
  }

  lemma LaterCandidateStays(g: Graph, s: State, b: string, h: Commit, u: State, c: Commit, y: string)
    requires Sound(g, s) && s.queued == {} && Spreading(g, s, b, h, u)
    requires c in g.commits && Later(s, b, c) && b !in Candidates(g, u, c) && y in Candidates(g, s, c)
    ensures y in Candidates(g, u, c)
  {
    assert Settled(g, s, c);
    var d := CandidateFrom(g, s, c, y);
    if d.Some? {
      ChildLater(g, s, b, d.value, c);
      assert Spread(g, s, b, h, u, d.value);
      assert u.anyBranch[d.value].value in Candidates(g, u, c);
    } else {
      assert y != b;
    }
  }

  lemma ToldHasCandidate(g: Graph, s: State, b: string, h: Commit, u: State, c: Commit)
    requires StateOk(g, s) && Spreading(g, s, b, h, u) && c in g.commits && Told(g, s, b, h, u, c)
    ensures b in Candidates(g, u, c)
  {
    var d :| d in g.commits && c in g.parents[d] && Tells(g, s, b, h, u, d);
    assert Spread(g, s, b, h, u, d);
    assert u.anyBranch[d].value in Candidates(g, u, c);
  }

  /** What the task of a commit leaves it with. */
  lemma ProcessedItself(g: Graph, s: State, b: string, h: Commit, u: State, v: State, c: Commit)
    requires Sound(g, s) && s.queued == {} && Spreading(g, s, b, h, u) && h in g.commits && s.anyBranch[h].None?
    requires c in u.queued && c !in g.parents[c] && Processed(g, u, v, c)
    ensures New(g, s, h, c) ==> v.anyBranch[c] == Some(b) && v.calculated[c] == s.userPriority[c]
    ensures s.anyBranch[c].None? && !New(g, s, h, c) ==> v.anyBranch[c].None? && v.calculated[c] == 0
    ensures Later(s, b, c) ==> v.anyBranch[c] == s.anyBranch[c] || v.anyBranch[c] == Some(b)
    ensures Later(s, b, c) && Told(g, s, b, h, u, c) ==> v.anyBranch[c] == Some(b)
  {
    if New(g, s, h, c) {
      NewCandidates(g, s, b, h, u, c);
    } else if s.anyBranch[c].None? {
      UnreachedCandidates(g, s, b, h, u, c);
    } else if Later(s, b, c) {
      LaterCandidates(g, s, b, h, u, c);
      assert Settled(g, s, c);
      if Told(g, s, b, h, u, c) { ToldHasCandidate(g, s, b, h, u, c); }
      if b in Candidates(g, u, c) {
        FirstUnique(Candidates(g, u, c), b, v.anyBranch[c].value);
      } else {
        FirstUnique(Candidates(g, s, c), s.anyBranch[c].value, v.anyBranch[c].value);
      }
    }
  }

  /** A task that queues a commit with a later name does so because of a new commit with a priority. */
  lemma QueuedIsRetold(g: Graph, s: State, b: string, h: Commit, u: State, v: State, c: Commit, d: Commit)
    requires Sound(g, s) && s.queued == {} && Spreading(g, s, b, h, u) && h in g.commits && s.anyBranch[h].None?
    requires c in u.queued && c !in g.parents[c] && Processed(g, u, v, c)
    requires d in g.parents[c] && Later(s, b, d) && (v.anyBranch[c] != u.anyBranch[c] || v.calculated[c] != u.calculated[c])
    ensures Retold(g, s, h, d)
  {
    ProcessedItself(g, s, b, h, u, v, c);
    assert Spread(g, s, b, h, u, c);
    ChildLater(g, s, b, c, d);
    if New(g, s, h, c) {
      BelowSelf(g, d);
      assert RetoldBy(g, s, h, d, c, d);
    } else {
      var k, q :| RetoldBy(g, s, h, c, k, q);
      BelowParent(g, q, c, d);
      assert RetoldBy(g, s, h, d, k, q);
    }
  }

  lemma SpreadStep(g: Graph, s: State, b: string, h: Commit, u: State, v: State, c: Commit)
    requires Sound(g, s) && s.queued == {} && Spreading(g, s, b, h, u) && h in g.commits && s.anyBranch[h].None?
    requires c in u.queued && c !in g.parents[c] && Processed(g, u, v, c)
    ensures Spreading(g, s, b, h, v)
  {
    ProcessedItself(g, s, b, h, u, v, c);
    forall d | d in g.commits ensures Spread(g, s, b, h, v, d) {
      if Later(s, b, d) { SpreadTold(g, s, b, h, u, v, c, d); }
      if d !in v.queued { SpreadSettled(g, s, b, h, u, v, c, d); }
      assert Spread(g, s, b, h, u, d);
      if d != c && d in v.queued && d !in u.queued && Later(s, b, d) {
        QueuedIsRetold(g, s, b, h, u, v, c, d);
      }
    }
  }

  /** Whoever is told by a task is queued by it. */
  lemma SpreadTold(g: Graph, s: State, b: string, h: Commit, u: State, v: State, c: Commit, d: Commit)
    requires Sound(g, s) && s.queued == {} && Spreading(g, s, b, h, u) && h in g.commits && s.anyBranch[h].None?
    requires c in u.queued && c !in g.parents[c] && Processed(g, u, v, c) && d in g.commits && Later(s, b, d)
    ensures Told(g, s, b, h, v, d) ==> d in v.queued || v.anyBranch[d] == Some(b)
  {
    assert Spread(g, s, b, h, u, d);
    if Told(g, s, b, h, v, d) && !Told(g, s, b, h, u, d) {
      var e :| e in g.commits && d in g.parents[e] && Tells(g, s, b, h, v, e);
      assert e == c;
    }
    if Told(g, s, b, h, u, d) && d == c {
      ProcessedItself(g, s, b, h, u, v, c);
    }
  }

  lemma SpreadSettled(g: Graph, s: State, b: string, h: Commit, u: State, v: State, c: Commit, d: Commit)
    requires StateOk(g, s) && Spreading(g, s, b, h, u)
    requires c in u.queued && c !in g.parents[c] && Processed(g, u, v, c) && d in g.commits && d !in v.queued
    ensures StateOk(g, v) && (Settled(g, v, d) || (Later(s, b, d) && Below(g, h, d) && v.anyBranch[d] == s.anyBranch[d]))
  {
    ProcessedCandidates(g, u, v, c, d);
    if d != c { assert Spread(g, s, b, h, u, d); }
  }

  /** The walk of the moved branch claims exactly the new commits. */
  lemma {:induction false} WalkClaims(g: Graph, s: State, b: string, h: Commit, t: State, path: seq<Commit>)
    requires Sound(g, s) && s.queued == {} && StateOk(g, Moved(s, b, Some(h))) && Seeded(g, Moved(s, b, Some(h)), t, b)
    requires path != [] && Leads(g, path, h, path[|path| - 1]) && s.anyBranch[path[|path| - 1]].None?
    ensures t.anyBranch[path[|path| - 1]].Some?
  {
    var n := |path| - 1;
    if n > 0 {
      var d := path[n - 1];
      assert Leads(g, path[..n], h, d) && path[n] in g.parents[d];
      ChildLater(g, s, b, d, path[n]);
      WalkClaims(g, s, b, h, t, path[..n]);
      assert Claimed(Moved(s, b, Some(h)), t, d);
    }
  }

  lemma ClaimedIsNew(g: Graph, s: State, b: string, h: Commit, t: State, c: Commit)
    requires Sound(g, s) && s.queued == {} && StateOk(g, Moved(s, b, Some(h))) && Seeded(g, Moved(s, b, Some(h)), t, b)
    requires c in g.commits
    ensures Claimed(Moved(s, b, Some(h)), t, c) <==> New(g, s, h, c)
  {
    var mid := Moved(s, b, Some(h));
    if Claimed(mid, t, c) {
      var path :| IsPath(g, path) && path[0] == mid.heads[b].value && path[|path| - 1] == c;
      assert Leads(g, path, h, c);
    }
    if New(g, s, h, c) {
      var path :| Leads(g, path, h, c);
      WalkClaims(g, s, b, h, t, path);
    }
  }

  lemma SpreadBegins(g: Graph, s: State, b: string, h: Commit, t: State)
    requires Sound(g, s) && s.queued == {} && h in g.commits && s.anyBranch[h].None?
    requires StateOk(g, Moved(s, b, Some(h))) && Seeded(g, Moved(s, b, Some(h)), t, b)
    ensures Spreading(g, s, b, h, t)
  {
    var mid := Moved(s, b, Some(h));
    assert Settled(g, s, h) && forall x :: x in s.heads && s.heads[x] == Some(h) ==> x in Candidates(g, s, h);
    assert mid == MoveHead(s, b, Some(h));
    MoveHeadSound(g, s, b, Some(h));
    BeforeTotal(b, b);
    forall c | c in g.commits ensures Spread(g, s, b, h, t, c) {
      BeginsSpread(g, s, b, h, t, c);
    }
  }

  lemma BeginsSpread(g: Graph, s: State, b: string, h: Commit, t: State, c: Commit)
    requires Sound(g, s) && s.queued == {} && h in g.commits && s.anyBranch[h].None? && c in g.commits
    requires Sound(g, Moved(s, b, Some(h))) && Seeded(g, Moved(s, b, Some(h)), t, b)
    ensures StateOk(g, t) && Spread(g, s, b, h, t, c)
  {
    BeforeTotal(b, b);
    ClaimedIsNew(g, s, b, h, t, c);
    assert Settled(g, s, c) && (b in s.heads && s.heads[b] == Some(c) ==> b in Candidates(g, s, c));
    NoneTold(g, s, b, h, t, c);
    if c !in t.queued { BeginsSettled(g, s, b, h, t, c); }
  }

  lemma NoneTold(g: Graph, s: State, b: string, h: Commit, t: State, c: Commit)
    requires Sound(g, s) && s.queued == {} && h in g.commits && c in g.commits
    requires StateOk(g, t) && StateOk(g, Moved(s, b, Some(h))) && Seeded(g, Moved(s, b, Some(h)), t, b)
    ensures !Told(g, s, b, h, t, c)
  {
    BeforeTotal(b, b);
    forall d | d in g.commits ensures !Tells(g, s, b, h, t, d) {
      ClaimedIsNew(g, s, b, h, t, d);
      assert Settled(g, s, d);
    }
  }

  lemma BeginsSettled(g: Graph, s: State, b: string, h: Commit, t: State, c: Commit)
    requires Sound(g, s) && s.queued == {} && h in g.commits && c in g.commits && c !in t.queued
    requires Sound(g, Moved(s, b, Some(h))) && Seeded(g, Moved(s, b, Some(h)), t, b)
    ensures StateOk(g, t) && (Settled(g, t, c) || (Later(s, b, c) && Below(g, h, c) && t.anyBranch[c] == s.anyBranch[c]))
  {
    var mid := Moved(s, b, Some(h));
    SeededCandidates(g, mid, t, b, c);
    assert Settled(g, mid, c);
    if HasClaimedChild(g, mid, t, c) {
      var d :| d in g.commits && c in g.parents[d] && Claimed(mid, t, d);
      ClaimedIsNew(g, s, b, h, t, d);
      BelowParent(g, h, d, c);
    }
  }

  /** Downwards from a named commit everything is named. */
  lemma {:induction false} NamedBelow(g: Graph, s: State, path: seq<Commit>, i: nat)
    requires Sound(g, s) && s.queued == {} && IsPath(g, path) && s.anyBranch[path[0]].Some? && i < |path|
    ensures s.anyBranch[path[i]].Some?
  {
    if i > 0 {
      NamedBelow(g, s, path, i - 1);
      ParentNamed(g, s, path[i - 1], path[i]);
    }
  }

  /** In a drained queue, telling has gone all the way down. */
  lemma {:induction false} ToldDown(g: Graph, s: State, b: string, h: Commit, u: State, k: Commit, path: seq<Commit>)
    requires Sound(g, s) && s.queued == {} && Spreading(g, s, b, h, u) && u.queued == {}
    requires New(g, s, h, k) && s.userPriority[k] != 0 && IsPath(g, path) && path[0] in g.parents[k]
    requires s.anyBranch[path[0]].Some? && Later(s, b, path[|path| - 1])
    ensures u.anyBranch[path[|path| - 1]] == Some(b)
  {
    var n := |path| - 1;
    var c := path[n];
    assert Spread(g, s, b, h, u, c);
    if n == 0 {
      assert Spread(g, s, b, h, u, k);
      assert Tells(g, s, b, h, u, k);
    } else {
      var d := path[n - 1];
      NamedBelow(g, s, path, n - 1);
      ChildLater(g, s, b, d, c);
      ToldDown(g, s, b, h, u, k, path[..n]);
      assert Tells(g, s, b, h, u, d);
    }
  }

  /** When the queue has drained, the names are right exactly when every later name below the new head was told. */
  lemma SpreadEnds(g: Graph, rank: map<Commit, nat>, s: State, b: string, h: Commit, u: State)
    requires Ranked(g, rank) && Sound(g, s) && s.queued == {} && h in g.commits && s.anyBranch[h].None?
    requires Spreading(g, s, b, h, u) && u.queued == {}
    ensures NamesRight(g, u) <==> AllRetold(g, s, b, Some(h))
  {
    BeforeTotal(b, b);
    if AllRetold(g, s, b, Some(h)) {
      forall c | c in g.commits ensures Settled(g, u, c) {
        assert Spread(g, s, b, h, u, c);
        if Later(s, b, c) && Below(g, h, c) {
          var k, q :| RetoldBy(g, s, h, c, k, q);
          var path :| Leads(g, path, q, c);
          ToldDown(g, s, b, h, u, k, path);
        }
      }
      assert Sound(g, u);
      forall c | c in g.commits ensures NameRight(g, u, c) {
        DrainedMeansRight(g, rank, u, c);
      }
    }
    if NamesRight(g, u) {
      forall c | c in g.commits && Later(s, b, c) && Below(g, h, c) ensures Retold(g, s, h, c) {
        assert Spread(g, s, b, h, u, c) && NameRight(g, u, c);
        var path :| Leads(g, path, h, c);
        assert Reaches(g, u, b, c);
      }
    }
  }

  /** Tasks alone, one after the other. */
  ghost predicate Drains(g: Graph, run: seq<State>) {
    run != [] &&
    if |run| == 1 then StateOk(g, run[0])
    else Drains(g, run[..|run| - 1]) && OneTask(g, run[|run| - 2], run[|run| - 1])
  }

  ghost predicate OneTask(g: Graph, u: State, v: State) {
    StateOk(g, u) && StateOk(g, v) && exists c :: c in u.queued && Processed(g, u, v, c)
  }

  lemma OneMoreTask(g: Graph, run: seq<State>, v: State)
    requires Drains(g, run) && OneTask(g, run[|run| - 1], v)
    ensures Drains(g, run + [v])
  {
    assert (run + [v])[..|run|] == run;
  }

  lemma TaskSpreads(g: Graph, rank: map<Commit, nat>, s: State, b: string, h: Commit, u: State, v: State)
    requires Ranked(g, rank) && Sound(g, s) && s.queued == {} && h in g.commits && s.anyBranch[h].None?
    requires OneTask(g, u, v) && Spreading(g, s, b, h, u)
    ensures Spreading(g, s, b, h, v)
  {
    var c :| c in u.queued && Processed(g, u, v, c);
    assert c !in g.parents[c];
    SpreadStep(g, s, b, h, u, v, c);
  }

  lemma {:induction false} DrainSpreads(g: Graph, rank: map<Commit, nat>, s: State, b: string, h: Commit, run: seq<State>)
    requires Ranked(g, rank) && Sound(g, s) && s.queued == {} && h in g.commits && s.anyBranch[h].None?
    requires Drains(g, run) && Spreading(g, s, b, h, run[0])
    ensures Spreading(g, s, b, h, run[|run| - 1])
  {
    var n := |run| - 1;
    if n > 0 {
      DrainSpreads(g, rank, s, b, h, run[..n]);
      TaskSpreads(g, rank, s, b, h, run[n - 1], run[n]);
    }
  }

  lemma TaskSound(g: Graph, rank: map<Commit, nat>, u: State, v: State)
    requires Ranked(g, rank) && OneTask(g, u, v) && Sound(g, u)
    ensures Sound(g, v)
  {
    var c :| c in u.queued && Processed(g, u, v, c);
    ProcessSound(g, rank, u, v, c);
  }

  lemma {:induction false} DrainSound(g: Graph, rank: map<Commit, nat>, run: seq<State>)
    requires Ranked(g, rank) && Drains(g, run) && Sound(g, run[0])
    ensures Sound(g, run[|run| - 1])
  {
    var n := |run| - 1;
    if n > 0 {
      DrainSound(g, rank, run[..n]);
      TaskSound(g, rank, run[n - 1], run[n]);
    }
  }

  /** A head that some branch reaches already leaves nothing to claim. */
  lemma NothingNew(g: Graph, s: State, b: string, top: Option<Commit>, t: State)
    requires Sound(g, s) && s.queued == {} && (top.Some? ==> top.value in g.commits && s.anyBranch[top.value].Some?)
    requires StateOk(g, Moved(s, b, top)) && Seeded(g, Moved(s, b, top), t, b)
    ensures Sound(g, t)
  {
    var mid := Moved(s, b, top);
    if mid != s { MoveHeadSound(g, s, b, top); }
    forall c | c in g.commits ensures !Claimed(mid, t, c) {
      if Claimed(mid, t, c) {
        var path :| IsPath(g, path) && path[0] == mid.heads[b].value && path[|path| - 1] == c;
        assert Settled(g, s, path[0]) && (b in s.heads && s.heads[b] == Some(path[0]) ==> b in Candidates(g, s, path[0]));
        NamedBelow(g, s, path, |path| - 1);
      }
    }
    SeedSoundExactly(g, mid, t, b);
  }

  /**
   A branch moves in a quiet store, and the queue drains in any order. Then every commit names the first branch
   that reaches it exactly when, before, every commit below the new head that named a later branch lay below
   a parent of some new commit with a priority; or when the new head was reached already.
   */
  lemma NamesRightExactly(g: Graph, rank: map<Commit, nat>, s: State, b: string, top: Option<Commit>, run: seq<State>)
    requires Ranked(g, rank) && Sound(g, s) && s.queued == {} && (top.Some? ==> top.value in g.commits)
    requires StateOk(g, Moved(s, b, top)) && Drains(g, run) && Seeded(g, Moved(s, b, top), run[0], b)
    requires run[|run| - 1].queued == {}
    ensures NamesRight(g, run[|run| - 1]) <==> AllRetold(g, s, b, top)
  {
    var n := |run| - 1;
    if top.Some? && s.anyBranch[top.value].None? {
      SpreadBegins(g, s, b, top.value, run[0]);
      DrainSpreads(g, rank, s, b, top.value, run);
      SpreadEnds(g, rank, s, b, top.value, run[n]);
    } else {
      NothingNew(g, s, b, top, run[0]);
      DrainSound(g, rank, run);
      forall c | c in g.commits ensures NameRight(g, run[n], c) {
        DrainedMeansRight(g, rank, run[n], c);
      }
    }
  }

  /*** A commit `h` that no branch had, above one that branch zeta heads, becomes the head of branch alpha ***/

  function StaleGraph(h: Commit, p: Commit): Graph {
    Graph({h, p}, map[h := [p], p := []])
  }

  /** `claimed` is what `h` names: nothing before the walk, alpha after it. */
  function StaleState(h: Commit, p: Commit, claimed: Option<string>, queued: set<Commit>): State {
    var zero := map[h := 0, p := 0];
    State(map["zeta" := Some(p), "alpha" := Some(h)],
          map[h := claimed, p := Some("zeta")], zero, zero, queued)
  }

  lemma StaleCandidates(h: Commit, p: Commit, claimed: Option<string>, queued: set<Commit>)
    requires h != p && queued <= {h}
    ensures var g, s := StaleGraph(h, p), StaleState(h, p, claimed, queued);
      && StateOk(g, s)
      && Candidates(g, s, h) == {"alpha"}
      && Candidates(g, s, p) == {"zeta"} + if claimed.Some? then {claimed.value} else {}
  {
    var g, s := StaleGraph(h, p), StaleState(h, p, claimed, queued);
    assert s.heads["alpha"] == Some(h) && s.heads["zeta"] == Some(p);
    assert "alpha" in Candidates(g, s, h) && "zeta" in Candidates(g, s, p);
    forall ch | ch in g.commits && p in g.parents[ch] ensures ch == h { }
    forall x | x in Candidates(g, s, p) ensures x == "zeta" || claimed == Some(x) {
      var ch := CandidateFrom(g, s, p, x);
    }
    if claimed.Some? {
      assert h in g.commits && p in g.parents[h] && s.anyBranch[h] == claimed;
    }
    StaleAbove(h, p, claimed, queued);
  }

  lemma StaleAbove(h: Commit, p: Commit, claimed: Option<string>, queued: set<Commit>)
    requires h != p && queued <= {h}
    ensures StateOk(StaleGraph(h, p), StaleState(h, p, claimed, queued))
    ensures forall x | x in Candidates(StaleGraph(h, p), StaleState(h, p, claimed, queued), h) :: x == "alpha"
  {
    var g, s := StaleGraph(h, p), StaleState(h, p, claimed, queued);
    forall x | x in Candidates(g, s, h) ensures x == "alpha" {
      var ch := CandidateFrom(g, s, h, x);
    }
  }

  lemma AlphaFirst()
    ensures Before("alpha", "zeta") && "alpha" != "zeta"
  {
    assert "alpha"[0] < "zeta"[0];
  }

  lemma StaleClaim(h: Commit, p: Commit)
    requires h != p
    ensures var g, s, t := StaleGraph(h, p), StaleState(h, p, None, {h}), StaleState(h, p, Some("alpha"), {h});
      StateOk(g, s) && Sound(g, s) && Seeded(g, s, t, "alpha")
  {
    var g, s, t := StaleGraph(h, p), StaleState(h, p, None, {h}), StaleState(h, p, Some("alpha"), {h});
    StaleCandidates(h, p, None, {h});
    BeforeTotal("zeta", "zeta");
    assert Settled(g, s, p);
    ReachesHead(g, s, "alpha", h);
    assert Claimed(s, t, h) && !Claimed(s, t, p);
  }

  lemma StaleTask(h: Commit, p: Commit)
    requires h != p
    ensures var g, t, u := StaleGraph(h, p), StaleState(h, p, Some("alpha"), {h}), StaleState(h, p, Some("alpha"), {});
      StateOk(g, t) && Processed(g, t, u, h)
  {
    StaleCandidates(h, p, Some("alpha"), {h});
    BeforeTotal("alpha", "alpha");
    assert Chosen({"alpha"}, Some("alpha"));
  }

  /** Quiet, before branch alpha has a head. */
  function StaleStart(h: Commit, p: Commit): State {
    StaleState(h, p, None, {}).(heads := map["zeta" := Some(p)])
  }

  lemma StaleBegins(h: Commit, p: Commit)
    requires h != p
    ensures var g, q := StaleGraph(h, p), StaleStart(h, p);
      Sound(g, q) && q.queued == {} && Moved(q, "alpha", Some(h)) == StaleState(h, p, None, {h})
  {
    StaleSettled(h, p);
    AlphaFirst();
  }

  lemma StaleSettled(h: Commit, p: Commit)
    requires h != p
    ensures var g, q := StaleGraph(h, p), StaleStart(h, p); Settled(g, q, p) && Settled(g, q, h)
  {
    var g, q := StaleGraph(h, p), StaleStart(h, p);
    BeforeTotal("zeta", "zeta");
    assert q.heads["zeta"] == Some(p) && "zeta" in Candidates(g, q, p);
    forall x | x in Candidates(g, q, p) ensures x == "zeta" { var ch := CandidateFrom(g, q, p, x); }
    if x :| x in Candidates(g, q, h) { var ch := CandidateFrom(g, q, h, x); }
  }

  /** The condition sees it coming: nobody has a priority, and the lower commit names a later branch. */
  lemma StaleForeseen(h: Commit, p: Commit)
    requires h != p
    ensures Sound(StaleGraph(h, p), StaleStart(h, p)) && !AllRetold(StaleGraph(h, p), StaleStart(h, p), "alpha", Some(h))
  {
    var g, q := StaleGraph(h, p), StaleStart(h, p);
    StaleBegins(h, p);
    AlphaFirst();
    BeforeTotal("alpha", "zeta");
    BelowSelf(g, h);
    BelowParent(g, h, h, p);
    assert Later(q, "alpha", p) && !Retold(g, q, h, p);
  }

  /** Its task finds nothing to change, so the lower commit keeps the later of two names although the queue has drained. */
  lemma StaleName(h: Commit, p: Commit)
    requires h != p
    ensures var g, q, s := StaleGraph(h, p), StaleStart(h, p), StaleState(h, p, None, {h});
      var t, u := StaleState(h, p, Some("alpha"), {h}), StaleState(h, p, Some("alpha"), {});
      && Sound(g, q) && q.queued == {} && Moved(q, "alpha", Some(h)) == s && !AllRetold(g, q, "alpha", Some(h))
      && Sound(g, s) && Seeded(g, s, t, "alpha") && StateOk(g, t) && Processed(g, t, u, h)
      && u.queued == {} && u.anyBranch[p] == Some("zeta")
      && Reaches(g, u, "alpha", p) && Before("alpha", "zeta") && "alpha" != "zeta"
  {
    StaleBegins(h, p);
    StaleForeseen(h, p);
    var g, u := StaleGraph(h, p), StaleState(h, p, Some("alpha"), {});
    StaleClaim(h, p);
    StaleTask(h, p);
    AlphaFirst();
    StaleCandidates(h, p, Some("alpha"), {});
    ReachesHead(g, u, "alpha", h);
    ReachesParent(g, u, "alpha", h, p);
  }

  /*** Runs ***/

  /** Anything that may happen to the store: a task, a head moved or dropped, a claim, a new priority. */
  ghost predicate Next(g: Graph, s: State, t: State) {
    && StateOk(g, s)
    && (|| (exists c :: c in s.queued && Processed(g, s, t, c))
        || (exists b, head: Option<Commit> :: (head.Some? ==> head.value in g.commits) && t == MoveHead(s, b, head))
        || (exists b :: Seeded(g, s, t, b))
        || (exists c, p :: c in g.commits && t == SetPriority(s, c, p)))
  }

  lemma {:induction false} RunRoughlySound(g: Graph, rank: map<Commit, nat>, run: seq<State>)
    requires Ranked(g, rank) && run != [] && RoughlySound(g, run[0])
    requires forall i | 0 <= i < |run| - 1 :: Next(g, run[i], run[i + 1])
    ensures RoughlySound(g, run[|run| - 1])
  {
    var n := |run| - 1;
    if n > 0 {
      RunRoughlySound(g, rank, run[..n]);
      var s, t := run[n - 1], run[n];
      assert Next(g, s, t);
      if c :| c in s.queued && Processed(g, s, t, c) {
        ProcessRoughlySound(g, rank, s, t, c);
      } else if b, head: Option<Commit> :| (head.Some? ==> head.value in g.commits) && t == MoveHead(s, b, head) {
        MoveHeadSound(g, s, b, head);
      } else if b :| Seeded(g, s, t, b) {
        SeedRoughlySound(g, s, t, b);
      } else {
        var c, p :| c in g.commits && t == SetPriority(s, c, p);
        SetPrioritySound(g, s, c, p);
      }
    }
  }

  /** Whenever any run of tasks and edits has emptied the queue, exactly the reachable commits have a priority. */
  lemma QuietStoreIsRight(g: Graph, rank: map<Commit, nat>, run: seq<State>, c: Commit)
    requires Ranked(g, rank) && run != [] && RoughlySound(g, run[0])
    requires forall i | 0 <= i < |run| - 1 :: Next(g, run[i], run[i + 1])
    requires run[|run| - 1].queued == {} && c in g.commits
    ensures var s := run[|run| - 1];
      && StateOk(g, s)
      && (s.anyBranch[c].Some? <==> exists x :: Reaches(g, s, x, c))
      && s.calculated[c] == if exists x :: Reaches(g, s, x, c) then s.userPriority[c] else 0
  {
    RunRoughlySound(g, rank, run);
    DrainedMeansReachabilityRight(g, rank, run[|run| - 1], c);
  }

  /*** The methods that do this ***/

  lemma AllDrainedRight(g: Graph, rank: map<Commit, nat>, s: State)
    requires Ranked(g, rank) && RoughlySound(g, s) && s.queued == {}
    ensures forall c | c in g.commits :: s.calculated[c] == if exists x :: Reaches(g, s, x, c) then s.userPriority[c] else 0
    ensures Sound(g, s) ==> NamesRight(g, s)
  {
    forall c | c in g.commits
      ensures Sound(g, s) ==> NameRight(g, s, c)
      ensures s.calculated[c] == if exists x :: Reaches(g, s, x, c) then s.userPriority[c] else 0
    {
      DrainedMeansReachabilityRight(g, rank, s, c);
      if Sound(g, s) { DrainedMeansRight(g, rank, s, c); }
    }
  }

  class CommitStore {
    const g: Graph
    var heads: map<string, Option<Commit>>
    var anyBranch: map<Commit, Option<string>>
    var userPriority: map<Commit, int>
    var calculated: map<Commit, int>
    var queued: set<Commit>

    ghost function Now(): State
      reads this
    {
      State(heads, anyBranch, userPriority, calculated, queued)
    }

    constructor (g: Graph)
      requires Closed(g)
      ensures this.g == g && Sound(g, Now()) && queued == {} && heads == map[]
      ensures forall c | c in g.commits :: anyBranch[c].None? && userPriority[c] == calculated[c] == 0
    {
      this.g, heads, queued := g, map[], {};
      anyBranch := map c | c in g.commits :: None;
      userPriority := map c | c in g.commits :: 0;
      calculated := map c | c in g.commits :: 0;
    }

    method CalcAnyBranch(c: Commit) returns (r: Option<string>)
      requires StateOk(g, Now()) && c in g.commits
      ensures Chosen(Candidates(g, Now(), c), r)
    {
      var branches: set<string> := {};
      var todo := heads.Keys;
      while todo != {}
        invariant todo <= heads.Keys
        invariant branches == set b | b in heads && b !in todo && heads[b] == Some(c)
      {
        var b :| b in todo;
        todo := todo - {b};
        if heads[b] == Some(c) {
          branches := branches + {b};
        }
      }
      ghost var headed := branches;
      var rest := g.commits;
      while rest != {}
        invariant rest <= g.commits
        invariant branches ==
          headed + set ch | ch in g.commits && ch !in rest && c in g.parents[ch] && anyBranch[ch].Some? :: anyBranch[ch].value
      {
        var child :| child in rest;
        rest := rest - {child};
        if c in g.parents[child] && anyBranch[child].Some? {
          branches := branches + {anyBranch[child].value};
        }
      }
      if branches == {} {
        return None;
      }
      var first := FirstOf(branches);
      return Some(first);
    }

    method Trigger(c: Commit)
      modifies this`queued
      ensures queued == old(queued) + {c}
    {
      if c !in queued {
        queued := queued + {c};
      }
    }

    method UpdateCommitPriority(c: Commit)
      requires StateOk(g, Now()) && c in g.commits && c !in g.parents[c]
      modifies this`anyBranch, this`calculated, this`queued
      ensures Processed(g, old(Now()), Now().(queued := queued - {c}), c)
      ensures old(queued) <= queued
    {
      var branch := CalcAnyBranch(c);
      var changed := false;
      if branch != anyBranch[c] {
        anyBranch := anyBranch[c := branch];
        changed := true;
      }
      var priority := PriorityOf(anyBranch[c], userPriority[c]);
      if priority != calculated[c] {
        calculated := calculated[c := priority];
        changed := true;
      }
      if changed {
        var ps := g.parents[c];
        for i := 0 to |ps|
          modifies this`queued
          invariant queued == old(queued) + set j | 0 <= j < i :: ps[j]
        {
          Trigger(ps[i]);
        }
        assert (set j | 0 <= j < |ps| :: ps[j]) == set p | p in ps;
      }
    }

    /** One whole task: it is in the queue while it runs, and deleted afterwards. */
    method Process(c: Commit, ghost rank: map<Commit, nat>)
      requires Ranked(g, rank) && StateOk(g, Now()) && c in queued
      modifies this`anyBranch, this`calculated, this`queued
      ensures StateOk(g, Now()) && Processed(g, old(Now()), Now(), c)
      ensures Total(g, rank, queued) < Total(g, rank, old(queued))
      ensures old(Sound(g, Now())) ==> Sound(g, Now())
      ensures old(RoughlySound(g, Now())) ==> RoughlySound(g, Now())
    {
      assert c !in g.parents[c];
      UpdateCommitPriority(c);
      queued := queued - {c};
      TaskLightens(g, rank, old(Now()), Now(), c);
      if old(Sound(g, Now())) { ProcessSound(g, rank, old(Now()), Now(), c); }
      if old(RoughlySound(g, Now())) { ProcessRoughlySound(g, rank, old(Now()), Now(), c); }
    }

    /**
     Running tasks in any order until none is left ends, and leaves every commit with its true priority, and with
     its true branch if only queued commits had another.
     */
    method Drain(ghost rank: map<Commit, nat>) returns (ghost run: seq<State>)
      requires Ranked(g, rank) && RoughlySound(g, Now())
      modifies this`anyBranch, this`calculated, this`queued
      ensures queued == {} && RoughlySound(g, Now())
      ensures Drains(g, run) && run[0] == old(Now()) && run[|run| - 1] == Now()
      ensures old(Sound(g, Now())) ==> NamesRight(g, Now())
      ensures forall c | c in g.commits ::
                calculated[c] == if exists x :: Reaches(g, Now(), x, c) then userPriority[c] else 0
    {
      run := [Now()];
      while queued != {}
        invariant RoughlySound(g, Now()) && (old(Sound(g, Now())) ==> Sound(g, Now()))
        invariant Drains(g, run) && run[0] == old(Now()) && run[|run| - 1] == Now()
        decreases Total(g, rank, queued)
      {
        var c :| c in queued;
        ghost var before := Now();
        Process(c, rank);
        assert OneTask(g, before, Now());
        OneMoreTask(g, run, Now());
        run := run + [Now()];
      }
      AllDrainedRight(g, rank, Now());
    }

    method SetCommitUserPriority(c: Commit, p: int)
      requires StateOk(g, Now()) && c in g.commits
      modifies this`userPriority, this`queued
      ensures Now() == if p != old(userPriority)[c] then SetPriority(old(Now()), c, p) else old(Now())
      ensures userPriority == old(userPriority)[c := p] && queued == old(queued) + if p != old(userPriority)[c] then {c} else {}
    {
      if p != userPriority[c] {
        userPriority := userPriority[c := p];
        Trigger(c);
      }
    }

    method BranchDeleted(b: string)
      requires StateOk(g, Now()) && b in heads
      modifies this`heads, this`queued
      ensures Now() == if old(heads)[b].Some? then MoveHead(old(Now()), b, None) else old(Now())
      ensures heads == old(heads)[b := None] && queued == old(queued) + if old(heads)[b].Some? then {old(heads)[b].value} else {}
    {
      var oldHead := heads[b];
      if oldHead.Some? {
        heads := heads[b := None];
        Trigger(oldHead.value);
      }
    }

    /** A fetched top commit moves the head, and then claims what no branch had claimed. */
    method UpdateBranchTopCommit(b: string, top: Option<Commit>)
      requires StateOk(g, Now()) && b in heads && (top.Some? ==> top.value in g.commits)
      modifies this`heads, this`anyBranch, this`queued
      ensures b in heads && StateOk(g, Moved(old(Now()), b, top)) && Seeded(g, Moved(old(Now()), b, top), Now(), b)
      ensures old(RoughlySound(g, Now())) ==> RoughlySound(g, Now())
    {
      var before := heads[b];
      if top.Some? && top != before {
        MoveHeadSound(g, Now(), b, top);
        heads := heads[b := top];
        if before.Some? {
          Trigger(before.value);
        }
        Trigger(top.value);
        assert Now() == MoveHead(old(Now()), b, top);
      }
      ghost var mid := Now();
      Seed(b);
      if old(RoughlySound(g, Now())) { SeedRoughlySound(g, mid, Now(), b); }
    }

    method Seed(b: string)
      requires StateOk(g, Now()) && b in heads
      modifies this`anyBranch, this`queued
      ensures Seeded(g, old(Now()), Now(), b)
    {
      var needing: set<Commit> := if heads[b].Some? then {heads[b].value} else {};
      if heads[b].Some? {
        ReachesHead(g, Now(), b, heads[b].value);
      }
      while needing != {}
        invariant PartlySeeded(g, old(Now()), Now(), b, needing)
        decreases Unclaimed(g, anyBranch), needing
      {
        var commit :| commit in needing;
        needing := SeedOne(b, commit, needing, old(Now()));
      }
    }

    method SeedOne(b: string, commit: Commit, needing: set<Commit>, ghost s: State) returns (left: set<Commit>)
      requires StateOk(g, s) && PartlySeeded(g, s, Now(), b, needing) && commit in needing
      modifies this`anyBranch, this`queued
      ensures PartlySeeded(g, s, Now(), b, left)
      ensures Unclaimed(g, anyBranch) < Unclaimed(g, old(anyBranch)) || (anyBranch == old(anyBranch) && left < needing)
    {
      if anyBranch[commit].None? {
        ClaimStep(g, s, Now(), b, needing, commit);
        anyBranch := anyBranch[commit := Some(b)];
        Trigger(commit);
        assert Now() == old(Now()).(anyBranch := old(anyBranch)[commit := Some(b)], queued := old(queued) + {commit});
        left := needing - {commit} + set p | p in g.parents[commit];
        assert commit in Unclaimed(g, old(anyBranch)) && commit !in Unclaimed(g, anyBranch);
      } else {
        SkipStep(g, s, Now(), b, needing, commit);
        left := needing - {commit};
      }
    }
  }

  /** sorted(names)[0] */
  method FirstOf(names: set<string>) returns (first: string)
    requires names != {}
    ensures IsFirst(names, first)
  {
    first :| first in names;
    BeforeTotal(first, first);
    var todo := names - {first};
    while todo != {}
      invariant todo <= names && first in names
      invariant forall x | x in names :: x in todo || Before(first, x)
    {
      var x :| x in todo;
      todo := todo - {x};
      BeforeTotal(first, x);
      BeforeTotal(x, x);
      if !Before(first, x) {
        forall y | y in names && y !in todo && y != x ensures Before(x, y) {
          BeforeTransitive(x, first, y);
        }
        first := x;
      }
    }
  }
}
