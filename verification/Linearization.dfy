/** In which order environments are searched, and what is found first. */
module Linearization {
  import opened Options
  import Graphs

  /** A test environment: one that stands alone, or one that imports others by name. */
  datatype Env =
    | Environment(name: string, variables: map<string, string>, timeout: int)
    | Import(name: string, imports: seq<string>, variables: map<string, string>, timeout: int)

  ghost predicate Distinct(s: seq<Env>) {
    forall i, j | 0 <= i < j < |s| :: s[i] != s[j]
  }

  /** `s` can be got from `r` by leaving elements out. */
  ghost predicate Subsequence(s: seq<Env>, r: seq<Env>) {
    s == [] || (r != [] && if s[0] == r[0] then Subsequence(s[1..], r[1..]) else Subsequence(s, r[1..]))
  }

  /** One order of all the elements, each once, that agrees with every one of the lists. */
  ghost predicate CommonOrder(r: seq<Env>, seqs: seq<seq<Env>>) {
    && Distinct(r)
    && (forall s | s in seqs :: Subsequence(s, r))
    && (forall x | x in r :: InSome(seqs, x))
  }

  ghost predicate InSome(seqs: seq<seq<Env>>, x: Env) {
    exists s :: s in seqs && x in s
  }

  lemma ConsDistinct(x: Env, s: seq<Env>)
    ensures Distinct([x] + s) <==> x !in s && Distinct(s)
  {
    var t := [x] + s;
    assert forall i | 0 <= i < |s| :: s[i] == t[i + 1];
    if Distinct(t) {
      forall i | 0 <= i < |s| ensures s[i] != x {
        assert t[0] != t[i + 1];
      }
    }
  }

  ghost predicate AllDistinct(seqs: seq<seq<Env>>) {
    forall s | s in seqs :: Distinct(s)
  }

  /** Some list has `x` after its head. */
  predicate InSomeTail(seqs: seq<seq<Env>>, x: Env) {
    exists i | 0 <= i < |seqs| :: seqs[i] != [] && x in seqs[i][1..]
  }

  /** The first head, in the order of the lists, that no list has further down. */
  function Candidate(all: seq<seq<Env>>, seqs: seq<seq<Env>>): Option<Env> {
    if seqs == [] then None
    else if seqs[0] != [] && !InSomeTail(all, seqs[0][0]) then Some(seqs[0][0])
    else Candidate(all, seqs[1..])
  }

  function WithoutHead(s: seq<Env>, x: Env): seq<Env> {
    if s != [] && s[0] == x then s[1..] else s
  }

  function RemoveHead(seqs: seq<seq<Env>>, x: Env): seq<seq<Env>> {
    seq(|seqs|, i requires 0 <= i < |seqs| => WithoutHead(seqs[i], x))
  }

  function TotalLength(seqs: seq<seq<Env>>): nat {
    if seqs == [] then 0 else |seqs[0]| + TotalLength(seqs[1..])
  }

  ghost predicate AllEmpty(seqs: seq<seq<Env>>) {
    forall i | 0 <= i < |seqs| :: seqs[i] == []
  }

  lemma {:induction false} CandidateIsHead(all: seq<seq<Env>>, seqs: seq<seq<Env>>)
    ensures Candidate(all, seqs).Some? ==>
              !InSomeTail(all, Candidate(all, seqs).value) &&
              exists i :: 0 <= i < |seqs| && seqs[i] != [] && seqs[i][0] == Candidate(all, seqs).value
    ensures Candidate(all, seqs).None? ==>
              forall i | 0 <= i < |seqs| && seqs[i] != [] :: InSomeTail(all, seqs[i][0])
  {
    if seqs != [] && !(seqs[0] != [] && !InSomeTail(all, seqs[0][0])) {
      CandidateIsHead(all, seqs[1..]);
      var c := Candidate(all, seqs);
      if c.Some? {
        var i :| 0 <= i < |seqs[1..]| && seqs[1..][i] != [] && seqs[1..][i][0] == c.value;
        assert seqs[i + 1] == seqs[1..][i];
      } else {
        assert forall i | 1 <= i < |seqs| :: seqs[i] == seqs[1..][i - 1];
      }
    }
  }

  lemma {:induction false} RemovalShortens(seqs: seq<seq<Env>>, x: Env)
    ensures TotalLength(RemoveHead(seqs, x)) <= TotalLength(seqs)
    ensures (exists i :: 0 <= i < |seqs| && seqs[i] != [] && seqs[i][0] == x) ==>
              TotalLength(RemoveHead(seqs, x)) < TotalLength(seqs)
  {
    if seqs != [] {
      RemovalShortens(seqs[1..], x);
      assert RemoveHead(seqs, x)[1..] == RemoveHead(seqs[1..], x);
      if i :| 0 <= i < |seqs| && seqs[i] != [] && seqs[i][0] == x {
        if i > 0 {
          assert seqs[1..][i - 1] == seqs[i];
        }
      }
    }
  }

  lemma {:induction false} EmptyMeansZero(seqs: seq<seq<Env>>)
    ensures AllEmpty(seqs) <==> TotalLength(seqs) == 0
  {
    if seqs != [] {
      EmptyMeansZero(seqs[1..]);
      assert forall i | 0 < i < |seqs| :: seqs[i] == seqs[1..][i - 1];
      assert AllEmpty(seqs) <==> seqs[0] == [] && AllEmpty(seqs[1..]);
    }
  }

  /** The merge, one candidate at a time. */
  function MergeOf(seqs: seq<seq<Env>>): Option<seq<Env>>
    decreases TotalLength(seqs)
  {
    if TotalLength(seqs) == 0 then Some([]) else
      var c := Candidate(seqs, seqs);
      if c.None? then None else
        CandidateIsHead(seqs, seqs);
        RemovalShortens(seqs, c.value);
        var rest := MergeOf(RemoveHead(seqs, c.value));
        if rest.None? then None else Some([c.value] + rest.value)
  }

  /** The loop of the source: heads are deleted from the lists until all are empty. */
  method Merge(input: seq<seq<Env>>) returns (r: Option<seq<Env>>)
    ensures r == MergeOf(input)
  {
    var res: seq<Env> := [];
    var seqs := input;
    assert MergeOf(input).Some? ==> [] + MergeOf(input).value == MergeOf(input).value;
    while TotalLength(seqs) != 0
      invariant MergeOf(input) == match MergeOf(seqs) case None => None case Some(rest) => Some(res + rest)
      decreases TotalLength(seqs)
    {
      var cand := Candidate(seqs, seqs);
      if cand.None? {
        return None;
      }
      CandidateIsHead(seqs, seqs);
      RemovalShortens(seqs, cand.value);
      ghost var before := res;
      res := res + [cand.value];
      ghost var rest := MergeOf(RemoveHead(seqs, cand.value));
      assert rest.Some? ==> before + ([cand.value] + rest.value) == res + rest.value;
      seqs := RemoveHead(seqs, cand.value);
    }
    assert res + [] == res;
    return Some(res);
  }

  /*** Soundness: a merge that succeeds is a common order ***/

  lemma {:induction false} SubsequenceMembers(s: seq<Env>, r: seq<Env>)
    requires Subsequence(s, r)
    ensures forall x | x in s :: x in r
    decreases |r|
  {
    if s != [] {
      if s[0] == r[0] {
        SubsequenceMembers(s[1..], r[1..]);
        assert s == [s[0]] + s[1..];
      } else {
        SubsequenceMembers(s, r[1..]);
      }
    }
  }

  lemma RemovedDistinct(seqs: seq<seq<Env>>, c: Env)
    requires AllDistinct(seqs)
    ensures AllDistinct(RemoveHead(seqs, c))
  {
    forall s | s in RemoveHead(seqs, c) ensures Distinct(s) {
      var i :| 0 <= i < |seqs| && s == WithoutHead(seqs[i], c);
      assert seqs[i] in seqs;
    }
  }

  /** A valid candidate is gone from every list once it is removed from the heads. */
  lemma CandidateGone(seqs: seq<seq<Env>>, c: Env, i: nat)
    requires AllDistinct(seqs) && i < |seqs| && !InSomeTail(seqs, c)
    ensures c !in WithoutHead(seqs[i], c)
  {
    var s := seqs[i];
    assert s in seqs;
    if s != [] {
      assert s == [s[0]] + s[1..];
      ConsDistinct(s[0], s[1..]);
    }
  }

  lemma {:induction false} MergeSound(seqs: seq<seq<Env>>)
    requires AllDistinct(seqs) && MergeOf(seqs).Some?
    ensures CommonOrder(MergeOf(seqs).value, seqs)
    decreases TotalLength(seqs)
  {
    EmptyMeansZero(seqs);
    if TotalLength(seqs) != 0 {
      var c := Candidate(seqs, seqs).value;
      CandidateIsHead(seqs, seqs);
      RemovalShortens(seqs, c);
      RemovedDistinct(seqs, c);
      var rest := RemoveHead(seqs, c);
      MergeSound(rest);
      PrependCandidate(MergeOf(rest).value, seqs, c);
    }
  }

  lemma PrependCandidate(r: seq<Env>, seqs: seq<seq<Env>>, c: Env)
    requires AllDistinct(seqs) && !InSomeTail(seqs, c)
    requires exists i :: 0 <= i < |seqs| && seqs[i] != [] && seqs[i][0] == c
    requires CommonOrder(r, RemoveHead(seqs, c))
    ensures CommonOrder([c] + r, seqs)
  {
    var rest := RemoveHead(seqs, c);
    var r' := [c] + r;
    assert r'[1..] == r;
    forall s | s in seqs ensures Subsequence(s, r') {
      var i :| 0 <= i < |seqs| && seqs[i] == s;
      assert rest[i] in rest;
    }
    forall x | x in r ensures x != c && InSome(seqs, x) {
      assert InSome(rest, x);
      var s' :| s' in rest && x in s';
      var i :| 0 <= i < |seqs| && s' == WithoutHead(seqs[i], c);
      CandidateGone(seqs, c, i);
      assert seqs[i] in seqs && x in seqs[i];
    }
    var i :| 0 <= i < |seqs| && seqs[i] != [] && seqs[i][0] == c;
    assert seqs[i] in seqs && c in seqs[i];
    ConsDistinct(c, r);
  }

  /*** Completeness: if there is a common order, the merge succeeds ***/

  function Filtered(s: seq<Env>, x: Env): seq<Env> {
    if s == [] then [] else (if s[0] == x then [] else [s[0]]) + Filtered(s[1..], x)
  }

  lemma {:induction false} FilteredMembers(s: seq<Env>, x: Env)
    ensures forall y :: y in Filtered(s, x) <==> y in s && y != x
    ensures Distinct(s) ==> Distinct(Filtered(s, x))
    ensures x !in s ==> Filtered(s, x) == s
  {
    if s != [] {
      var rest := Filtered(s[1..], x);
      FilteredMembers(s[1..], x);
      assert s == [s[0]] + s[1..];
      if Distinct(s) {
        assert Distinct(s[1..]) && s[0] !in s[1..];
        assert s[0] !in rest;
        ConsDistinct(s[0], rest);
      }
    }
  }

  lemma {:induction false} FilteredSubsequence(s: seq<Env>, r: seq<Env>, x: Env)
    requires Subsequence(s, r)
    ensures Subsequence(Filtered(s, x), Filtered(r, x))
    decreases |r|
  {
    if s != [] {
      if s[0] == r[0] {
        FilteredSubsequence(s[1..], r[1..], x);
        if s[0] == x {
          assert Filtered(s, x) == Filtered(s[1..], x) && Filtered(r, x) == Filtered(r[1..], x);
        } else {
          assert Filtered(s, x)[1..] == Filtered(s[1..], x) && Filtered(r, x)[1..] == Filtered(r[1..], x);
        }
      } else {
        FilteredSubsequence(s, r[1..], x);
        if r[0] != x {
          SkipFirst(Filtered(s, x), Filtered(r[1..], x), r[0]);
          assert Filtered(r, x) == [r[0]] + Filtered(r[1..], x);
        } else {
          assert Filtered(r, x) == Filtered(r[1..], x);
        }
      }
    }
  }

  /** An extra element in front of `r` does no harm. */
  lemma {:induction false} SkipFirst(s: seq<Env>, r: seq<Env>, y: Env)
    requires Subsequence(s, r)
    ensures Subsequence(s, [y] + r)
    decreases |r|, 1
  {
    assert ([y] + r)[1..] == r;
    if s != [] && s[0] == y {
      DropFirst(s, r);
    }
  }

  lemma {:induction false} DropFirst(s: seq<Env>, r: seq<Env>)
    requires s != [] && Subsequence(s, r)
    ensures Subsequence(s[1..], r)
    decreases |r|, 0
  {
    if s[0] == r[0] {
      SkipFirst(s[1..], r[1..], r[0]);
      assert r == [r[0]] + r[1..];
    } else {
      DropFirst(s, r[1..]);
      SkipFirst(s[1..], r[1..], r[0]);
      assert r == [r[0]] + r[1..];
    }
  }

  /** The first element of a common order heads every list it is in, so some candidate is found. */
  lemma CommonOrderGivesCandidate(r: seq<Env>, seqs: seq<seq<Env>>)
    requires AllDistinct(seqs) && CommonOrder(r, seqs) && !AllEmpty(seqs)
    ensures Candidate(seqs, seqs).Some?
  {
    var k :| 0 <= k < |seqs| && seqs[k] != [];
    assert seqs[k] in seqs && Subsequence(seqs[k], r);
    var x := r[0];
    forall i | 0 <= i < |seqs| && seqs[i] != [] ensures x !in seqs[i][1..] {
      var s := seqs[i];
      assert s in seqs && Subsequence(s, r);
      if s[0] == x {
        assert s == [x] + s[1..];
        ConsDistinct(x, s[1..]);
      } else {
        SubsequenceMembers(s, r[1..]);
        assert r == [x] + r[1..];
        ConsDistinct(x, r[1..]);
      }
    }
    assert !InSomeTail(seqs, x);
    assert x in r && InSome(seqs, x);
    var s :| s in seqs && x in s;
    var i :| 0 <= i < |seqs| && seqs[i] == s;
    assert s == [s[0]] + s[1..];
    CandidateIsHead(seqs, seqs);
  }

  lemma CommonOrderWithout(r: seq<Env>, seqs: seq<seq<Env>>, c: Env)
    requires AllDistinct(seqs) && CommonOrder(r, seqs) && !InSomeTail(seqs, c)
    ensures CommonOrder(Filtered(r, c), RemoveHead(seqs, c))
  {
    var rest := RemoveHead(seqs, c);
    FilteredMembers(r, c);
    forall s | s in rest ensures Subsequence(s, Filtered(r, c)) {
      var i :| 0 <= i < |seqs| && s == rest[i];
      FilteredHead(seqs, c, i);
      assert seqs[i] in seqs;
      FilteredSubsequence(seqs[i], r, c);
    }
    var kept := Filtered(r, c);
    assert forall x | x in kept :: x in r && x != c;
    forall x | x in kept ensures InSome(rest, x) {
      StillInSome(r, seqs, c, x);
    }
  }

  lemma StillInSome(r: seq<Env>, seqs: seq<seq<Env>>, c: Env, x: Env)
    requires AllDistinct(seqs) && CommonOrder(r, seqs) && !InSomeTail(seqs, c) && x in r && x != c
    ensures InSome(RemoveHead(seqs, c), x)
  {
    assert InSome(seqs, x);
    var s :| s in seqs && x in s;
    var i :| 0 <= i < |seqs| && seqs[i] == s;
    FilteredHead(seqs, c, i);
    FilteredMembers(s, c);
    assert RemoveHead(seqs, c)[i] in RemoveHead(seqs, c);
  }

  lemma FilteredHead(seqs: seq<seq<Env>>, c: Env, i: nat)
    requires AllDistinct(seqs) && i < |seqs| && !InSomeTail(seqs, c)
    ensures WithoutHead(seqs[i], c) == Filtered(seqs[i], c)
  {
    CandidateGone(seqs, c, i);
    var s := seqs[i];
    FilteredMembers(s, c);
    if s != [] {
      FilteredMembers(s[1..], c);
      assert c !in s[1..];
    }
  }

  lemma {:induction false} MergeComplete(r: seq<Env>, seqs: seq<seq<Env>>)
    requires AllDistinct(seqs) && CommonOrder(r, seqs)
    ensures MergeOf(seqs).Some?
    decreases TotalLength(seqs)
  {
    EmptyMeansZero(seqs);
    if TotalLength(seqs) != 0 {
      CommonOrderGivesCandidate(r, seqs);
      var c := Candidate(seqs, seqs).value;
      CandidateIsHead(seqs, seqs);
      RemovalShortens(seqs, c);
      RemovedDistinct(seqs, c);
      CommonOrderWithout(r, seqs, c);
      MergeComplete(Filtered(r, c), RemoveHead(seqs, c));
    }
  }

  /** The merge fails exactly when the lists have no common order, and otherwise it is one. */
  lemma MergeExactly(seqs: seq<seq<Env>>)
    requires AllDistinct(seqs)
    ensures MergeOf(seqs).Some? <==> exists r :: CommonOrder(r, seqs)
    ensures MergeOf(seqs).Some? ==> CommonOrder(MergeOf(seqs).value, seqs)
  {
    if MergeOf(seqs).Some? {
      MergeSound(seqs);
      var r := MergeOf(seqs).value;
      assert CommonOrder(r, seqs);
    }
    if exists r :: CommonOrder(r, seqs) {
      var r :| CommonOrder(r, seqs);
      MergeComplete(r, seqs);
    }
  }

  /*** Which common order it is ***/

  /** `c` heads the earliest list whose head is in no tail. */
  ghost predicate FirstFree(seqs: seq<seq<Env>>, c: Env) {
    exists m: nat :: FreeAt(seqs, c, m)
  }

  ghost predicate FreeAt(seqs: seq<seq<Env>>, c: Env, m: nat) {
    && m < |seqs| && seqs[m] != [] && seqs[m][0] == c && !InSomeTail(seqs, c)
    && forall l: nat | l < m && seqs[l] != [] :: InSomeTail(seqs, seqs[l][0])
  }

  /** Each element is the one that is free first, among what is left. */
  ghost predicate Picked(seqs: seq<seq<Env>>, r: seq<Env>)
    decreases |r|
  {
    if r == [] then AllEmpty(seqs) else FirstFree(seqs, r[0]) && Picked(RemoveHead(seqs, r[0]), r[1..])
  }

  lemma {:induction false} CandidateIsFree(all: seq<seq<Env>>, seqs: seq<seq<Env>>) returns (m: nat)
    requires Candidate(all, seqs).Some?
    ensures m < |seqs| && seqs[m] != [] && seqs[m][0] == Candidate(all, seqs).value && !InSomeTail(all, seqs[m][0])
    ensures forall l: nat | l < m && seqs[l] != [] :: InSomeTail(all, seqs[l][0])
  {
    if seqs[0] != [] && !InSomeTail(all, seqs[0][0]) {
      m := 0;
    } else {
      var n := CandidateIsFree(all, seqs[1..]);
      m := n + 1;
      assert forall l: nat | 0 < l < m :: seqs[l] == seqs[1..][l - 1];
    }
  }

  lemma FreeIsCandidate(seqs: seq<seq<Env>>, c: Env)
    ensures FirstFree(seqs, c) <==> Candidate(seqs, seqs) == Some(c)
  {
    CandidateIsHead(seqs, seqs);
    if Candidate(seqs, seqs).Some? {
      var m := CandidateIsFree(seqs, seqs);
      assert FreeAt(seqs, Candidate(seqs, seqs).value, m);
      forall n: nat | FreeAt(seqs, c, n) ensures n == m { }
    }
  }

  /** The merge takes, time after time, the head of the first list whose head nothing else has further down. */
  lemma {:induction false} MergePicks(seqs: seq<seq<Env>>, r: seq<Env>)
    ensures MergeOf(seqs) == Some(r) <==> Picked(seqs, r)
    decreases |r|
  {
    EmptyMeansZero(seqs);
    if r != [] {
      var c := r[0];
      FreeIsCandidate(seqs, c);
      if Candidate(seqs, seqs) == Some(c) {
        MergePicks(RemoveHead(seqs, c), r[1..]);
        CandidateIsHead(seqs, seqs);
        RemovalShortens(seqs, c);
        assert r == [c] + r[1..];
      }
    } else if TotalLength(seqs) != 0 {
      assert MergeOf(seqs) != Some([]);
    }
  }

  /** No list but this one has these further down. */
  ghost predicate Alone(seqs: seq<seq<Env>>, a: nat) {
    a < |seqs| && forall m: nat, x | m < |seqs| && m != a && seqs[m] != [] && x in seqs[a] :: x !in seqs[m][1..]
  }

  ghost predicate NotUpTo(seqs: seq<seq<Env>>, a: nat, y: Env) {
    a < |seqs| && forall m: nat | m <= a :: y !in seqs[m]
  }

  lemma StillAlone(seqs: seq<seq<Env>>, a: nat, c: Env)
    requires Alone(seqs, a)
    ensures Alone(RemoveHead(seqs, c), a)
  {
    var rest := RemoveHead(seqs, c);
    forall m: nat, x | m < |rest| && m != a && rest[m] != [] && x in rest[a] ensures x !in rest[m][1..] {
      assert x in seqs[a] && seqs[m] != [] && x !in seqs[m][1..];
      assert forall z | z in rest[m][1..] :: z in seqs[m][1..];
    }
  }

  /** What is in a list that stands alone comes before all that is in later lists only. */
  lemma {:induction false} ListFirst(seqs: seq<seq<Env>>, a: nat, x: Env, y: Env)
    requires AllDistinct(seqs) && MergeOf(seqs).Some? && Alone(seqs, a) && NotUpTo(seqs, a, y)
    requires x in seqs[a] && y in MergeOf(seqs).value
    ensures Precedes(MergeOf(seqs).value, x, y)
    decreases TotalLength(seqs)
  {
    EmptyMeansZero(seqs);
    var c := Candidate(seqs, seqs).value;
    CandidateIsHead(seqs, seqs);
    RemovalShortens(seqs, c);
    PickedUpTo(seqs, a, c);
    var rest := RemoveHead(seqs, c);
    var r, t := MergeOf(seqs).value, MergeOf(rest).value;
    assert r == [c] + t && y in t;
    if x == c {
      var k :| 0 <= k < |t| && t[k] == y;
      assert r[0] == x && r[k + 1] == y;
    } else {
      RemovedDistinct(seqs, c);
      StillAlone(seqs, a, c);
      assert rest[a] == WithoutHead(seqs[a], c) && x in rest[a];
      ListFirst(rest, a, x, y);
      assert r[1..] == t;
      LaterPrecedes(r, x, y);
    }
  }

  /** As long as such a list is not empty, something is taken from it or from a list before it. */
  lemma PickedUpTo(seqs: seq<seq<Env>>, a: nat, c: Env)
    requires AllDistinct(seqs) && Alone(seqs, a) && seqs[a] != [] && Candidate(seqs, seqs) == Some(c)
    ensures exists m: nat :: m <= a && c in seqs[m]
  {
    var m := CandidateIsFree(seqs, seqs);
    var h := seqs[a][0];
    assert seqs[a] in seqs && seqs[a] == [h] + seqs[a][1..];
    ConsDistinct(h, seqs[a][1..]);
    forall l | 0 <= l < |seqs| && seqs[l] != [] ensures h !in seqs[l][1..] {
      if l != a { assert h in seqs[a]; }
    }
    assert !InSomeTail(seqs, h);
    assert m <= a && c in seqs[m];
  }

  /*** The resolution order of one environment ***/

  /** Among the environments that have a rank, each ranks above those it imports, and these have one too. */
  ghost predicate Acyclic(deps: map<string, Env>, rank: map<Env, nat>) {
    forall e: Env, d {:trigger d in e.imports, e in rank} | e in rank && e.Import? && d in e.imports && d in deps ::
      deps[d] in rank && rank[deps[d]] < rank[e]
  }

  function Reversed(s: seq<string>): (r: seq<string>)
    ensures |r| == |s| && forall x :: x in r <==> x in s
  {
    if s == [] then [] else Reversed(s[1..]) + [s[0]]
  }

  function Singles(names: seq<string>, deps: map<string, Env>): seq<seq<Env>>
    requires forall d | d in names :: d in deps
  {
    seq(|names|, i requires 0 <= i < |names| => [deps[names[i]]])
  }

  /** None stands for the exceptions: an unknown name, or no consistent order. */
  function Order(env: Env, deps: map<string, Env>, ghost rank: map<Env, nat>): Option<seq<Env>>
    requires Acyclic(deps, rank) && env in rank
    decreases rank[env], 1, 0
  {
    match env
    case Environment(_, _, _) => MergeOf([[env]])
    case Import(_, imports, _, _) =>
      var names := Reversed(imports);
      var orders := ImportOrders(names, deps, rank, rank[env]);
      if orders.None? then None else MergeOf([[env]] + orders.value + Singles(names, deps))
  }

  function ImportOrders(names: seq<string>, deps: map<string, Env>, ghost rank: map<Env, nat>, ghost bound: nat): (r: Option<seq<seq<Env>>>)
    requires Acyclic(deps, rank) && forall d | d in names && d in deps :: deps[d] in rank && rank[deps[d]] < bound
    ensures r.Some? ==> forall d | d in names :: d in deps
    ensures r.Some? ==> |r.value| == |names|
    ensures r.Some? ==> forall i | 0 <= i < |names| :: Some(r.value[i]) == Order(deps[names[i]], deps, rank)
    decreases bound, 0, |names|
  {
    if names == [] then Some([])
    else if names[0] !in deps then None
    else
      var first := Order(deps[names[0]], deps, rank);
      var rest := ImportOrders(names[1..], deps, rank, bound);
      if first.None? || rest.None? then None else Some([first.value] + rest.value)
  }

  /** The lists merged for an import: itself, the orders of what it imports, then each of those alone. */
  ghost function Lists(env: Env, deps: map<string, Env>, rank: map<Env, nat>): Option<seq<seq<Env>>>
    requires Acyclic(deps, rank) && env in rank && env.Import?
  {
    var names := Reversed(env.imports);
    var orders := ImportOrders(names, deps, rank, rank[env]);
    if orders.None? then None else Some([[env]] + orders.value + Singles(names, deps))
  }

  ghost predicate Precedes(r: seq<Env>, a: Env, b: Env) {
    exists i, j :: 0 <= i < j < |r| && r[i] == a && r[j] == b
  }

  /** Every environment of the order comes before everything it imports. */
  ghost predicate ImportersFirst(r: seq<Env>, deps: map<string, Env>) {
    forall e, d | e in r && e.Import? && d in e.imports :: d in deps && Precedes(r, e, deps[d])
  }

  /** What an order is promised to be. */
  ghost predicate GoodOrder(env: Env, r: seq<Env>, deps: map<string, Env>, rank: map<Env, nat>) {
    && Distinct(r)
    && r != [] && r[0] == env
    && (forall e | e in r :: e in rank && env in rank && rank[e] <= rank[env])
    && ImportersFirst(r, deps)
  }

  lemma {:induction false} SubsequencePrecedes(s: seq<Env>, r: seq<Env>, a: Env, b: Env)
    requires Subsequence(s, r) && Precedes(s, a, b)
    ensures Precedes(r, a, b)
    decreases |r|
  {
    var i, j :| 0 <= i < j < |s| && s[i] == a && s[j] == b;
    if s[0] == r[0] {
      if i > 0 {
        assert s[1..][i - 1] == a && s[1..][j - 1] == b;
        SubsequencePrecedes(s[1..], r[1..], a, b);
        LaterPrecedes(r, a, b);
      } else {
        SubsequenceMembers(s[1..], r[1..]);
        assert b == s[1..][j - 1] && b in s[1..] && b in r[1..];
        var k :| 0 <= k < |r[1..]| && r[1..][k] == b;
        assert r[k + 1] == b;
      }
    } else {
      SubsequencePrecedes(s, r[1..], a, b);
      LaterPrecedes(r, a, b);
    }
  }

  lemma LaterPrecedes(r: seq<Env>, a: Env, b: Env)
    requires r != [] && Precedes(r[1..], a, b)
    ensures Precedes(r, a, b)
  {
    var i, j :| 0 <= i < j < |r[1..]| && r[1..][i] == a && r[1..][j] == b;
    assert r[i + 1] == a && r[j + 1] == b;
  }

  ghost predicate Ordered(d: string, deps: map<string, Env>, rank: map<Env, nat>)
    requires Acyclic(deps, rank)
  {
    d in deps && deps[d] in rank && Order(deps[d], deps, rank).Some?
  }

  /** `s` holds environments that come with some import of `env`. */
  ghost predicate Imported(env: Env, deps: map<string, Env>, rank: map<Env, nat>, s: seq<Env>)
    requires Acyclic(deps, rank) && env in rank && env.Import?
  {
    exists d :: d in env.imports && Ordered(d, deps, rank) && (s == Order(deps[d], deps, rank).value || s == [deps[d]])
  }

  /** Each import's order is among the lists, and every list but the first comes from an import. */
  lemma ListsFrom(env: Env, deps: map<string, Env>, rank: map<Env, nat>)
    requires Acyclic(deps, rank) && env in rank && env.Import? && Lists(env, deps, rank).Some?
    ensures var lists := Lists(env, deps, rank).value;
      && lists != [] && lists[0] == [env]
      && (forall k | 1 <= k < |lists| :: Imported(env, deps, rank, lists[k]))
      && (forall d | d in env.imports :: Ordered(d, deps, rank) && Order(deps[d], deps, rank).value in lists)
  {
    var lists := Lists(env, deps, rank).value;
    forall k | 1 <= k < |lists| ensures Imported(env, deps, rank, lists[k]) {
      ListImported(env, deps, rank, k);
    }
    forall d | d in env.imports ensures Ordered(d, deps, rank) && Order(deps[d], deps, rank).value in lists {
      ImportListed(env, deps, rank, d);
    }
  }

  lemma ListImported(env: Env, deps: map<string, Env>, rank: map<Env, nat>, k: nat)
    requires Acyclic(deps, rank) && env in rank && env.Import? && Lists(env, deps, rank).Some?
    requires 1 <= k < |Lists(env, deps, rank).value|
    ensures Imported(env, deps, rank, Lists(env, deps, rank).value[k])
  {
    var names := Reversed(env.imports);
    var orders := ImportOrders(names, deps, rank, rank[env]).value;
    var i := if k - 1 < |orders| then k - 1 else k - 1 - |orders|;
    assert names[i] in names && names[i] in env.imports;
    assert Order(deps[names[i]], deps, rank) == Some(orders[i]);
  }

  lemma ImportListed(env: Env, deps: map<string, Env>, rank: map<Env, nat>, d: string)
    requires Acyclic(deps, rank) && env in rank && env.Import? && Lists(env, deps, rank).Some? && d in env.imports
    ensures Ordered(d, deps, rank) && Order(deps[d], deps, rank).value in Lists(env, deps, rank).value
  {
    var names := Reversed(env.imports);
    assert d in names;
    var i :| 0 <= i < |names| && names[i] == d;
    OrderAt(env, deps, rank, i);
  }

  lemma OrderAt(env: Env, deps: map<string, Env>, rank: map<Env, nat>, i: nat)
    requires Acyclic(deps, rank) && env in rank && env.Import? && Lists(env, deps, rank).Some? && i < |Reversed(env.imports)|
    ensures var names, lists := Reversed(env.imports), Lists(env, deps, rank).value;
      |lists| > i + 1 && Ordered(names[i], deps, rank) && Order(deps[names[i]], deps, rank).value == lists[i + 1]
  {
    var orders := ImportOrders(Reversed(env.imports), deps, rank, rank[env]).value;
    assert Lists(env, deps, rank).value[i + 1] == orders[i];
  }

  ghost predicate ImportsGood(env: Env, deps: map<string, Env>, rank: map<Env, nat>)
    requires Acyclic(deps, rank) && env in rank && env.Import?
  {
    forall d | d in env.imports && Ordered(d, deps, rank) :: GoodOrder(deps[d], Order(deps[d], deps, rank).value, deps, rank)
  }

  lemma ImportedBelow(env: Env, deps: map<string, Env>, rank: map<Env, nat>, s: seq<Env>)
    requires Acyclic(deps, rank) && env in rank && env.Import? && ImportsGood(env, deps, rank) && Imported(env, deps, rank, s)
    ensures Distinct(s) && forall x | x in s :: rank[x] < rank[env]
  {
    var d :| d in env.imports && Ordered(d, deps, rank) && (s == Order(deps[d], deps, rank).value || s == [deps[d]]);
    assert GoodOrder(deps[d], Order(deps[d], deps, rank).value, deps, rank);
  }

  lemma ListsDistinct(env: Env, deps: map<string, Env>, rank: map<Env, nat>)
    requires Acyclic(deps, rank) && env in rank && env.Import? && Lists(env, deps, rank).Some? && ImportsGood(env, deps, rank)
    ensures var lists := Lists(env, deps, rank).value; AllDistinct(lists) && !InSomeTail(lists, env)
  {
    ListsFrom(env, deps, rank);
    var lists := Lists(env, deps, rank).value;
    forall k | 0 <= k < |lists| ensures Distinct(lists[k]) && (lists[k] != [] ==> env !in lists[k][1..]) {
      if k > 0 {
        ImportedBelow(env, deps, rank, lists[k]);
        assert lists[k] != [] ==> forall x | x in lists[k][1..] :: x in lists[k];
      }
    }
  }

  lemma MergeStartsWith(lists: seq<seq<Env>>, env: Env)
    requires lists != [] && lists[0] == [env] && !InSomeTail(lists, env) && MergeOf(lists).Some?
    ensures MergeOf(lists).value != [] && MergeOf(lists).value[0] == env
  {
    assert Candidate(lists, lists) == Some(env);
  }

  lemma SingleOrder(env: Env)
    ensures MergeOf([[env]]).Some?
    ensures var r := MergeOf([[env]]).value; Distinct(r) && r != [] && r[0] == env && forall x | x in r :: x == env
  {
    var seqs := [[env]];
    assert Subsequence([env], [env]);
    assert InSome(seqs, env) by { assert [env] in seqs; }
    assert CommonOrder([env], seqs);
    MergeExactly(seqs);
    MergeStartsWith(seqs, env);
    forall x | x in MergeOf(seqs).value ensures x == env {
      assert InSome(seqs, x);
    }
  }

  /** A successful resolution: itself first, and every environment before what it imports. */
  lemma {:induction false} OrderGood(env: Env, deps: map<string, Env>, rank: map<Env, nat>)
    requires Acyclic(deps, rank) && env in rank && Order(env, deps, rank).Some?
    ensures GoodOrder(env, Order(env, deps, rank).value, deps, rank)
    decreases rank[env]
  {
    if env.Environment? {
      SingleOrder(env);
    } else {
      forall d | d in env.imports && Ordered(d, deps, rank)
        ensures GoodOrder(deps[d], Order(deps[d], deps, rank).value, deps, rank)
      {
        OrderGood(deps[d], deps, rank);
      }
      ListsFrom(env, deps, rank);
      ListsDistinct(env, deps, rank);
      var lists := Lists(env, deps, rank).value;
      MergeSound(lists);
      MergeStartsWith(lists, env);
      MergedImports(env, deps, rank, lists, MergeOf(lists).value);
    }
  }

  /** A common order of the lists, starting with the importer, is good. */
  lemma MergedImports(env: Env, deps: map<string, Env>, rank: map<Env, nat>, lists: seq<seq<Env>>, r: seq<Env>)
    requires Acyclic(deps, rank) && env in rank && env.Import? && ImportsGood(env, deps, rank)
    requires CommonOrder(r, lists) && r != [] && r[0] == env
    requires lists != [] && lists[0] == [env]
    requires forall k | 1 <= k < |lists| :: Imported(env, deps, rank, lists[k])
    requires forall d | d in env.imports :: Ordered(d, deps, rank) && Order(deps[d], deps, rank).value in lists
    ensures GoodOrder(env, r, deps, rank)
  {
    forall e | e in r ensures e in rank && rank[e] <= rank[env] {
      var n := ComesFrom(env, deps, rank, lists, r, e);
      if n.Some? {
        assert GoodOrder(deps[n.value], Order(deps[n.value], deps, rank).value, deps, rank);
      }
    }
    forall e, d | e in r && e.Import? && d in e.imports ensures d in deps && Precedes(r, e, deps[d]) {
      var n := ComesFrom(env, deps, rank, lists, r, e);
      if n.None? {
        ImportedLater(deps, rank, r, lists, env, d);
      } else {
        InnerPrecedes(env, deps, rank, r, lists, n.value, e, d);
      }
    }
  }

  /** Every environment of the merged order is the importer itself or comes with one of its imports. */
  lemma ComesFrom(env: Env, deps: map<string, Env>, rank: map<Env, nat>, lists: seq<seq<Env>>, r: seq<Env>, e: Env)
    returns (n: Option<string>)
    requires Acyclic(deps, rank) && env in rank && env.Import? && ImportsGood(env, deps, rank)
    requires CommonOrder(r, lists) && e in r && lists != [] && lists[0] == [env]
    requires forall k | 1 <= k < |lists| :: Imported(env, deps, rank, lists[k])
    ensures n.None? ==> e == env
    ensures n.Some? ==> n.value in env.imports && Ordered(n.value, deps, rank) && e in Order(deps[n.value], deps, rank).value
  {
    assert InSome(lists, e);
    var s :| s in lists && e in s;
    var k :| 0 <= k < |lists| && lists[k] == s;
    if k == 0 {
      return None;
    }
    var d :| d in env.imports && Ordered(d, deps, rank) && (s == Order(deps[d], deps, rank).value || s == [deps[d]]);
    assert GoodOrder(deps[d], Order(deps[d], deps, rank).value, deps, rank);
    return Some(d);
  }

  lemma InnerPrecedes(env: Env, deps: map<string, Env>, rank: map<Env, nat>, r: seq<Env>, lists: seq<seq<Env>>, n: string, e: Env, d: string)
    requires Acyclic(deps, rank) && env in rank && env.Import? && ImportsGood(env, deps, rank)
    requires n in env.imports && Ordered(n, deps, rank) && e in Order(deps[n], deps, rank).value
    requires CommonOrder(r, lists) && Order(deps[n], deps, rank).value in lists && e.Import? && d in e.imports
    ensures d in deps && Precedes(r, e, deps[d])
  {
    var o := Order(deps[n], deps, rank).value;
    assert GoodOrder(deps[n], o, deps, rank) && ImportersFirst(o, deps);
    assert Precedes(o, e, deps[d]);
    SubsequencePrecedes(o, r, e, deps[d]);
  }

  lemma ImportedLater(deps: map<string, Env>, rank: map<Env, nat>, r: seq<Env>, lists: seq<seq<Env>>, env: Env, d: string)
    requires Acyclic(deps, rank) && env in rank && env.Import? && d in env.imports && Ordered(d, deps, rank)
    requires CommonOrder(r, lists) && r != [] && r[0] == env && Order(deps[d], deps, rank).value in lists
    requires GoodOrder(deps[d], Order(deps[d], deps, rank).value, deps, rank)
    ensures Precedes(r, env, deps[d])
  {
    var o := Order(deps[d], deps, rank).value;
    SubsequenceMembers(o, r);
    assert o[0] == deps[d] && deps[d] in r;
    var j :| 0 <= j < |r| && r[j] == deps[d];
    assert rank[deps[d]] < rank[env];
  }

  /** With all its imports ordered, an environment has an order exactly when the lists to merge allow one. */
  lemma OrderFailsExactly(env: Env, deps: map<string, Env>, rank: map<Env, nat>)
    requires Acyclic(deps, rank) && env in rank && env.Import?
    ensures Lists(env, deps, rank).None? ==> Order(env, deps, rank).None?
    ensures Lists(env, deps, rank).Some? ==>
              (Order(env, deps, rank).Some? <==> exists r :: CommonOrder(r, Lists(env, deps, rank).value))
    ensures Lists(env, deps, rank).Some? <==> forall d | d in env.imports :: d in deps && Order(deps[d], deps, rank).Some?
  {
    var names := Reversed(env.imports);
    ImportOrdersExactly(names, deps, rank, rank[env]);
    if Lists(env, deps, rank).Some? {
      forall d | d in env.imports && Ordered(d, deps, rank)
        ensures GoodOrder(deps[d], Order(deps[d], deps, rank).value, deps, rank)
      {
        OrderGood(deps[d], deps, rank);
      }
      ListsDistinct(env, deps, rank);
      MergeExactly(Lists(env, deps, rank).value);
    }
  }

  lemma {:induction false} ImportOrdersExactly(names: seq<string>, deps: map<string, Env>, rank: map<Env, nat>, bound: nat)
    requires Acyclic(deps, rank) && forall d | d in names && d in deps :: deps[d] in rank && rank[deps[d]] < bound
    ensures ImportOrders(names, deps, rank, bound).Some? <==>
            forall d | d in names :: d in deps && Order(deps[d], deps, rank).Some?
    decreases |names|
  {
    if names != [] {
      ImportOrdersExactly(names[1..], deps, rank, bound);
      assert names == [names[0]] + names[1..];
    }
  }

  /** The recursive procedure of the source. */
  method MethodResolutionOrder(env: Env, deps: map<string, Env>, ghost rank: map<Env, nat>) returns (r: Option<seq<Env>>)
    requires Acyclic(deps, rank) && env in rank
    ensures r == Order(env, deps, rank)
    ensures r.Some? ==> GoodOrder(env, r.value, deps, rank)
    decreases rank[env], 1, 0
  {
    var linearization := [[env]];
    if env.Import? {
      var lists := ListsToMerge(env, deps, rank);
      if lists.None? {
        return None;
      }
      linearization := lists.value;
    }
    r := Merge(linearization);
    assert r == Order(env, deps, rank);
    if r.Some? {
      OrderGood(env, deps, rank);
    }
  }

  method ListsToMerge(env: Env, deps: map<string, Env>, ghost rank: map<Env, nat>) returns (r: Option<seq<seq<Env>>>)
    requires Acyclic(deps, rank) && env in rank && env.Import?
    ensures r == Lists(env, deps, rank)
    decreases rank[env], 0, |env.imports| + 1
  {
    var names := Reversed(env.imports);
    var orders := OrderAll(names, deps, rank, rank[env]);
    if orders.None? {
      return None;
    }
    var linearization := [[env]] + orders.value;
    for i := 0 to |names|
      invariant linearization == [[env]] + orders.value + Singles(names, deps)[..i]
    {
      NextSingle(names, deps, i);
      linearization := linearization + [[deps[names[i]]]];
    }
    assert Singles(names, deps)[..|names|] == Singles(names, deps);
    return Some(linearization);
  }

  lemma NextSingle(names: seq<string>, deps: map<string, Env>, i: nat)
    requires i < |names| && forall d | d in names :: d in deps
    ensures Singles(names, deps)[..i + 1] == Singles(names, deps)[..i] + [[deps[names[i]]]]
    ensures Singles(names, deps)[..|names|] == Singles(names, deps)
  {
  }

  lemma OneUnordered(names: seq<string>, deps: map<string, Env>, rank: map<Env, nat>, bound: nat, i: nat)
    requires Acyclic(deps, rank) && forall d | d in names && d in deps :: deps[d] in rank && rank[deps[d]] < bound
    requires i < |names| && !Ordered(names[i], deps, rank)
    ensures ImportOrders(names, deps, rank, bound).None?
  {
    ImportOrdersExactly(names, deps, rank, bound);
    assert names[i] in names;
  }

  lemma AllOrdered(names: seq<string>, deps: map<string, Env>, rank: map<Env, nat>, bound: nat, orders: seq<seq<Env>>)
    requires Acyclic(deps, rank) && forall d | d in names && d in deps :: deps[d] in rank && rank[deps[d]] < bound
    requires |orders| == |names|
    requires forall j | 0 <= j < |names| :: names[j] in deps && Some(orders[j]) == Order(deps[names[j]], deps, rank)
    ensures ImportOrders(names, deps, rank, bound) == Some(orders)
  {
    forall d | d in names ensures d in deps && Order(deps[d], deps, rank).Some? {
      var j :| 0 <= j < |names| && names[j] == d;
    }
    ImportOrdersExactly(names, deps, rank, bound);
    assert ImportOrders(names, deps, rank, bound).value == orders;
  }

  method OrderAll(names: seq<string>, deps: map<string, Env>, ghost rank: map<Env, nat>, ghost bound: nat)
    returns (r: Option<seq<seq<Env>>>)
    requires Acyclic(deps, rank) && forall d | d in names && d in deps :: deps[d] in rank && rank[deps[d]] < bound
    ensures r == ImportOrders(names, deps, rank, bound)
    decreases bound, 0, |names|
  {
    var orders: seq<seq<Env>> := [];
    for i := 0 to |names|
      invariant |orders| == i
      invariant forall j | 0 <= j < i :: names[j] in deps && Some(orders[j]) == Order(deps[names[j]], deps, rank)
    {
      assert names[i] in names;
      if names[i] !in deps {
        OneUnordered(names, deps, rank, bound, i);
        return None;
      }
      var o := MethodResolutionOrder(deps[names[i]], deps, rank);
      if o.None? {
        OneUnordered(names, deps, rank, bound, i);
        return None;
      }
      orders := orders + [o.value];
    }
    AllOrdered(names, deps, rank, bound, orders);
    return Some(orders);
  }

  /*** Imports that have nothing in common ***/

  ghost predicate Apart(s: seq<Env>, r: seq<Env>) {
    forall x | x in s :: x !in r
  }

  ghost predicate ImportsOrdered(env: Env, deps: map<string, Env>, rank: map<Env, nat>)
    requires Acyclic(deps, rank)
  {
    env in rank && env.Import? && forall i: nat | i < |env.imports| :: Ordered(env.imports[i], deps, rank)
  }

  /** All that comes with the i-th import. */
  ghost function With(env: Env, deps: map<string, Env>, rank: map<Env, nat>, i: nat): seq<Env>
    requires Acyclic(deps, rank) && ImportsOrdered(env, deps, rank) && i < |env.imports|
  {
    Order(deps[env.imports[i]], deps, rank).value
  }

  /** What comes with this import comes with no other. */
  ghost predicate OnItsOwn(env: Env, deps: map<string, Env>, rank: map<Env, nat>, i: nat)
    requires Acyclic(deps, rank) && ImportsOrdered(env, deps, rank) && i < |env.imports|
  {
    forall m: nat | m < |env.imports| && m != i :: Apart(With(env, deps, rank, i), With(env, deps, rank, m))
  }

  lemma {:induction false} ReversedAt(s: seq<string>, i: nat)
    requires i < |s|
    ensures Reversed(s)[i] == s[|s| - 1 - i]
  {
    if i < |s| - 1 {
      ReversedAt(s[1..], i);
    }
  }

  /** Of imports that have nothing in common with others, all that comes with a later one stands before all that comes with an earlier one. */
  lemma LaterImportFirst(env: Env, deps: map<string, Env>, rank: map<Env, nat>, i: nat, j: nat, x: Env, y: Env)
    requires Acyclic(deps, rank) && ImportsOrdered(env, deps, rank) && Order(env, deps, rank).Some? && i < j < |env.imports|
    requires OnItsOwn(env, deps, rank, i) && OnItsOwn(env, deps, rank, j)
    requires x in With(env, deps, rank, j) && y in With(env, deps, rank, i)
    ensures Precedes(Order(env, deps, rank).value, x, y)
  {
    var lists, n := Lists(env, deps, rank).value, |env.imports|;
    InOrder(env, deps, rank, i);
    ListAlone(env, deps, rank, j);
    ListNotBefore(env, deps, rank, i, j, y);
    ListIs(env, deps, rank, j);
    ListFirst(lists, n - j, x, y);
  }

  /** What comes with an import is in the order, which is a merge of lists without duplicates. */
  lemma InOrder(env: Env, deps: map<string, Env>, rank: map<Env, nat>, i: nat)
    requires Acyclic(deps, rank) && ImportsOrdered(env, deps, rank) && Order(env, deps, rank).Some? && i < |env.imports|
    ensures Lists(env, deps, rank).Some? && AllDistinct(Lists(env, deps, rank).value)
    ensures Order(env, deps, rank) == MergeOf(Lists(env, deps, rank).value)
    ensures forall x | x in With(env, deps, rank, i) :: x in Order(env, deps, rank).value
    ensures forall x | x in With(env, deps, rank, i) :: x in rank && rank[x] < rank[env]
  {
    forall d | d in env.imports && Ordered(d, deps, rank) ensures GoodOrder(deps[d], Order(deps[d], deps, rank).value, deps, rank) {
      OrderGood(deps[d], deps, rank);
    }
    var d, lists := env.imports[i], Lists(env, deps, rank).value;
    assert d in env.imports && rank[deps[d]] < rank[env];
    ListsDistinct(env, deps, rank);
    ListsFrom(env, deps, rank);
    MergeSound(lists);
    SubsequenceMembers(With(env, deps, rank, i), MergeOf(lists).value);
  }

  /** The order of the i-th import is the i-th of those lists, counted from the end. */
  lemma ListIs(env: Env, deps: map<string, Env>, rank: map<Env, nat>, i: nat)
    requires Acyclic(deps, rank) && ImportsOrdered(env, deps, rank) && Lists(env, deps, rank).Some? && i < |env.imports|
    ensures var lists, n := Lists(env, deps, rank).value, |env.imports|;
      |lists| == 2 * n + 1 && lists[n - i] == With(env, deps, rank, i) && |lists[n + 1 + i]| == 1 && |lists[0]| == 1
  {
    var n := |env.imports|;
    ReversedAt(env.imports, n - 1 - i);
    OrderAt(env, deps, rank, n - 1 - i);
  }

  lemma ListAlone(env: Env, deps: map<string, Env>, rank: map<Env, nat>, j: nat)
    requires Acyclic(deps, rank) && ImportsOrdered(env, deps, rank) && Lists(env, deps, rank).Some? && j < |env.imports|
    requires OnItsOwn(env, deps, rank, j)
    ensures Alone(Lists(env, deps, rank).value, |env.imports| - j)
  {
    var lists, n := Lists(env, deps, rank).value, |env.imports|;
    ListIs(env, deps, rank, j);
    forall m: nat | 1 <= m <= n && m != n - j ensures Apart(lists[n - j], lists[m]) {
      ListIs(env, deps, rank, n - m);
      assert Apart(With(env, deps, rank, j), With(env, deps, rank, n - m));
    }
    forall m: nat | n < m <= 2 * n ensures |lists[m]| == 1 {
      ListIs(env, deps, rank, m - n - 1);
    }
    ApartIsAlone(lists, n, n - j);
  }

  lemma ApartIsAlone(lists: seq<seq<Env>>, n: nat, a: nat)
    requires |lists| == 2 * n + 1 && 1 <= a <= n && |lists[0]| == 1
    requires forall m: nat | 1 <= m <= n && m != a :: Apart(lists[a], lists[m])
    requires forall m: nat | n < m <= 2 * n :: |lists[m]| == 1
    ensures Alone(lists, a)
  {
    forall m: nat, x | m < |lists| && m != a && lists[m] != [] && x in lists[a] ensures x !in lists[m][1..] {
      if 1 <= m <= n { NotInTail(lists[a], lists[m], x); } else { assert |lists[m]| == 1; }
    }
  }

  lemma NotInTail(s: seq<Env>, list: seq<Env>, x: Env)
    requires Apart(s, list) && x in s && list != []
    ensures x !in list[1..]
  {
  }

  lemma ListNotBefore(env: Env, deps: map<string, Env>, rank: map<Env, nat>, i: nat, j: nat, y: Env)
    requires Acyclic(deps, rank) && ImportsOrdered(env, deps, rank) && Lists(env, deps, rank).Some? && i < j < |env.imports|
    requires OnItsOwn(env, deps, rank, i) && y in With(env, deps, rank, i) && y != env
    ensures NotUpTo(Lists(env, deps, rank).value, |env.imports| - j, y)
  {
    var lists, n := Lists(env, deps, rank).value, |env.imports|;
    forall m: nat | m <= n - j ensures m < |lists| && y !in lists[m] {
      ListIs(env, deps, rank, i);
      if m >= 1 {
        ListIs(env, deps, rank, n - m);
        assert Apart(With(env, deps, rank, i), With(env, deps, rank, n - m));
      }
    }
  }

  /** So if the later one comes with a definition of a variable, one that comes with the earlier one is not found. */
  lemma LaterImportWins(env: Env, deps: map<string, Env>, rank: map<Env, nat>, i: nat, j: nat, k: string, x: Env)
    requires Acyclic(deps, rank) && ImportsOrdered(env, deps, rank) && Order(env, deps, rank).Some? && i < j < |env.imports|
    requires OnItsOwn(env, deps, rank, i) && OnItsOwn(env, deps, rank, j)
    requires x in With(env, deps, rank, j) && k in x.variables
    ensures FirstDefining(Order(env, deps, rank).value, k).Some?
    ensures FirstDefining(Order(env, deps, rank).value, k).value !in With(env, deps, rank, i)
  {
    var r := Order(env, deps, rank).value;
    InOrder(env, deps, rank, j);
    var b :| 0 <= b < |r| && r[b] == x;
    FirstDefiningIsFirst(r, k, b);
    var y := FirstDefining(r, k).value;
    if y in With(env, deps, rank, i) {
      LaterImportFirst(env, deps, rank, i, j, x, y);
      OrderGood(env, deps, rank);
      NotBothWays(r, x, y, b);
    }
  }

  lemma NotBothWays(r: seq<Env>, x: Env, y: Env, b: nat)
    requires Distinct(r) && Precedes(r, x, y) && b < |r| && r[b] == x
    ensures !exists a :: 0 <= a <= b && r[a] == y
  {
  }

  /** Two imports without imports of their own: the last one comes first. */
  lemma TwoImports(e: Env, a: Env, b: Env, m: string, n: string, deps: map<string, Env>, rank: map<Env, nat>)
    requires e.Import? && e.imports == [m, n] && m in deps && n in deps && deps[m] == a && deps[n] == b
    requires a.Environment? && b.Environment? && a != b && Acyclic(deps, rank) && e in rank
    ensures Order(e, deps, rank) == Some([e, b, a])
  {
    assert m in e.imports && n in e.imports;
    assert Picked([[a]], [a]) && Picked([[b]], [b]) by {
      assert FreeAt([[a]], a, 0) && FreeAt([[b]], b, 0);
    }
    MergePicks([[a]], [a]);
    MergePicks([[b]], [b]);
    var names := Reversed(e.imports);
    ReversedAt(e.imports, 0);
    ReversedAt(e.imports, 1);
    assert names == [n, m];
    AllOrdered(names, deps, rank, rank[e], [[b], [a]]);
    var lists := [[e], [b], [a], [b], [a]];
    assert Singles(names, deps) == [[b], [a]];
    assert [[e]] + [[b], [a]] + Singles(names, deps) == lists;
    assert Lists(e, deps, rank) == Some(lists);
    ThreePicked(e, a, b);
    MergePicks(lists, [e, b, a]);
  }

  lemma ThreePicked(e: Env, a: Env, b: Env)
    requires e != a && e != b && a != b
    ensures Picked([[e], [b], [a], [b], [a]], [e, b, a])
  {
    var s0: seq<seq<Env>>, s1: seq<seq<Env>>, s2: seq<seq<Env>> := [[e], [b], [a], [b], [a]], [[], [b], [a], [b], [a]], [[], [], [a], [], [a]];
    assert RemoveHead(s0, e) == s1 && RemoveHead(s1, b) == s2;
    assert FreeAt(s0, e, 0) && FreeAt(s1, b, 1) && FreeAt(s2, a, 2);
    assert AllEmpty(RemoveHead(s2, a));
    assert Picked(s2, [a]) && Picked(s1, [b, a]);
  }

  /*** What is found ***/

  /** The first environment of the order that defines `k`. */
  function FirstDefining(order: seq<Env>, k: string): Option<Env> {
    if order == [] then None
    else if k in order[0].variables then Some(order[0])
    else FirstDefining(order[1..], k)
  }

  function MergeDicts(d1: map<string, string>, d2: map<string, string>): map<string, string> {
    d1 + d2
  }

  /** Folding the dictionaries from the far end gives each variable the value of its first definition. */
  method MergeVariables(order: seq<Env>) returns (vars: map<string, string>)
    requires order != []
    ensures forall k :: k in vars <==> FirstDefining(order, k).Some?
    ensures forall k | k in vars :: k in FirstDefining(order, k).value.variables && vars[k] == FirstDefining(order, k).value.variables[k]
  {
    var i := |order| - 1;
    vars := order[i].variables;
    while i > 0
      invariant 0 <= i < |order|
      invariant forall k :: k in vars <==> FirstDefining(order[i..], k).Some?
      invariant forall k | k in vars ::
        k in FirstDefining(order[i..], k).value.variables && vars[k] == FirstDefining(order[i..], k).value.variables[k]
    {
      i := i - 1;
      assert order[i..][1..] == order[i + 1..];
      vars := MergeDicts(vars, order[i].variables);
    }
    assert order[0..] == order;
  }

  method PickFirstNonzero(list: seq<int>, defaultVal: int) returns (r: int)
    ensures (forall i | 0 <= i < |list| :: list[i] == 0) ==> r == defaultVal
    ensures (exists i | 0 <= i < |list| :: list[i] != 0) ==>
              exists i | 0 <= i < |list| :: r == list[i] != 0 && forall j | 0 <= j < i :: list[j] == 0
  {
    for i := 0 to |list|
      invariant forall j | 0 <= j < i :: list[j] == 0
    {
      if list[i] != 0 {
        return list[i];
      }
    }
    return defaultVal;
  }

  lemma {:induction false} FirstDefiningIsFirst(order: seq<Env>, k: string, j: nat)
    requires j < |order| && k in order[j].variables
    ensures FirstDefining(order, k).Some?
    ensures exists i | 0 <= i <= j :: order[i] == FirstDefining(order, k).value
  {
    if k !in order[0].variables {
      FirstDefiningIsFirst(order[1..], k, j - 1);
      var i :| 0 <= i <= j - 1 && order[1..][i] == FirstDefining(order, k).value;
      assert order[i + 1] == FirstDefining(order, k).value;
    }
  }

  /** The definition that is used never comes from an environment that some other definer imports. */
  lemma OwnDefinitionWins(env: Env, deps: map<string, Env>, rank: map<Env, nat>, k: string, e: Env, d: string)
    requires Acyclic(deps, rank) && env in rank && Order(env, deps, rank).Some?
    requires e in Order(env, deps, rank).value && e.Import? && d in e.imports && k in e.variables
    ensures d in deps && FirstDefining(Order(env, deps, rank).value, k).Some?
    ensures FirstDefining(Order(env, deps, rank).value, k).value != deps[d]
  {
    var r := Order(env, deps, rank).value;
    OrderGood(env, deps, rank);
    assert Precedes(r, e, deps[d]);
    var a, b :| 0 <= a < b < |r| && r[a] == e && r[b] == deps[d];
    FirstDefiningIsFirst(r, k, a);
  }

  /*** The check for cycles ***/

  ghost predicate Imports(deps: map<string, Env>, a: Env, b: Env) {
    a.Import? && exists d :: d in a.imports && d in deps && deps[d] == b
  }

  ghost predicate Link(deps: map<string, Env>, p: seq<Env>, i: nat)
    requires i + 1 < |p|
  {
    Imports(deps, p[i], p[i + 1])
  }

  /** Each environment imports the next. */
  ghost predicate Chain(deps: map<string, Env>, p: seq<Env>) {
    p != [] && forall i: nat {:trigger Link(deps, p, i)} | i + 1 < |p| :: Link(deps, p, i)
  }

  ghost predicate ChainTo(deps: map<string, Env>, p: seq<Env>, a: Env, b: Env) {
    Chain(deps, p) && p[0] == a && p[|p| - 1] == b
  }

  ghost predicate Needs(deps: map<string, Env>, a: Env, b: Env) {
    exists p :: ChainTo(deps, p, a, b)
  }

  /** Going from import to import, one comes back to something. */
  ghost predicate Circular(env: Env, deps: map<string, Env>) {
    exists a, b :: Needs(deps, env, a) && Imports(deps, a, b) && Needs(deps, b, a)
  }

  lemma NeedsSelf(deps: map<string, Env>, a: Env)
    ensures Needs(deps, a, a)
  {
    assert ChainTo(deps, [a], a, a);
  }

  lemma NeedsOn(deps: map<string, Env>, a: Env, b: Env, c: Env)
    requires Needs(deps, a, b) && Needs(deps, b, c)
    ensures Needs(deps, a, c)
  {
    var p :| ChainTo(deps, p, a, b);
    var q :| ChainTo(deps, q, b, c);
    var r := p + q[1..];
    forall i: nat | i + 1 < |r| ensures Link(deps, r, i) {
      if i + 1 < |p| { assert Link(deps, p, i); } else { assert Link(deps, q, i + 1 - |p|); }
    }
    assert ChainTo(deps, r, a, c);
  }

  lemma NeedsImport(deps: map<string, Env>, a: Env, b: Env)
    requires Imports(deps, a, b)
    ensures Needs(deps, a, b) && b in deps.Values
  {
    assert Link(deps, [a, b], 0);
    assert ChainTo(deps, [a, b], a, b);
  }

  ghost function AllNeeded(deps: map<string, Env>, a: Env): set<Env> {
    set b | b in deps.Values + {a} && Needs(deps, a, b)
  }

  /** What an environment needs shrinks from import to import. */
  lemma NeedsFewer(env: Env, deps: map<string, Env>, a: Env, b: Env)
    requires !Circular(env, deps) && Needs(deps, env, a) && Imports(deps, a, b)
    ensures |AllNeeded(deps, b)| < |AllNeeded(deps, a)|
  {
    NeedsImport(deps, a, b);
    forall x | x in AllNeeded(deps, b) ensures x in AllNeeded(deps, a) { NeedsOn(deps, a, b, x); }
    NeedsSelf(deps, a);
    assert a in AllNeeded(deps, a) && a !in AllNeeded(deps, b);
    Smaller(AllNeeded(deps, b), AllNeeded(deps, a));
  }

  lemma Smaller(s: set<Env>, t: set<Env>)
    requires s < t
    ensures |s| < |t|
  {
    var x :| x in t && x !in s;
    assert |t| == |t - s| + |s| && x in t - s;
  }

  ghost function RankOf(env: Env, deps: map<string, Env>): map<Env, nat> {
    map e | e in AllNeeded(deps, env) :: |AllNeeded(deps, e)|
  }

  /** Without a circle there is a rank, for as much as the environment needs. */
  lemma RankExists(env: Env, deps: map<string, Env>)
    requires !Circular(env, deps)
    ensures env in RankOf(env, deps) && Acyclic(deps, RankOf(env, deps))
  {
    NeedsSelf(deps, env);
    forall e: Env, d | e in RankOf(env, deps) && e.Import? && d in e.imports && d in deps
      ensures deps[d] in RankOf(env, deps) && RankOf(env, deps)[deps[d]] < RankOf(env, deps)[e]
    {
      assert Imports(deps, e, deps[d]);
      NeedsImport(deps, e, deps[d]);
      NeedsOn(deps, env, e, deps[d]);
      NeedsFewer(env, deps, e, deps[d]);
    }
  }

  /** The graph has a node for each environment that is needed, and edges where one imports another. */
  ghost predicate Pictured(g: Graphs.Graph, node: Env -> Graphs.Node, env: Env, deps: map<string, Env>) {
    && (forall a, n | Needs(deps, env, a) :: Graphs.Edge(g, node(a), n) <==> Shown(node, deps, a, n))
    && (forall a, b | Needs(deps, env, a) && Needs(deps, env, b) && node(a) == node(b) :: a == b)
  }

  ghost predicate Shown(node: Env -> Graphs.Node, deps: map<string, Env>, a: Env, n: Graphs.Node) {
    exists b :: Imports(deps, a, b) && node(b) == n
  }

  lemma {:induction false} PathOfChain(g: Graphs.Graph, node: Env -> Graphs.Node, env: Env, deps: map<string, Env>, p: seq<Env>) returns (q: seq<Graphs.Node>)
    requires Pictured(g, node, env, deps) && Chain(deps, p) && Needs(deps, env, p[0])
    ensures |q| == |p| && Graphs.Path(g, q) && forall i | 0 <= i < |p| :: q[i] == node(p[i])
    ensures forall i | 0 <= i < |p| :: Needs(deps, env, p[i])
  {
    var n := |p| - 1;
    if n == 0 {
      q := [node(p[0])];
    } else {
      assert Link(deps, p, n - 1);
      forall i: nat | i + 1 < n ensures Link(deps, p[..n], i) { assert Link(deps, p, i); }
      var front := PathOfChain(g, node, env, deps, p[..n]);
      NeedsImport(deps, p[n - 1], p[n]);
      NeedsOn(deps, env, p[n - 1], p[n]);
      assert Shown(node, deps, p[n - 1], node(p[n]));
      Graphs.Hop(g, node(p[n - 1]), node(p[n]));
      Graphs.Joined(g, front, [node(p[n - 1]), node(p[n])]);
      q := front + [node(p[n - 1]), node(p[n])][1..];
    }
  }

  lemma {:induction false} ChainOfPath(g: Graphs.Graph, node: Env -> Graphs.Node, env: Env, deps: map<string, Env>, q: seq<Graphs.Node>) returns (p: seq<Env>)
    requires Pictured(g, node, env, deps) && Graphs.Path(g, q) && q[0] == node(env)
    ensures |p| == |q| && p[0] == env && forall i | 0 <= i < |q| :: q[i] == node(p[i]) && Needs(deps, env, p[i])
    ensures forall i: nat | i + 1 < |p| :: Imports(deps, p[i], p[i + 1])
  {
    var n := |q| - 1;
    if n == 0 {
      p := [env];
      NeedsSelf(deps, env);
    } else {
      Graphs.Part(g, q, 0, n);
      assert Graphs.Step(g, q, n - 1);
      var front := ChainOfPath(g, node, env, deps, q[0..n]);
      assert Shown(node, deps, front[n - 1], q[n]);
      var b :| Imports(deps, front[n - 1], b) && node(b) == q[n];
      NeedsImport(deps, front[n - 1], b);
      NeedsOn(deps, env, front[n - 1], b);
      p := front + [b];
    }
  }

  /** The search for cycles in the graph finds exactly the circles of imports. */
  lemma CyclicExactly(g: Graphs.Graph, node: Env -> Graphs.Node, env: Env, deps: map<string, Env>)
    requires Pictured(g, node, env, deps)
    ensures Graphs.Cyclic(g, [node(env)]) <==> Circular(env, deps)
  {
    if Circular(env, deps) {
      var a, b :| Needs(deps, env, a) && Imports(deps, a, b) && Needs(deps, b, a);
      var p :| ChainTo(deps, p, env, a);
      var r :| ChainTo(deps, r, b, a);
      NeedsSelf(deps, env);
      NeedsImport(deps, a, b);
      NeedsOn(deps, env, a, b);
      var q := PathOfChain(g, node, env, deps, p);
      var t := PathOfChain(g, node, env, deps, r);
      assert Shown(node, deps, a, node(b));
      Graphs.Hop(g, node(a), node(b));
      Graphs.Joined(g, [node(a), node(b)], t);
      assert Graphs.Leads(g, [node(env)], q, node(a));
      Graphs.Around(g, [node(env)], q, [node(a), node(b)] + t[1..]);
    }
    if Graphs.Cyclic(g, [node(env)]) {
      var q :| Graphs.Loop(g, [node(env)], q);
      var p := ChainOfPath(g, node, env, deps, q);
      var k :| 0 <= k < |q| - 1 && q[k] == q[|q| - 1];
      assert p[k] == p[|p| - 1];
      var tail := p[k + 1..];
      forall i: nat {:trigger Link(deps, tail, i)} | i + 1 < |tail| ensures Link(deps, tail, i) {
        assert Imports(deps, p[k + 1 + i], p[k + 1 + i + 1]);
      }
      assert ChainTo(deps, tail, p[k + 1], p[k]);
      assert Imports(deps, p[k], p[k + 1]) && Needs(deps, p[k + 1], p[k]);
    }
  }

  /** First the check, then the order: None stands for the exceptions of both. */
  method CheckedOrder(env: Env, deps: map<string, Env>, g: Graphs.Graph, root: Graphs.Node, ghost node: Env -> Graphs.Node)
    returns (r: Option<seq<Env>>)
    requires Pictured(g, node, env, deps) && root == node(env) && Graphs.Rooted(g, [root])
    ensures Circular(env, deps) ==> r.None?
    ensures !Circular(env, deps) ==> (var rank := RankOf(env, deps);
      Acyclic(deps, rank) && env in rank && r == Order(env, deps, rank))
    ensures r.Some? ==> GoodOrder(env, r.value, deps, RankOf(env, deps))
  {
    var cycle := Graphs.FindCycle(g, [root]);
    CyclicExactly(g, node, env, deps);
    if cycle.Some? {
      return None;
    }
    RankExists(env, deps);
    r := MethodResolutionOrder(env, deps, RankOf(env, deps));
  }
}
