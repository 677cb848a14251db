/** Names like test/artifact, where the names of tests and also those of artifacts may themselves have slashes. */
module TestNames {
  function Slash(s: string): (k: nat)
    requires '/' in s
    ensures k < |s| && s[k] == '/' && forall i | 0 <= i < k :: s[i] != '/'
  {
    if s[0] == '/' then 0 else Slash(s[1..]) + 1
  }

  function Split(s: string): (parts: seq<string>)
    ensures parts != []
    decreases |s|
  {
    if '/' in s then [s[..Slash(s)]] + Split(s[Slash(s) + 1..]) else [s]
  }

  function Join(parts: seq<string>): string {
    if parts == [] then ""
    else if |parts| == 1 then parts[0]
    else parts[0] + "/" + Join(parts[1..])
  }

  /** The name read as a test and an artifact; the empty name takes all for the artifact. */
  predicate ReadAs(name: string, test: string, artifact: string) {
    (test == "" && artifact == name) || (test == name && artifact == "") || name == test + "/" + artifact
  }

  lemma {:induction false} JoinSplit(s: string)
    ensures Join(Split(s)) == s
    decreases |s|
  {
    if '/' in s {
      var k := Slash(s);
      JoinSplit(s[k + 1..]);
      SplitAt(s, k);
      JoinHead(s[..k], Split(s[k + 1..]));
      CutAt(s, k);
    }
  }

  lemma JoinHead(h: string, parts: seq<string>)
    requires parts != []
    ensures Join([h] + parts) == h + "/" + Join(parts)
  {
    assert ([h] + parts)[1..] == parts;
  }

  lemma CutAt(s: string, k: nat)
    requires k < |s| && s[k] == '/'
    ensures s == s[..k] + "/" + s[k + 1..]
  {
  }

  lemma {:induction false} JoinTwo(a: seq<string>, b: seq<string>)
    requires a != [] && b != []
    ensures Join(a + b) == Join(a) + "/" + Join(b)
  {
    if |a| == 1 {
      assert (a + b)[1..] == b;
    } else {
      assert (a + b)[1..] == a[1..] + b;
      JoinTwo(a[1..], b);
      assert a[0] + "/" + (Join(a[1..]) + "/" + Join(b)) == (a[0] + "/" + Join(a[1..])) + "/" + Join(b);
    }
  }

  /** Every place to cut the list of parts is a reading. */
  lemma CutIsReading(name: string, i: nat)
    requires i <= |Split(name)|
    ensures ReadAs(name, Join(Split(name)[..i]), Join(Split(name)[i..]))
  {
    var parts := Split(name);
    JoinSplit(name);
    assert parts[..i] + parts[i..] == parts;
    if i == 0 {
      assert parts[..0] == [] && parts[0..] == parts;
    } else if i == |parts| {
      assert parts[..i] == parts && parts[i..] == [];
    } else {
      JoinTwo(parts[..i], parts[i..]);
    }
  }

  lemma {:induction false} SplitTwo(a: string, b: string)
    ensures Split(a + "/" + b) == Split(a) + Split(b)
    decreases |a|
  {
    if '/' in a {
      var k := Slash(a);
      var h, t := a[..k], a[k + 1..];
      SplitTwo(t, b);
      Shift(a, k, b);
      SplitHead(h, t);
      SplitHead(h, t + "/" + b);
      Regroup(h, Split(t), Split(b));
    } else {
      SplitHead(a, b);
    }
  }

  lemma Regroup(h: string, s: seq<string>, t: seq<string>)
    ensures [h] + (s + t) == [h] + s + t
  {
  }

  lemma Shift(a: string, k: nat, b: string)
    requires k < |a| && a[k] == '/'
    ensures a == a[..k] + "/" + a[k + 1..] && a + "/" + b == a[..k] + "/" + (a[k + 1..] + "/" + b)
  {
  }

  lemma SplitHead(h: string, t: string)
    requires '/' !in h
    ensures Split(h + "/" + t) == [h] + Split(t)
  {
    var s := h + "/" + t;
    SplitAt(s, |h|);
    assert s[..|h|] == h && s[|h| + 1..] == t;
  }

  lemma SplitAt(s: string, k: nat)
    requires k < |s| && s[k] == '/' && forall i | 0 <= i < k :: s[i] != '/'
    ensures Split(s) == [s[..k]] + Split(s[k + 1..])
  {
    assert '/' in s && Slash(s) == k;
  }

  /** Every reading is a place to cut, and the longer the test the later. */
  lemma ReadingIsCut(name: string, test: string, artifact: string) returns (i: nat)
    requires ReadAs(name, test, artifact)
    ensures i <= |Split(name)| && Join(Split(name)[..i]) == test
  {
    var parts := Split(name);
    JoinSplit(name);
    if test == "" {
      i := 0;
      assert parts[..0] == [];
    } else if test == name {
      i := |parts|;
      assert parts[..i] == parts;
    } else {
      SplitTwo(test, artifact);
      JoinSplit(test);
      i := |Split(test)|;
      assert parts[..i] == Split(test);
    }
  }

  lemma CutsGrow(parts: seq<string>, i: nat, j: nat)
    requires i <= j <= |parts|
    ensures |Join(parts[..i])| <= |Join(parts[..j])|
  {
    if 0 < i < j {
      assert parts[..j] == parts[..i] + parts[i..j];
      JoinTwo(parts[..i], parts[i..j]);
    }
  }

  datatype Resolution = Found(test: string, artifact: string) | NoSuchTest | NoSuchArtifact

  /** What is left of the name when it begins with this test. */
  function ArtifactOf(name: string, test: string): string {
    if test == "" then name else if |test| >= |name| then "" else name[|test| + 1..]
  }

  /** The shortest test that the name can be read as. */
  ghost predicate IsShortest(name: string, tests: set<string>, test: string) {
    && test in tests && ReadAs(name, test, ArtifactOf(name, test))
    && forall t, a | ReadAs(name, t, a) && t in tests :: |test| <= |t|
  }

  /** There is only one. */
  lemma OneShortest(name: string, tests: set<string>, s: string, t: string)
    requires IsShortest(name, tests, s) && IsShortest(name, tests, t)
    ensures s == t
  {
    Begins(name, s, ArtifactOf(name, s));
    Begins(name, t, ArtifactOf(name, t));
  }

  lemma Begins(name: string, test: string, artifact: string)
    requires ReadAs(name, test, artifact)
    ensures |test| <= |name| && test == name[..|test|]
  {
  }

  /** The rest at the first cut that gives a test is its artifact. */
  lemma RestIsArtifact(name: string, i: nat)
    requires i <= |Split(name)| && (i > 0 ==> Join(Split(name)[..i]) != "")
    ensures Join(Split(name)[i..]) == ArtifactOf(name, Join(Split(name)[..i]))
  {
    var parts := Split(name);
    JoinSplit(name);
    assert parts[..i] + parts[i..] == parts;
    if i == 0 {
      assert parts[..0] == [] && parts[0..] == parts;
    } else if i == |parts| {
      assert parts[..i] == parts && parts[i..] == [];
    } else {
      JoinTwo(parts[..i], parts[i..]);
    }
  }

  /** Finds the shortest name that is a test; the rest of the name is the artifact, which must be one of the test's. */
  method ResolveTestNameToTestAndArtifact(name: string, artifactsOf: map<string, set<string>>, ignoreArtifact: bool) returns (r: Resolution)
    ensures r.NoSuchTest? <==> forall test, artifact | ReadAs(name, test, artifact) :: test !in artifactsOf
    ensures !r.NoSuchTest? ==> exists test :: IsShortest(name, artifactsOf.Keys, test)
    ensures forall test | IsShortest(name, artifactsOf.Keys, test) ::
      r == if ignoreArtifact || ArtifactOf(name, test) in artifactsOf[test] then Found(test, ArtifactOf(name, test)) else NoSuchArtifact
  {
    var parts := Split(name);
    for i := 0 to |parts| + 1
      invariant forall j | 0 <= j < i :: Join(parts[..j]) !in artifactsOf
    {
      var test, artifact := Join(parts[..i]), Join(parts[i..]);
      if test in artifactsOf {
        CutIsReading(name, i);
        assert i > 0 ==> Join(parts[..0]) !in artifactsOf && Join(parts[..0]) == "";
        RestIsArtifact(name, i);
        forall t, a | ReadAs(name, t, a) && t in artifactsOf ensures |test| <= |t| {
          var j := ReadingIsCut(name, t, a);
          CutsGrow(parts, i, j);
        }
        assert IsShortest(name, artifactsOf.Keys, test);
        forall t | IsShortest(name, artifactsOf.Keys, t) ensures t == test {
          OneShortest(name, artifactsOf.Keys, t, test);
        }
        if !ignoreArtifact && artifact !in artifactsOf[test] {
          return NoSuchArtifact;
        }
        return Found(test, artifact);
      }
    }
    forall t, a | ReadAs(name, t, a) ensures t !in artifactsOf {
      var j := ReadingIsCut(name, t, a);
    }
    r := NoSuchTest;
  }
}
