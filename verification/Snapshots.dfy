/** The database as it should look. */
module Snapshots {
  // A store that keeps every committed state for ever. The module ObjectDatabase is proved to answer exactly
  // as this machine does while keeping only deltas.
  import opened Options

  /** The string under which a field of an object, or a list of an index, is stored. */
  type Key(==, !new)
  type Json(==, !new)
  /** A parsed field value. */
  type Value(==, !new)

  /** to_json and from_json for one database. Encoding a value may give JSON null, which is stored as absence. */
  datatype Codec = Codec(encode: Value -> Option<Json>, decode: (Key, Json) -> Value)

  function Lookup<T>(s: map<Key, T>, k: Key): Option<T> {
    if k in s then Some(s[k]) else None
  }

  /** The JSON that a pending write puts beside its key; a deletion and a null value both put nothing. */
  function Encoded(c: Codec, w: Option<Value>): Option<Json> {
    match w
    case None => None
    case Some(v) => c.encode(v)
  }

  /** What was parsed from the stored JSON is what was written. */
  ghost predicate RoundTrips(c: Codec, k: Key, w: Option<Value>) {
    w.Some? && c.encode(w.value).Some? ==> c.decode(k, c.encode(w.value).value) == w.value
  }

  /** The store after a transaction's writes. */
  function Apply(c: Codec, s: map<Key, Json>, w: map<Key, Option<Value>>): map<Key, Json> {
    map k | k in s.Keys + w.Keys && (k in w ==> Encoded(c, w[k]).Some?) ::
      if k in w then Encoded(c, w[k]).value else s[k]
  }

  /** What a view with pending writes `w` over the snapshot `s` sees at `k`. */
  function ReadAt(c: Codec, s: map<Key, Json>, w: map<Key, Option<Value>>, k: Key): Option<Value> {
    if k in w then w[k] else
    match Lookup(s, k)
    case None => None
    case Some(j) => Some(c.decode(k, j))
  }

  predicate PresentAt(s: map<Key, Json>, w: map<Key, Option<Value>>, k: Key) {
    if k in w then w[k].Some? else k in s
  }

  /** What is left of a written value once it is stored: a deletion and a value that encodes to null leave nothing. */
  function Kept(c: Codec, w: Option<Value>): Option<Value> {
    if w.Some? && c.encode(w.value).Some? then w else None
  }

  /** After a commit each key that was written reads as what was written, and every other key as before. */
  lemma CommitReads(c: Codec, s: map<Key, Json>, w: map<Key, Option<Value>>, k: Key)
    requires k in w ==> RoundTrips(c, k, w[k])
    ensures ReadAt(c, Apply(c, s, w), map[], k) == if k in w then Kept(c, w[k]) else ReadAt(c, s, map[], k)
  {
  }

  /** A view sees its own writes, and before a commit a key is present exactly when it has a value. */
  lemma ReadsOwnWrites(c: Codec, s: map<Key, Json>, w: map<Key, Option<Value>>, k: Key)
    ensures ReadAt(c, s, w, k) == if k in w then w[k] else ReadAt(c, s, map[], k)
    ensures PresentAt(s, w, k) <==> ReadAt(c, s, w, k).Some?
  {
  }

  /**
   Where a view stands. A read takes the lock twice and parses in between without it, so other
   threads may run while it is `Fetched` or `Confirmed`. Leaving after writes takes it twice as well:
   a view whose writes are `Stored` still has to give its reference back. A view whose commit raised
   is `Leaked`: it is finished, but its reference count was never given back.
   */
  datatype Phase = Idle | Fetched(key: Key) | Confirmed(key: Key) | Stored | Released | Leaked

  datatype ViewModel = ViewModel(tid: nat, writeable: bool, writes: map<Key, Option<Value>>, phase: Phase)

  /** Every committed state, the reference counts, the oldest state still served, and every view ever opened. */
  datatype Model =
    Model(history: seq<map<Key, Json>>, counts: map<nat, nat>, horizon: nat, views: seq<ViewModel>)

  /** One indivisible step of some thread. */
  datatype Event =
    | OpenView
    | OpenViewAt(at: nat)
    | Begin
    | ReadFirst(view: nat, key: Key)
    | ReadSecond(view: nat)
    | ReadFinish(view: nat)
    | Probe(view: nat, key: Key)
    | Assign(view: nat, key: Key, value: Option<Value>)
    | Exit(view: nat, raised: bool)
    | GiveBack(view: nat)
    | ClearCache

  /** What the thread that took the step observed. */
  datatype Obs =
    | Opened(view: nat, tid: nat)
    | Refused
    | Saw(view: nat, key: Key, result: Option<Value>)
    | Probed(view: nat, key: Key, present: bool)
    | Wrote(view: nat, key: Key, value: Option<Value>)
    | Committed(view: nat)
    | Rejected(view: nat)
    | Closed(view: nat)
    | Silent

  function Acquire(counts: map<nat, nat>, t: nat): map<nat, nat> {
    counts[t := (if t in counts then counts[t] else 0) + 1]
  }

  function Release(counts: map<nat, nat>, t: nat): map<nat, nat> {
    if t !in counts then counts
    else if counts[t] <= 1 then counts - {t}
    else counts[t := counts[t] - 1]
  }

  ghost predicate IsLeast(s: set<nat>, m: nat) {
    m in s && forall x | x in s :: m <= x
  }

  lemma LeastExists(s: set<nat>)
    requires s != {}
    ensures exists m :: IsLeast(s, m)
  {
    var x :| x in s;
    if s == {x} {
      assert IsLeast(s, x);
    } else {
      LeastExists(s - {x});
      var m :| IsLeast(s - {x}, m);
      assert forall y | y in s :: y == x || y in s - {x};
      assert IsLeast(s, if x < m then x else m);
    }
  }

  ghost function Least(s: set<nat>): (m: nat)
    requires s != {}
    ensures IsLeast(s, m)
  {
    LeastExists(s);
    var m :| IsLeast(s, m);
    m
  }

  /** The oldest referenced state becomes the oldest one served; with nothing referenced, nothing is collected. */
  ghost function Collect(counts: map<nat, nat>, horizon: nat): nat {
    if counts == map[] then horizon else Least(counts.Keys)
  }

  ghost predicate IdleView(m: Model, i: nat) {
    i < |m.views| && m.views[i].phase.Idle? && m.views[i].tid < |m.history|
  }

  function Cur(m: Model): int { |m.history| - 1 }

  function Open(m: Model, tid: nat, writeable: bool): Model {
    m.(counts := Acquire(m.counts, tid), views := m.views + [ViewModel(tid, writeable, map[], Idle)])
  }

  function SetPhase(m: Model, i: nat, p: Phase): Model
    requires i < |m.views|
  {
    m.(views := m.views[i := m.views[i].(phase := p)])
  }

  ghost function Close(m: Model, i: nat): Model
    requires i < |m.views|
  {
    var counts := Release(m.counts, m.views[i].tid);
    SetPhase(m.(counts := counts, horizon := Collect(counts, m.horizon)), i, Released)
  }

  predicate Accepted(m: Model, i: nat)
    requires i < |m.views|
  {
    m.views[i].writeable && m.views[i].tid == Cur(m)
  }

  /** The first locked step of leaving: the commit, or the release when there is nothing to commit. */
  ghost function ExitStep(c: Codec, m: Model, i: nat, raised: bool): (Model, Obs)
    requires i < |m.views| && |m.history| > 0
  {
    if raised || m.views[i].writes == map[] then (Close(m, i), Closed(i))
    else if Accepted(m, i) then
      var next := Apply(c, m.history[Cur(m)], m.views[i].writes);
      (SetPhase(m.(history := m.history + [next]), i, Stored), Committed(i))
    else (SetPhase(m, i, Leaked), Rejected(i))
  }

  /** Steps that are not possible where the view stands change nothing. */
  ghost function Step(c: Codec, m: Model, e: Event): (Model, Obs)
    requires |m.history| > 0
  {
    match e
    case OpenView => (Open(m, Cur(m), false), Opened(|m.views|, Cur(m)))
    case Begin => (Open(m, Cur(m), true), Opened(|m.views|, Cur(m)))
    case OpenViewAt(t) =>
      if m.horizon <= t <= Cur(m) then (Open(m, t, false), Opened(|m.views|, t)) else (m, Refused)
    case ReadFirst(i, k) =>
      if !IdleView(m, i) then (m, Silent)
      else if k in m.views[i].writes then (m, Saw(i, k, m.views[i].writes[k]))
      else (SetPhase(m, i, Fetched(k)), Silent)
    case ReadSecond(i) =>
      if i < |m.views| && m.views[i].phase.Fetched?
      then (SetPhase(m, i, Confirmed(m.views[i].phase.key)), Silent) else (m, Silent)
    case ReadFinish(i) =>
      if i < |m.views| && m.views[i].phase.Confirmed? && m.views[i].tid < |m.history| then
        var k := m.views[i].phase.key;
        (SetPhase(m, i, Idle), Saw(i, k, ReadAt(c, m.history[m.views[i].tid], m.views[i].writes, k)))
      else (m, Silent)
    case Probe(i, k) =>
      if IdleView(m, i) then (m, Probed(i, k, PresentAt(m.history[m.views[i].tid], m.views[i].writes, k)))
      else (m, Silent)
    case Assign(i, k, v) =>
      if IdleView(m, i) && (v.Some? ==> m.views[i].writeable)
      then (m.(views := m.views[i := m.views[i].(writes := m.views[i].writes[k := v])]), Wrote(i, k, v))
      else (m, Silent)
    case Exit(i, raised) =>
      if IdleView(m, i) then ExitStep(c, m, i, raised) else (m, Silent)
    case GiveBack(i) =>
      if i < |m.views| && m.views[i].phase.Stored? then (Close(m, i), Closed(i)) else (m, Silent)
    case ClearCache => (m, Silent)
  }

  function Init(s: map<Key, Json>): Model {
    Model([s], map[], 0, [])
  }

  /** A whole schedule, one step after the other. */
  ghost function Run(c: Codec, s: map<Key, Json>, es: seq<Event>): (r: (Model, seq<Obs>))
    ensures |r.0.history| > 0 && |r.1| == |es|
  {
    if es == [] then (Init(s), [])
    else
      var (m, os) := Run(c, s, es[..|es| - 1]);
      var (m', o) := Step(c, m, es[|es| - 1]);
      (m', os + [o])
  }

  /*** Reference counts: no state that a live view needs is ever given up. ***/

  function Holders(views: seq<ViewModel>, t: nat): nat {
    if views == [] then 0
    else
      var v := views[|views| - 1];
      Holders(views[..|views| - 1], t) + if v.tid == t && !v.phase.Released? then 1 else 0
  }

  ghost predicate Sound(m: Model) {
    && |m.history| > 0
    && m.horizon <= Cur(m)
    && (forall t: nat :: t in m.counts <==> Holders(m.views, t) > 0)
    && (forall t: nat | t in m.counts :: m.counts[t] == Holders(m.views, t) && m.horizon <= t <= Cur(m))
    && (forall i | 0 <= i < |m.views| :: m.views[i].tid < |m.history|)
  }

  /** Number of holders after one view changes. */
  lemma {:induction false} HoldersUpdate(views: seq<ViewModel>, i: nat, v: ViewModel, t: nat)
    requires i < |views| && v.tid == views[i].tid
    ensures Holders(views[i := v], t) ==
            Holders(views, t)
            - (if views[i].tid == t && !views[i].phase.Released? then 1 else 0)
            + (if v.tid == t && !v.phase.Released? then 1 else 0)
  {
    var n := |views| - 1;
    if i == n {
      assert views[i := v][..n] == views[..n];
    } else {
      HoldersUpdate(views[..n], i, v, t);
      assert views[i := v][..n] == views[..n][i := v];
    }
  }

  lemma {:induction false} HolderCounts(views: seq<ViewModel>, i: nat)
    requires i < |views| && !views[i].phase.Released?
    ensures Holders(views, views[i].tid) > 0
  {
    var n := |views| - 1;
    if i != n {
      HolderCounts(views[..n], i);
    }
  }

  lemma OpenSound(m: Model, tid: nat, writeable: bool)
    requires Sound(m) && m.horizon <= tid <= Cur(m)
    ensures Sound(Open(m, tid, writeable))
  {
    var m' := Open(m, tid, writeable);
    assert m'.views[..|m.views|] == m.views;
    forall t: nat ensures Holders(m'.views, t) == Holders(m.views, t) + if t == tid then 1 else 0 {
    }
  }

  /** Changing a view's phase or writes without releasing it leaves every count alone. */
  lemma TouchSound(m: Model, i: nat, v: ViewModel)
    requires Sound(m) && i < |m.views| && v.tid == m.views[i].tid
    requires !v.phase.Released? && !m.views[i].phase.Released?
    ensures Sound(m.(views := m.views[i := v]))
  {
    forall t: nat ensures Holders(m.views[i := v], t) == Holders(m.views, t) {
      HoldersUpdate(m.views, i, v, t);
    }
  }

  lemma CloseSound(m: Model, i: nat)
    requires Sound(m) && i < |m.views| && !m.views[i].phase.Released?
    ensures Sound(Close(m, i))
  {
    var m' := Close(m, i);
    var tid := m.views[i].tid;
    forall t: nat ensures Holders(m'.views, t) == Holders(m.views, t) - if t == tid then 1 else 0 {
      HoldersUpdate(m.views, i, m'.views[i], t);
    }
    HolderCounts(m.views, i);
    if m'.counts != map[] {
      assert Least(m'.counts.Keys) in m.counts;
    }
  }

  /** After a release the oldest state served is the oldest one that some view still holds; if none does it stays. */
  lemma ReleaseCollects(m: Model, i: nat)
    requires Sound(m) && i < |m.views| && !m.views[i].phase.Released?
    ensures var t := Close(m, i);
      && (forall j: nat | j < |t.views| && !t.views[j].phase.Released? :: t.horizon <= t.views[j].tid)
      && ((exists j: nat :: j < |t.views| && !t.views[j].phase.Released?) ==>
            exists j: nat :: j < |t.views| && !t.views[j].phase.Released? && t.views[j].tid == t.horizon)
      && ((forall j: nat | j < |t.views| :: t.views[j].phase.Released?) ==> t.horizon == m.horizon)
  {
    var t := Close(m, i);
    CloseSound(m, i);
    forall j: nat | j < |t.views| && !t.views[j].phase.Released? ensures t.views[j].tid in t.counts { HolderCounts(t.views, j); }
    if t.counts != map[] {
      var tid := t.horizon;
      assert tid in t.counts && Holders(t.views, tid) > 0;
      var j := HolderOf(t.views, tid);
    }
  }

  lemma {:induction false} HolderOf(views: seq<ViewModel>, t: nat) returns (j: nat)
    requires Holders(views, t) > 0
    ensures j < |views| && views[j].tid == t && !views[j].phase.Released?
  {
    var n := |views| - 1;
    if views[n].tid == t && !views[n].phase.Released? {
      j := n;
    } else {
      j := HolderOf(views[..n], t);
    }
  }

  /** An idle view answers at once, or after its three steps; a write is refused only for being one. */
  lemma Responds(c: Codec, m: Model, i: nat, k: Key, v: Option<Value>)
    requires IdleView(m, i)
    ensures Step(c, m, Probe(i, k)) == (m, Probed(i, k, ReadAt(c, m.history[m.views[i].tid], m.views[i].writes, k).Some?))
    ensures Step(c, m, Assign(i, k, v)).1 == if v.None? || m.views[i].writeable then Wrote(i, k, v) else Silent
    ensures k in m.views[i].writes ==> Step(c, m, ReadFirst(i, k)) == (m, Saw(i, k, m.views[i].writes[k]))
    ensures k !in m.views[i].writes ==>
              var (first, o) := Step(c, m, ReadFirst(i, k));
              var (second, p) := Step(c, first, ReadSecond(i));
              var (third, q) := Step(c, second, ReadFinish(i));
              o == p == Silent && third == m && q == Saw(i, k, ReadAt(c, m.history[m.views[i].tid], map[], k))
  {
    assert m.views[i := m.views[i]] == m.views;
    var first := Step(c, m, ReadFirst(i, k)).0;
    var second := Step(c, first, ReadSecond(i)).0;
    if k !in m.views[i].writes {
      assert second.views == m.views[i := m.views[i].(phase := Confirmed(k))];
      assert second.views[i := second.views[i].(phase := Idle)] == m.views;
    }
  }

  lemma StepSound(c: Codec, m: Model, e: Event)
    requires Sound(m)
    ensures Sound(Step(c, m, e).0)
  {
    match e
    case OpenView => OpenSound(m, Cur(m), false);
    case Begin => OpenSound(m, Cur(m), true);
    case OpenViewAt(t) => if m.horizon <= t <= Cur(m) { OpenSound(m, t, false); }
    case ReadFirst(i, k) => if IdleView(m, i) { TouchSound(m, i, m.views[i].(phase := Fetched(k))); }
    case ReadSecond(i) =>
      if i < |m.views| && m.views[i].phase.Fetched? {
        TouchSound(m, i, m.views[i].(phase := Confirmed(m.views[i].phase.key)));
      }
    case ReadFinish(i) =>
      if i < |m.views| && m.views[i].phase.Confirmed? { TouchSound(m, i, m.views[i].(phase := Idle)); }
    case Probe(i, k) =>
    case Assign(i, k, v) =>
      if IdleView(m, i) { TouchSound(m, i, m.views[i].(writes := m.views[i].writes[k := v])); }
    case Exit(i, raised) =>
      if IdleView(m, i) {
        if raised || m.views[i].writes == map[] {
          CloseSound(m, i);
        } else if Accepted(m, i) {
          TouchSound(m.(history := m.history + [Apply(c, m.history[Cur(m)], m.views[i].writes)]), i, m.views[i].(phase := Stored));
        } else {
          TouchSound(m, i, m.views[i].(phase := Leaked));
        }
      }
    case GiveBack(i) => if i < |m.views| && m.views[i].phase.Stored? { CloseSound(m, i); }
    case ClearCache =>
  }

  lemma {:induction false} RunSound(c: Codec, s: map<Key, Json>, es: seq<Event>)
    ensures Sound(Run(c, s, es).0)
  {
    if es != [] {
      RunSound(c, s, es[..|es| - 1]);
      StepSound(c, Run(c, s, es[..|es| - 1]).0, es[|es| - 1]);
    }
  }

  /** Whatever the threads do, the state a live view looks at is never older than the oldest state served. */
  lemma NoNeededStateCollected(c: Codec, s: map<Key, Json>, es: seq<Event>, i: nat)
    requires i < |Run(c, s, es).0.views| && !Run(c, s, es).0.views[i].phase.Released?
    ensures var m := Run(c, s, es).0; m.horizon <= m.views[i].tid <= Cur(m)
  {
    RunSound(c, s, es);
    HolderCounts(Run(c, s, es).0.views, i);
  }
}
