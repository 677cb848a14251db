/** Every schedule looks serial. */
module Serializability {
  // As if only the committed transactions had run, one at a time, in commit order.
  import opened Options
  import opened Snapshots

  /** What one transaction did and saw, in its own order. */
  datatype Action =
    | Read(key: Key, result: Option<Value>)
    | Presence(key: Key, present: bool)
    | Write(key: Key, value: Option<Value>)

  function ActionOf(o: Obs, i: nat): seq<Action> {
    match o
    case Saw(v, k, r) => if v == i then [Read(k, r)] else []
    case Probed(v, k, b) => if v == i then [Presence(k, b)] else []
    case Wrote(v, k, w) => if v == i then [Write(k, w)] else []
    case _ => []
  }

  function Transcript(os: seq<Obs>, i: nat): seq<Action> {
    if os == [] then [] else Transcript(os[..|os| - 1], i) + ActionOf(os[|os| - 1], i)
  }

  /** The views that committed, in the order they did. */
  function CommitOrder(os: seq<Obs>): seq<nat> {
    if os == [] then [] else
      var o := os[|os| - 1];
      CommitOrder(os[..|os| - 1]) + if o.Committed? then [o.view] else []
  }

  function WritesOf(acts: seq<Action>): map<Key, Option<Value>> {
    if acts == [] then map[] else
      var w := WritesOf(acts[..|acts| - 1]);
      var a := acts[|acts| - 1];
      if a.Write? then w[a.key := a.value] else w
  }

  ghost predicate Fits(c: Codec, s: map<Key, Json>, w: map<Key, Option<Value>>, a: Action) {
    && (a.Read? ==> a.result == ReadAt(c, s, w, a.key))
    && (a.Presence? ==> a.present == PresentAt(s, w, a.key))
  }

  /** Run alone against `s`, the transaction would see exactly the results it reports. */
  ghost predicate Explains(c: Codec, s: map<Key, Json>, acts: seq<Action>) {
    acts == [] ||
    (var before := acts[..|acts| - 1];
     Explains(c, s, before) &&
     Fits(c, s, WritesOf(before), acts[|acts| - 1]))
  }

  /** The states of a machine that runs whole transactions one after the other. */
  function Serial(c: Codec, s: map<Key, Json>, txns: seq<seq<Action>>): (r: seq<map<Key, Json>>)
    ensures |r| == |txns| + 1
  {
    if txns == [] then [s] else
      var before := Serial(c, s, txns[..|txns| - 1]);
      before + [Apply(c, before[|before| - 1], WritesOf(txns[|txns| - 1]))]
  }

  function Transcripts(os: seq<Obs>, order: seq<nat>): seq<seq<Action>> {
    seq(|order|, n requires 0 <= n < |order| => Transcript(os, order[n]))
  }

  /** A view saw its own snapshot, and holds the writes it reported. */
  ghost predicate ViewWitnessed(c: Codec, m: Model, os: seq<Obs>, i: nat)
    requires i < |m.views|
  {
    && m.views[i].tid < |m.history|
    && Explains(c, m.history[m.views[i].tid], Transcript(os, i))
    && WritesOf(Transcript(os, i)) == m.views[i].writes
  }

  /** The n-th commit extended the very state its transaction had looked at. */
  ghost predicate CommitWitnessed(c: Codec, m: Model, i: nat, n: nat)
    requires n + 1 < |m.history|
  {
    && i < |m.views|
    && m.views[i].tid == n
    && (m.views[i].phase.Stored? || m.views[i].phase.Released?)
    && m.history[n + 1] == Apply(c, m.history[n], m.views[i].writes)
  }

  ghost predicate Witnessed(c: Codec, s: map<Key, Json>, m: Model, os: seq<Obs>) {
    var order := CommitOrder(os);
    && |m.history| == |order| + 1
    && m.history[0] == s
    && (forall i: nat | i < |m.views| :: ViewWitnessed(c, m, os, i))
    && (forall i: nat | |m.views| <= i :: Transcript(os, i) == [])
    && (forall n: nat | n < |order| :: CommitWitnessed(c, m, order[n], n))
  }

  lemma ExtendTranscript(os: seq<Obs>, o: Obs, i: nat)
    ensures Transcript(os + [o], i) == Transcript(os, i) + ActionOf(o, i)
    ensures CommitOrder(os + [o]) == CommitOrder(os) + if o.Committed? then [o.view] else []
  {
    assert (os + [o])[..|os|] == os;
  }

  lemma ExtendAction(c: Codec, s: map<Key, Json>, acts: seq<Action>, a: Action)
    requires Explains(c, s, acts)
    requires Fits(c, s, WritesOf(acts), a)
    ensures Explains(c, s, acts + [a])
    ensures WritesOf(acts + [a]) == if a.Write? then WritesOf(acts)[a.key := a.value] else WritesOf(acts)
  {
    assert (acts + [a])[..|acts|] == acts;
  }

  /** What a step reports of a view is what its snapshot and its own writes give, and is all that changes its writes. */
  lemma StepReports(c: Codec, m: Model, e: Event, i: nat)
    requires |m.history| > 0 && i < |m.views| && m.views[i].tid < |m.history|
    ensures var (m', o) := Step(c, m, e);
      && i < |m'.views| && m'.views[i].tid == m.views[i].tid
      && m.history <= m'.history
      && (ActionOf(o, i) == [] ==> m'.views[i].writes == m.views[i].writes)
      && (ActionOf(o, i) != [] ==>
            var a := ActionOf(o, i)[0];
            && ActionOf(o, i) == [a]
            && Fits(c, m.history[m.views[i].tid], m.views[i].writes, a)
            && m'.views[i].writes == if a.Write? then m.views[i].writes[a.key := a.value] else m.views[i].writes)
  {
  }

  /** At most one view is added, and nothing is reported of views that do not exist. */
  lemma StepAdds(c: Codec, m: Model, e: Event)
    requires |m.history| > 0
    ensures var (m', o) := Step(c, m, e);
      && |m.views| <= |m'.views| <= |m.views| + 1
      && (forall i: nat | |m.views| <= i :: ActionOf(o, i) == [])
      && (|m'.views| > |m.views| ==>
            var v := m'.views[|m.views|]; v.writes == map[] && (e.OpenViewAt? ==> v.tid <= Cur(m)) && v.tid < |m'.history|)
  {
  }

  lemma StepWitnessesView(c: Codec, m: Model, os: seq<Obs>, e: Event, i: nat)
    requires |m.history| > 0 && i < |m.views| && ViewWitnessed(c, m, os, i)
    ensures var (m', o) := Step(c, m, e); i < |m'.views| && ViewWitnessed(c, m', os + [o], i)
  {
    var o := Step(c, m, e).1;
    ExtendTranscript(os, o, i);
    StepReports(c, m, e, i);
    if ActionOf(o, i) != [] {
      ExtendAction(c, m.history[m.views[i].tid], Transcript(os, i), ActionOf(o, i)[0]);
    } else {
      assert Transcript(os + [o], i) == Transcript(os, i);
    }
  }

  lemma StepWitnessesCommits(c: Codec, m: Model, order: seq<nat>, e: Event)
    requires |m.history| == |order| + 1
    requires forall n: nat | n < |order| :: CommitWitnessed(c, m, order[n], n)
    ensures var (m', o) := Step(c, m, e);
      var order' := order + if o.Committed? then [o.view] else [];
      && |m'.history| == |order'| + 1
      && m'.history[0] == m.history[0]
      && forall n: nat | n < |order'| :: CommitWitnessed(c, m', order'[n], n)
  {
    var (m', o) := Step(c, m, e);
    var order' := order + if o.Committed? then [o.view] else [];
    assert m.history <= m'.history;
    forall n: nat | n < |order'| ensures n + 1 < |m'.history| && CommitWitnessed(c, m', order'[n], n) {
      if n < |order| {
        assert CommitWitnessed(c, m, order[n], n);
      }
    }
  }

  lemma StepWitnessed(c: Codec, s: map<Key, Json>, m: Model, os: seq<Obs>, e: Event)
    requires Witnessed(c, s, m, os)
    ensures Witnessed(c, s, Step(c, m, e).0, os + [Step(c, m, e).1])
  {
    var r := Step(c, m, e);
    var os' := os + [r.1];
    StepAdds(c, m, e);
    assert |r.0.history| == |CommitOrder(os')| + 1 && r.0.history[0] == s &&
           forall n: nat | n < |CommitOrder(os')| :: CommitWitnessed(c, r.0, CommitOrder(os')[n], n) by {
      ExtendTranscript(os, r.1, 0);
      StepWitnessesCommits(c, m, CommitOrder(os), e);
    }
    forall i: nat | |m.views| <= i ensures Transcript(os', i) == [] {
      ExtendTranscript(os, r.1, i);
    }
    forall i: nat | i < |r.0.views| ensures ViewWitnessed(c, r.0, os', i) {
      if i < |m.views| {
        StepWitnessesView(c, m, os, e, i);
      }
    }
  }

  lemma {:induction false} RunWitnessed(c: Codec, s: map<Key, Json>, es: seq<Event>)
    ensures Witnessed(c, s, Run(c, s, es).0, Run(c, s, es).1)
  {
    if es != [] {
      var before := es[..|es| - 1];
      RunWitnessed(c, s, before);
      StepWitnessed(c, s, Run(c, s, before).0, Run(c, s, before).1, es[|es| - 1]);
    }
  }

  /** Chaining the commits one by one rebuilds the history. */
  lemma {:induction false} SerialIsHistory(c: Codec, s: map<Key, Json>, txns: seq<seq<Action>>, history: seq<map<Key, Json>>)
    requires |history| == |txns| + 1 && history[0] == s
    requires forall n | 0 <= n < |txns| :: history[n + 1] == Apply(c, history[n], WritesOf(txns[n]))
    ensures Serial(c, s, txns) == history
  {
    if txns != [] {
      var n := |txns| - 1;
      SerialIsHistory(c, s, txns[..n], history[..n + 1]);
      assert history[n + 1] == Apply(c, history[n], WritesOf(txns[n]));
    }
  }

  /** The observations `os` are those of a serial machine started on `s`, whose states are the history of `m`. */
  ghost predicate LooksSerial(c: Codec, s: map<Key, Json>, m: Model, os: seq<Obs>) {
    var order := CommitOrder(os);
    var txns := Transcripts(os, order);
    && m.history == Serial(c, s, txns)
    && (forall n: nat | n < |txns| :: Explains(c, m.history[n], txns[n]))
    && (forall i: nat | i < |m.views| ::
          m.views[i].tid < |m.history| && Explains(c, m.history[m.views[i].tid], Transcript(os, i)))
    && (forall a, b | 0 <= a < b < |order| :: order[a] != order[b])
  }

  lemma WitnessedLooksSerial(c: Codec, s: map<Key, Json>, m: Model, os: seq<Obs>)
    requires Witnessed(c, s, m, os)
    ensures LooksSerial(c, s, m, os)
  {
    var order := CommitOrder(os);
    forall n: nat | n < |order|
      ensures m.history[n + 1] == Apply(c, m.history[n], WritesOf(Transcript(os, order[n])))
      ensures Explains(c, m.history[n], Transcript(os, order[n]))
      ensures m.views[order[n]].tid == n
    {
      assert CommitWitnessed(c, m, order[n], n);
      assert ViewWitnessed(c, m, os, order[n]);
    }
    SerialIsHistory(c, s, Transcripts(os, order), m.history);
    forall i: nat | i < |m.views|
      ensures m.views[i].tid < |m.history| && Explains(c, m.history[m.views[i].tid], Transcript(os, i))
    {
      assert ViewWitnessed(c, m, os, i);
    }
  }

  /**
   Serialisability: under any interleaving, the final store and every committed transaction's
   reads are those of running the committed transactions alone, in commit order; and every other
   view saw one of that run's states.
   */
  lemma Serializable(c: Codec, s: map<Key, Json>, es: seq<Event>)
    ensures LooksSerial(c, s, Run(c, s, es).0, Run(c, s, es).1)
  {
    RunWitnessed(c, s, es);
    WitnessedLooksSerial(c, s, Run(c, s, es).0, Run(c, s, es).1);
  }

  /*** Which commits are refused ***/

  /** A writeable view was opened on the state that the commits before its opening had made. */
  ghost predicate OpenedAfter(m: Model, os: seq<Obs>, i: nat, n: nat)
    requires i < |m.views|
  {
    n < |os| && os[n] == Opened(i, m.views[i].tid) && |CommitOrder(os[..n])| == m.views[i].tid
  }

  ghost predicate AllOpened(m: Model, os: seq<Obs>) {
    && |m.history| == |CommitOrder(os)| + 1
    && (forall i: nat {:trigger m.views[i]} | i < |m.views| && m.views[i].writeable :: exists n: nat :: OpenedAfter(m, os, i, n))
    && (forall n: nat | n < |os| && os[n].Opened? :: os[n].view < |m.views|)
    && (forall a: nat, b: nat | a < b < |os| && os[a].Opened? && os[b].Opened? :: os[a].view != os[b].view)
  }

  /** A step opens at most one view, reports that it does, and opens what may write on the latest state. */
  lemma StepOpens(c: Codec, m: Model, e: Event)
    requires |m.history| > 0
    ensures var (m', o) := Step(c, m, e);
      && |m'.history| == |m.history| + (if o.Committed? then 1 else 0)
      && |m'.views| == |m.views| + (if o.Opened? then 1 else 0)
      && (forall i: nat | i < |m.views| :: m'.views[i].tid == m.views[i].tid && m'.views[i].writeable == m.views[i].writeable)
      && (o.Opened? ==>
            var v := m'.views[|m.views|];
            o == Opened(|m.views|, v.tid) && (v.writeable ==> v.tid == Cur(m)))
  {
  }

  lemma StepOpened(c: Codec, m: Model, os: seq<Obs>, e: Event)
    requires AllOpened(m, os) && |m.history| > 0
    ensures AllOpened(Step(c, m, e).0, os + [Step(c, m, e).1])
  {
    StepOpens(c, m, e);
    var r := Step(c, m, e);
    OpenedMore(m, os, r.0, r.1);
  }

  lemma OpenedMore(m: Model, os: seq<Obs>, m': Model, o: Obs)
    requires AllOpened(m, os) && |m.history| > 0
    requires |m'.history| == |m.history| + (if o.Committed? then 1 else 0)
    requires |m'.views| == |m.views| + (if o.Opened? then 1 else 0)
    requires forall i: nat | i < |m.views| :: m'.views[i].tid == m.views[i].tid && m'.views[i].writeable == m.views[i].writeable
    requires o.Opened? ==> var v := m'.views[|m.views|]; o == Opened(|m.views|, v.tid) && (v.writeable ==> v.tid == Cur(m))
    ensures AllOpened(m', os + [o])
  {
    var os' := os + [o];
    ExtendTranscript(os, o, 0);
    forall i: nat | i < |m'.views| && m'.views[i].writeable ensures exists n: nat :: OpenedAfter(m', os', i, n) {
      if i < |m.views| {
        assert m.views[i].writeable;
        var n: nat :| OpenedAfter(m, os, i, n);
        assert os'[..n] == os[..n];
        assert OpenedAfter(m', os', i, n);
      } else {
        assert os'[..|os|] == os;
        assert OpenedAfter(m', os', i, |os|);
      }
    }
  }

  lemma {:induction false} RunOpened(c: Codec, s: map<Key, Json>, es: seq<Event>)
    ensures AllOpened(Run(c, s, es).0, Run(c, s, es).1)
  {
    if es != [] {
      RunOpened(c, s, es[..|es| - 1]);
      StepOpened(c, Run(c, s, es[..|es| - 1]).0, Run(c, s, es[..|es| - 1]).1, es[|es| - 1]);
    }
  }

  /** Some view committed after this one was opened. */
  ghost predicate Overtaken(os: seq<Obs>, i: nat) {
    exists a: nat, b: nat :: a < b < |os| && os[a].Opened? && os[a].view == i && os[b].Committed?
  }

  lemma {:induction false} CommitsGrow(os: seq<Obs>, n: nat)
    requires n <= |os|
    ensures |CommitOrder(os[..n])| <= |CommitOrder(os)|
    ensures |CommitOrder(os[..n])| < |CommitOrder(os)| <==> exists b: nat :: n <= b < |os| && os[b].Committed?
  {
    if n < |os| {
      var front := os[..|os| - 1];
      CommitsGrow(front, n);
      assert front[..n] == os[..n];
      if os[|os| - 1].Committed? {
        assert n <= |os| - 1 < |os|;
      }
      if b: nat :| n <= b < |front| && front[b].Committed? {
        assert os[b].Committed?;
      }
    } else {
      assert os[..n] == os;
    }
  }

  /**
   In every run a commit is refused exactly when the view is read-only or the schedule shows another
   commit since the view was opened; then no state, count or other view changes.
   */
  lemma RejectedExactlyWhenOvertaken(c: Codec, s: map<Key, Json>, es: seq<Event>, i: nat)
    requires IdleView(Run(c, s, es).0, i) && Run(c, s, es).0.views[i].writes != map[]
    ensures var (m, os) := Run(c, s, es);
      var (m', o) := Step(c, m, Exit(i, false));
      && (o == Rejected(i) <==> !m.views[i].writeable || Overtaken(os, i))
      && (o != Rejected(i) ==> o == Committed(i))
      && (o == Rejected(i) ==> m' == SetPhase(m, i, Leaked))
  {
    var (m, os) := Run(c, s, es);
    RunOpened(c, s, es);
    RunSound(c, s, es);
    if m.views[i].writeable {
      var n: nat :| OpenedAfter(m, os, i, n);
      CommitsGrow(os, n);
      assert m.views[i].tid <= Cur(m);
      if m.views[i].tid < Cur(m) {
        var b: nat :| n <= b < |os| && os[b].Committed?;
        assert n < b && os[n].view == i;
      }
      if Overtaken(os, i) {
        var a: nat, b: nat :| a < b < |os| && os[a].Opened? && os[a].view == i && os[b].Committed?;
        assert a == n;
      }
    }
  }

  /*** What reads give, in terms of the observations alone ***/

  ghost predicate WroteAt(os: seq<Obs>, n: nat, i: nat, k: Key) {
    n < |os| && os[n].Wrote? && os[n].view == i && os[n].key == k
  }

  /** Of the first n observations this is the last write of the view to the key. */
  ghost predicate LastWrite(os: seq<Obs>, i: nat, k: Key, n: nat, j: nat) {
    j < n && WroteAt(os, j, i, k) && forall x: nat | j < x < n :: !WroteAt(os, x, i, k)
  }

  ghost predicate NoWrite(os: seq<Obs>, i: nat, k: Key, n: nat) {
    forall x: nat | x < n :: !WroteAt(os, x, i, k)
  }

  lemma WritesMore(acts: seq<Action>, a: Action)
    ensures WritesOf(acts + [a]) == if a.Write? then WritesOf(acts)[a.key := a.value] else WritesOf(acts)
  {
    assert (acts + [a])[..|acts|] == acts;
  }

  /** The writes a view holds are the last that it reported for each key. */
  lemma {:induction false} WritesAreLast(os: seq<Obs>, i: nat, k: Key)
    ensures HoldsLast(WritesOf(Transcript(os, i)), os, i, k)
  {
    if os != [] {
      var n := |os| - 1;
      WritesAreLast(os[..n], i, k);
      assert os == os[..n] + [os[n]];
      HoldsNext(os[..n], os[n], i, k);
    }
  }

  ghost predicate HoldsLast(w: map<Key, Option<Value>>, os: seq<Obs>, i: nat, k: Key) {
    && (k !in w <==> NoWrite(os, i, k, |os|))
    && (forall j: nat | LastWrite(os, i, k, |os|, j) :: k in w && w[k] == os[j].value)
  }

  lemma HoldsNext(os: seq<Obs>, o: Obs, i: nat, k: Key)
    requires HoldsLast(WritesOf(Transcript(os, i)), os, i, k)
    ensures HoldsLast(WritesOf(Transcript(os + [o], i)), os + [o], i, k)
  {
    var w, all := WritesOf(Transcript(os, i)), os + [o];
    ExtendTranscript(os, o, i);
    if ActionOf(o, i) == [] {
      assert Transcript(all, i) == Transcript(os, i);
    } else {
      WritesMore(Transcript(os, i), ActionOf(o, i)[0]);
      assert Transcript(all, i) == Transcript(os, i) + [ActionOf(o, i)[0]];
    }
    HoldsAfter(w, os, o, i, k);
  }

  lemma HoldsAfter(w: map<Key, Option<Value>>, os: seq<Obs>, o: Obs, i: nat, k: Key)
    requires HoldsLast(w, os, i, k)
    ensures HoldsLast(if o.Wrote? && o.view == i then w[o.key := o.value] else w, os + [o], i, k)
  {
    var all := os + [o];
    assert forall x: nat | x < |os| :: WroteAt(all, x, i, k) == WroteAt(os, x, i, k) && all[x] == os[x];
    assert WroteAt(all, |os|, i, k) <==> o.Wrote? && o.view == i && o.key == k;
    forall j: nat | LastWrite(all, i, k, |all|, j) && j < |os| ensures LastWrite(os, i, k, |os|, j) { }
  }

  /** A run goes on from where its beginning was. */
  lemma {:induction false} RunGoesOn(c: Codec, s: map<Key, Json>, es: seq<Event>, n: nat)
    requires n <= |es|
    ensures var (m, os), (m', os') := Run(c, s, es[..n]), Run(c, s, es);
      && os == os'[..n] && m.history <= m'.history && |m.views| <= |m'.views|
      && forall i: nat | i < |m.views| && m.views[i].tid < |m.history| :: m'.views[i].tid == m.views[i].tid
    decreases |es|
  {
    if n == |es| {
      assert es[..n] == es;
    } else {
      var front := es[..|es| - 1];
      RunGoesOn(c, s, front, n);
      assert front[..n] == es[..n];
      RunWitnessed(c, s, front);
      var m, e := Run(c, s, front).0, es[|es| - 1];
      StepAdds(c, m, e);
      forall i: nat | i < |m.views| && m.views[i].tid < |m.history| ensures Step(c, m, e).0.views[i].tid == m.views[i].tid {
        StepReports(c, m, e, i);
      }
      StepHistory(c, m, e);
    }
  }

  lemma StepHistory(c: Codec, m: Model, e: Event)
    requires |m.history| > 0
    ensures m.history <= Step(c, m, e).0.history
  {
  }

  /** What a step reports of a read is what the view last wrote there before, or else what its state has there. */
  ghost predicate ReportsRight(c: Codec, m: Model, os: seq<Obs>, n: nat, o: Obs) {
    o.Saw? || o.Probed? ==>
      && o.view < |m.views| && m.views[o.view].tid < |m.history|
      && (forall j: nat | LastWrite(os, o.view, o.key, n, j) :: Gave(o, os[j].value))
      && (NoWrite(os, o.view, o.key, n) ==> Gave(o, ReadAt(c, m.history[m.views[o.view].tid], map[], o.key)))
  }

  lemma StepReportsRight(c: Codec, s: map<Key, Json>, m: Model, os: seq<Obs>, e: Event)
    requires Witnessed(c, s, m, os)
    ensures ReportsRight(c, m, os, |os|, Step(c, m, e).1)
  {
    var o := Step(c, m, e).1;
    StepAdds(c, m, e);
    if o.Saw? || o.Probed? {
      var i, k := o.view, o.key;
      assert ActionOf(o, i) != [];
      assert i < |m.views| && ViewWitnessed(c, m, os, i);
      StepReports(c, m, e, i);
      WritesAreLast(os, i, k);
      ReadsOwnWrites(c, m.history[m.views[i].tid], m.views[i].writes, k);
    }
  }

  lemma StillRight(c: Codec, m: Model, m': Model, os: seq<Obs>, all: seq<Obs>, o: Obs)
    requires ReportsRight(c, m, os, |os|, o) && os <= all && m.history <= m'.history && |m.views| <= |m'.views|
    requires forall i: nat | i < |m.views| && m.views[i].tid < |m.history| :: m'.views[i].tid == m.views[i].tid
    ensures ReportsRight(c, m', all, |os|, o)
  {
    if o.Saw? || o.Probed? {
      var i, k, n := o.view, o.key, |os|;
      assert forall x: nat | x < n :: WroteAt(all, x, i, k) == WroteAt(os, x, i, k) && all[x] == os[x];
      forall j: nat | LastWrite(all, i, k, n, j) ensures Gave(o, all[j].value) {
        assert LastWrite(os, i, k, n, j);
      }
    }
  }

  /**
   Every read of a run gives what the view itself last wrote there, or else what the state it was opened on
   has there; and every test for presence says whether there is such a value.
   */
  lemma ReadsExactly(c: Codec, s: map<Key, Json>, es: seq<Event>, n: nat)
    requires n < |es|
    ensures var (m, os) := Run(c, s, es); ReportsRight(c, m, os, n, os[n])
  {
    RunGoesOn(c, s, es, n);
    RunGoesOn(c, s, es, n + 1);
    assert es[..n + 1][..n] == es[..n];
    var (m, os) := Run(c, s, es[..n]);
    var o, all := Step(c, m, es[n]).1, Run(c, s, es).1;
    assert all[n] == all[..n + 1][n] == o;
    RunWitnessed(c, s, es[..n]);
    StepReportsRight(c, s, m, os, es[n]);
    StillRight(c, m, Run(c, s, es).0, os, all, o);
  }

  /** The observation is this value, or says whether there is one. */
  predicate Gave(o: Obs, v: Option<Value>) {
    (o.Saw? ==> o.result == v) && (o.Probed? ==> o.present == v.Some?)
  }

  /** What is written reads back as it was. */
  ghost predicate Faithful(c: Codec, es: seq<Event>) {
    forall e | e in es && e.Assign? :: RoundTrips(c, e.key, e.value)
  }

  ghost predicate WritesFaithful(c: Codec, m: Model) {
    forall i: nat, k | i < |m.views| && k in m.views[i].writes :: RoundTrips(c, k, m.views[i].writes[k])
  }

  lemma StepFaithful(c: Codec, m: Model, e: Event)
    requires |m.history| > 0 && WritesFaithful(c, m) && (e.Assign? ==> RoundTrips(c, e.key, e.value))
    ensures WritesFaithful(c, Step(c, m, e).0)
  {
  }

  lemma {:induction false} RunFaithful(c: Codec, s: map<Key, Json>, es: seq<Event>)
    requires Faithful(c, es)
    ensures WritesFaithful(c, Run(c, s, es).0)
  {
    if es != [] {
      assert es[|es| - 1] in es && forall e | e in es[..|es| - 1] :: e in es;
      RunFaithful(c, s, es[..|es| - 1]);
      StepFaithful(c, Run(c, s, es[..|es| - 1]).0, es[|es| - 1]);
    }
  }

  /** The n-th commit made of the key what its view last wrote there, or left it as it was. */
  ghost predicate CommitMade(c: Codec, h: seq<map<Key, Json>>, os: seq<Obs>, n: nat, k: Key)
    requires n + 1 < |h| && n < |CommitOrder(os)|
  {
    var i := CommitOrder(os)[n];
    && (forall j: nat | LastWrite(os, i, k, |os|, j) :: ReadAt(c, h[n + 1], map[], k) == Kept(c, os[j].value))
    && (NoWrite(os, i, k, |os|) ==> ReadAt(c, h[n + 1], map[], k) == ReadAt(c, h[n], map[], k))
  }

  /** Each commit makes of every key what its view last wrote there, and leaves every other as it was. */
  lemma CommitsAreRead(c: Codec, s: map<Key, Json>, es: seq<Event>, n: nat, k: Key)
    requires Faithful(c, es) && n < |CommitOrder(Run(c, s, es).1)|
    ensures var (m, os) := Run(c, s, es); |m.history| == |CommitOrder(os)| + 1 && CommitMade(c, m.history, os, n, k)
  {
    RunWitnessed(c, s, es);
    RunFaithful(c, s, es);
    var (m, os) := Run(c, s, es);
    var i := CommitOrder(os)[n];
    assert CommitWitnessed(c, m, i, n) && ViewWitnessed(c, m, os, i);
    WritesAreLast(os, i, k);
    CommitReads(c, m.history[n], m.views[i].writes, k);
  }

  /** The n-th commit wrote the key last with observation j, and none of those up to the given one wrote it since. */
  ghost predicate LastCommit(os: seq<Obs>, k: Key, n: nat, to: nat, j: nat) {
    && n < to <= |CommitOrder(os)| && LastWrite(os, CommitOrder(os)[n], k, |os|, j)
    && forall x: nat | n < x < to :: NoWrite(os, CommitOrder(os)[x], k, |os|)
  }

  /** In every later state a key reads as the last commit that wrote it left it. */
  lemma SeesLastCommit(c: Codec, s: map<Key, Json>, es: seq<Event>, n: nat, to: nat, k: Key, j: nat)
    requires Faithful(c, es) && LastCommit(Run(c, s, es).1, k, n, to, j)
    ensures var (m, os) := Run(c, s, es); to < |m.history| && ReadAt(c, m.history[to], map[], k) == Kept(c, os[j].value)
  {
    var (m, os) := Run(c, s, es);
    CommitsAreRead(c, s, es, n, k);
    forall x: nat | x < |CommitOrder(os)| ensures CommitMade(c, m.history, os, x, k) {
      CommitsAreRead(c, s, es, x, k);
    }
    LastStays(c, m.history, os, n, to, k, j);
  }

  lemma {:induction false} LastStays(c: Codec, h: seq<map<Key, Json>>, os: seq<Obs>, n: nat, to: nat, k: Key, j: nat)
    requires |h| == |CommitOrder(os)| + 1 && LastCommit(os, k, n, to, j)
    requires forall x: nat | x < |CommitOrder(os)| :: CommitMade(c, h, os, x, k)
    ensures ReadAt(c, h[to], map[], k) == Kept(c, os[j].value)
  {
    assert CommitMade(c, h, os, to - 1, k);
    if n + 1 < to {
      assert NoWrite(os, CommitOrder(os)[to - 1], k, |os|);
      LastStays(c, h, os, n, to - 1, k, j);
    }
  }

  /** New views and transactions are opened on the state that all commits so far have made, only the latter to write. */
  lemma OpensLatest(c: Codec, s: map<Key, Json>, es: seq<Event>, n: nat)
    requires n < |es|
    ensures var (m, os) := Run(c, s, es); var e := es[n];
      && (e.OpenView? || e.Begin? ==> OpenedOn(m, os, n, |CommitOrder(os[..n])|, e.Begin?))
      && (e.OpenViewAt? ==> if Serves(c, s, es[..n], e.at) then OpenedOn(m, os, n, e.at, false) else os[n] == Refused)
  {
    RunGoesOn(c, s, es, n);
    RunGoesOn(c, s, es, n + 1);
    assert es[..n + 1][..n] == es[..n];
    var m := Run(c, s, es[..n]).0;
    RunWitnessed(c, s, es[..n]);
    RunSound(c, s, es[..n + 1]);
    var os := Run(c, s, es).1;
    assert os[n] == os[..n + 1][n] == Step(c, m, es[n]).1;
    KeepsWriteable(c, s, es, n + 1);
  }

  /** After this run the state is one of those still served. */
  ghost predicate Serves(c: Codec, s: map<Key, Json>, es: seq<Event>, t: nat) {
    Run(c, s, es).0.horizon <= t < |Run(c, s, es).0.history|
  }

  ghost predicate OpenedOn(m: Model, os: seq<Obs>, n: nat, tid: nat, writeable: bool)
    requires n < |os|
  {
    && os[n].Opened? && os[n].tid == tid && os[n].view < |m.views|
    && m.views[os[n].view].tid == tid && m.views[os[n].view].writeable == writeable
  }

  lemma {:induction false} KeepsWriteable(c: Codec, s: map<Key, Json>, es: seq<Event>, n: nat)
    requires n <= |es|
    ensures var (m, m') := (Run(c, s, es[..n]).0, Run(c, s, es).0);
      |m.views| <= |m'.views| && forall i: nat | i < |m.views| :: m'.views[i].writeable == m.views[i].writeable
    decreases |es|
  {
    if n == |es| {
      assert es[..n] == es;
    } else {
      var front := es[..|es| - 1];
      KeepsWriteable(c, s, front, n);
      assert front[..n] == es[..n];
      StepOpens(c, Run(c, s, front).0, es[|es| - 1]);
    }
  }
}
