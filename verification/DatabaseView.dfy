/** Views and transactions on the database. */
module DatabaseViews {
  // Any schedule of their steps is answered exactly as by the machine of the module Snapshots.
  import opened Options
  import opened Snapshots
  import opened ObjectDatabase

  datatype Outcome = Done | CommitDone | Raised

  /** A later view reads what was written, and elsewhere what was there before. */
  ghost predicate ReadsAfter(c: Codec, s: map<Key, Json>, w: map<Key, Option<Value>>, t: map<Key, Json>, k: Key) {
    ReadAt(c, t, map[], k) == if k in w then Kept(c, w[k]) else ReadAt(c, s, map[], k)
  }

  class DatabaseView {
    const db: Database
    const tid: nat
    const writeable: bool
    var writes: map<Key, Option<Value>>
    var phase: Phase
    /** locals of a read in flight: the parse its first locked read found, the JSON its second one found */
    var parsed: Option<Value>
    var json: Option<Json>

    ghost function Abs(): ViewModel
      reads this
    {
      ViewModel(tid, writeable, writes, phase)
    }

    /** A fact about this view that no step of any other view can disturb. */
    ghost predicate Valid()
      reads this, db
    {
      && tid < |db.history|
      && (!phase.Released? ==> tid in db.counts)
      && (forall k | k in writes :: RoundTrips(db.codec, k, writes[k]))
      && (phase.Fetched? || phase.Confirmed? ==>
            phase.key !in writes && Coherent(db.codec, phase.key, Entry(Lookup(db.history[tid], phase.key), parsed)))
      && (phase.Confirmed? ==> json == Lookup(db.history[tid], phase.key))
    }

    constructor (db: Database, tid: nat, writeable: bool)
      ensures this.db == db && Abs() == ViewModel(tid, writeable, map[], Idle)
    {
      this.db, this.tid, this.writeable := db, tid, writeable;
      writes, phase, parsed, json := map[], Idle, None, None;
    }

    /** A read answers at once from the view's own writes, or takes the lock a first time. */
    method ReadFirst(k: Key) returns (r: Option<Option<Value>>)
      requires db.Valid() && Valid() && phase.Idle?
      modifies this
      ensures Valid()
      ensures k in old(writes) ==> r == Some(old(writes)[k]) && Abs() == old(Abs())
      ensures k !in old(writes) ==> r.None? && Abs() == old(Abs()).(phase := Fetched(k))
    {
      if k in writes {
        return Some(writes[k]);
      }
      var e := db.GetVersioned(k, tid);
      parsed, phase := e.parsed, Fetched(k);
      return None;
    }

    /** It takes the lock a second time for the JSON. */
    method ReadSecond()
      requires db.Valid() && Valid() && phase.Fetched?
      modifies this
      ensures Valid() && Abs() == old(Abs()).(phase := Confirmed(old(phase).key))
    {
      var e := db.GetVersioned(phase.key, tid);
      json, phase := e.json, Confirmed(phase.key);
    }

    /** Then it parses without the lock if nobody had, and files the parse under the lock. */
    method ReadFinish() returns (r: Option<Value>)
      requires db.Valid() && Valid() && phase.Confirmed?
      modifies this, db`objects, db`tail, db`cache
      ensures db.Valid() && Valid() && Abs() == old(Abs()).(phase := Idle)
      ensures r == ReadAt(db.codec, db.history[tid], writes, old(phase).key)
    {
      var k := phase.key;
      phase := Idle;
      db.ServesState(k);
      if json.None? {
        return None;
      }
      if parsed.Some? {
        return parsed;
      }
      var v := db.codec.decode(k, json.value);
      db.UpdateCache(k, tid, v);
      return Some(v);
    }

    /** An uninterrupted read. */
    method Get(k: Key) returns (r: Option<Value>)
      requires db.Valid() && Valid() && phase.Idle?
      modifies this, db`objects, db`tail, db`cache
      ensures db.Valid() && Valid() && Abs() == old(Abs())
      ensures r == ReadAt(db.codec, db.history[tid], writes, k)
    {
      var own := ReadFirst(k);
      if own.Some? {
        return own.value;
      }
      ReadSecond();
      r := ReadFinish();
    }

    method Exists(k: Key) returns (b: bool)
      requires db.Valid() && Valid() && phase.Idle?
      ensures b == PresentAt(db.history[tid], writes, k)
    {
      if k in writes {
        return writes[k].Some?;
      }
      var e := db.GetVersioned(k, tid);
      return e.json.Some?;
    }

    /** A pending write of one key, or with None the deletion of one; only writing checks that the view may write. */
    method Assign(k: Key, v: Option<Value>) returns (ok: bool)
      requires db.Valid() && Valid() && phase.Idle? && RoundTrips(db.codec, k, v)
      modifies this
      ensures Valid()
      ensures ok <==> (v.Some? ==> writeable)
      ensures Abs() == if ok then old(Abs()).(writes := old(writes)[k := v]) else old(Abs())
    {
      ok := v.None? || writeable;
      if ok {
        writes := writes[k := v];
      }
    }

    /** Stores the writes as the next state, unless another transaction has stored one since the view was opened. */
    method Commit() returns (ok: bool)
      requires db.Valid() && Valid()
      modifies db`kv, db`cur, db`versions, db`versionObjects, db`keyVersions, db`objects, db`tail, db`cache, db`history, db`touched
      ensures db.Valid() && Valid()
      ensures ok <==> writeable && (writes == map[] || tid == |old(db.history)| - 1)
      ensures db.history == old(db.history) + if ok && writes != map[] then [Apply(db.codec, old(db.kv), writes)] else []
      ensures !ok || writes == map[] ==> unchanged(db)
      ensures ok ==> forall k :: ReadsAfter(db.codec, old(db.kv), writes, db.kv, k)
    {
      if !writeable {
        return false;
      }
      ok := true;
      if writes != map[] {
        var entries := map k | k in writes :: Entry(Encoded(db.codec, writes[k]), writes[k]);
        assert Put(db.kv, entries) == Apply(db.codec, db.kv, writes);
        ghost var before := db.kv;
        ok := db.SetVersioned(entries, tid);
        forall k ensures ok ==> ReadsAfter(db.codec, before, writes, db.kv, k) {
          CommitReads(db.codec, before, writes, k);
        }
      }
    }

    /**
     Leaving the `with` block, up to where the lock is first let go. A commit that raises skips the
     release, so the view's reference stays counted for ever.
     */
    method Leave(raised: bool) returns (o: Outcome)
      requires db.Valid() && Valid() && phase.Idle?
      modifies this, db
      ensures db.Valid() && Valid()
      ensures o.Raised? <==> !raised && writes != map[] && !(writeable && tid == |old(db.history)| - 1)
      ensures o.CommitDone? <==> !raised && writes != map[] && writeable && tid == |old(db.history)| - 1
      ensures db.history == old(db.history) +
                            if o.CommitDone? then [Apply(db.codec, old(db.kv), writes)] else []
      ensures o.Raised? ==> unchanged(db)
      ensures Abs() == old(Abs()).(phase := if o.Raised? then Leaked else if o.CommitDone? then Stored else Released)
      ensures db.counts == if o.Done? then Release(old(db.counts), tid) else old(db.counts)
      ensures db.min == if o.Done? then Collect(db.counts, old(db.min)) else old(db.min)
    {
      if raised || writes == map[] {
        db.ReleaseView(tid);
        phase := Released;
        return Done;
      }
      var ok := Commit();
      if ok {
        phase := Stored;
        return CommitDone;
      }
      phase := Leaked;
      return Raised;
    }

    /** The release after a commit, under the lock again; others may have committed, released and cleaned up in between. */
    method GiveBack()
      requires db.Valid() && Valid() && phase.Stored?
      modifies this, db
      ensures db.Valid() && Valid() && Abs() == old(Abs()).(phase := Released)
      ensures db.history == old(db.history)
      ensures db.counts == Release(old(db.counts), tid) && db.min == Collect(db.counts, old(db.min))
    {
      db.ReleaseView(tid);
      phase := Released;
    }

    /** Leaving without interruption. */
    method Exit(raised: bool) returns (o: Outcome)
      requires db.Valid() && Valid() && phase.Idle?
      modifies this, db
      ensures db.Valid() && Valid()
      ensures o.Raised? <==> !raised && writes != map[] && !(writeable && tid == |old(db.history)| - 1)
      ensures o.CommitDone? <==> !raised && writes != map[] && writeable && tid == |old(db.history)| - 1
      ensures db.history == old(db.history) +
                            if o.CommitDone? then [Apply(db.codec, old(db.kv), writes)] else []
      ensures o.Raised? ==> unchanged(db) && Abs() == old(Abs()).(phase := Leaked)
      ensures !o.Raised? ==>
                && Abs() == old(Abs()).(phase := Released)
                && db.counts == Release(old(db.counts), tid)
                && db.min == Collect(db.counts, old(db.min))
    {
      o := Leave(raised);
      if o.CommitDone? {
        GiveBack();
      }
    }
  }

  /** The database and the views opened on it stand for the abstract state `m`. */
  ghost predicate Represents(db: Database, views: seq<DatabaseView>, m: Model)
    reads db, views
  {
    && db.Valid()
    && m.history == db.history && m.counts == db.counts && m.horizon == db.min
    && |m.views| == |views|
    && (forall i, j | 0 <= i < j < |views| :: views[i] != views[j])
    && (forall i | 0 <= i < |views| :: views[i].db == db && views[i].Valid() && views[i].Abs() == m.views[i])
  }

  /** Opens a view on state `tid`, as view() and transaction() do once they hold the lock. */
  method Open(db: Database, views: seq<DatabaseView>, tid: nat, writeable: bool, ghost m: Model)
    returns (views': seq<DatabaseView>)
    requires Represents(db, views, m) && db.min <= tid <= db.cur
    modifies db
    ensures Represents(db, views', Snapshots.Open(m, tid, writeable))
    ensures |views'| == |views| + 1 && views' == views + [views'[|views|]] && fresh(views'[|views|])
    ensures unchanged(views)
  {
    db.IncVersion(tid);
    var v := new DatabaseView(db, tid, writeable);
    views' := views + [v];
  }

  /** One step of a schedule on the real objects. */
  method Perform(db: Database, views: seq<DatabaseView>, e: Event, ghost m: Model)
    returns (views': seq<DatabaseView>, o: Obs)
    requires Represents(db, views, m) && Sound(m)
    requires e.Assign? ==> RoundTrips(db.codec, e.key, e.value)
    modifies db, views
    ensures Represents(db, views', Step(db.codec, m, e).0) && o == Step(db.codec, m, e).1
    ensures forall v | v in views' :: v in views || fresh(v)
  {
    views', o := views, Silent;
    if e.OpenView? || e.Begin? {
      o := Opened(|views|, db.cur);
      views' := Open(db, views, db.cur, e.Begin?, m);
    } else if e.OpenViewAt? {
      if db.min <= e.at <= db.cur {
        o := Opened(|views|, e.at);
        views' := Open(db, views, e.at, false, m);
      } else {
        o := Refused;
      }
    } else if e.Exit? {
      if e.view < |views| && views[e.view].phase.Idle? {
        o := PerformExit(db, views, e.view, e.raised, m);
      }
    } else if e.GiveBack? {
      if e.view < |views| && views[e.view].phase.Stored? {
        PerformGiveBack(db, views, e.view, m);
        o := Closed(e.view);
      }
    } else if e.ClearCache? {
      db.ClearCache();
    } else if e.view < |views| {
      o := PerformAccess(db, views, e, m);
    }
  }

  /** The steps that read or write through one view. */
  method PerformAccess(db: Database, views: seq<DatabaseView>, e: Event, ghost m: Model) returns (o: Obs)
    requires Represents(db, views, m)
    requires e.ReadFirst? || e.ReadSecond? || e.ReadFinish? || e.Probe? || e.Assign?
    requires e.view < |views| && (e.Assign? ==> RoundTrips(db.codec, e.key, e.value))
    modifies db`objects, db`tail, db`cache, views[e.view]
    ensures Represents(db, views, Step(db.codec, m, e).0) && o == Step(db.codec, m, e).1
  {
    if e.ReadSecond? || e.ReadFinish? {
      o := PerformRest(db, views, e, m);
    } else if views[e.view].phase.Idle? {
      o := PerformStart(db, views, e, m);
    } else {
      o := Silent;
      assert Step(db.codec, m, e).0.views == m.views;
    }
  }

  /** The later steps of a read. */
  method PerformRest(db: Database, views: seq<DatabaseView>, e: Event, ghost m: Model) returns (o: Obs)
    requires Represents(db, views, m) && (e.ReadSecond? || e.ReadFinish?) && e.view < |views|
    modifies db`objects, db`tail, db`cache, views[e.view]
    ensures Represents(db, views, Step(db.codec, m, e).0) && o == Step(db.codec, m, e).1
  {
    o := Silent;
    var v := views[e.view];
    if e.ReadSecond? {
      if v.phase.Fetched? {
        v.ReadSecond();
      }
    } else if v.phase.Confirmed? {
      var k := v.phase.key;
      var r := v.ReadFinish();
      o := Saw(e.view, k, r);
    }
    ghost var next := Step(db.codec, m, e).0;
    assert |next.views| == |m.views| && next.views[e.view] == v.Abs();
    assert forall j | 0 <= j < |views| && j != e.view :: next.views[j] == m.views[j];
  }

  /** What a view does that has no read under way. */
  method PerformStart(db: Database, views: seq<DatabaseView>, e: Event, ghost m: Model) returns (o: Obs)
    requires Represents(db, views, m) && (e.ReadFirst? || e.Probe? || e.Assign?) && e.view < |views|
    requires views[e.view].phase.Idle? && (e.Assign? ==> RoundTrips(db.codec, e.key, e.value))
    modifies db`objects, db`tail, db`cache, views[e.view]
    ensures Represents(db, views, Step(db.codec, m, e).0) && o == Step(db.codec, m, e).1
  {
    o := Silent;
    var v := views[e.view];
    match e {
      case ReadFirst(i, k) =>
        var r := v.ReadFirst(k);
        if r.Some? {
          o := Saw(i, k, r.value);
        }
      case Probe(i, k) =>
        var b := v.Exists(k);
        o := Probed(i, k, b);
      case Assign(i, k, w) =>
        var ok := v.Assign(k, w);
        if ok {
          o := Wrote(i, k, w);
        }
    }
    ghost var next := Step(db.codec, m, e).0;
    assert |next.views| == |m.views| && next.views[e.view] == v.Abs();
    assert forall j | 0 <= j < |views| && j != e.view :: next.views[j] == m.views[j];
  }

  method PerformExit(db: Database, views: seq<DatabaseView>, i: nat, raised: bool, ghost m: Model) returns (o: Obs)
    requires Represents(db, views, m) && Sound(m) && i < |views| && views[i].phase.Idle?
    modifies db, views
    ensures Represents(db, views, Step(db.codec, m, Exit(i, raised)).0) && o == Step(db.codec, m, Exit(i, raised)).1
  {
    ghost var next := Step(db.codec, m, Exit(i, raised)).0;
    StepSound(db.codec, m, Exit(i, raised));
    o := LeaveOne(db, views[i], i, raised, m);
    forall j | 0 <= j < |views| && j != i ensures views[j].Valid() {
      if !views[j].phase.Released? {
        HolderCounts(next.views, j);
      }
    }
  }

  /** One view and the database take the step; what holds of the other views is left to the caller. */
  method LeaveOne(db: Database, view: DatabaseView, i: nat, raised: bool, ghost m: Model) returns (o: Obs)
    requires db.Valid() && view.Valid() && view.db == db && view.phase.Idle?
    requires m.history == db.history && m.counts == db.counts && m.horizon == db.min
    requires i < |m.views| && m.views[i] == view.Abs()
    modifies db, view
    ensures db.Valid() && view.Valid()
    ensures var (next, told) := Step(db.codec, m, Exit(i, raised));
      && o == told && next.views == m.views[i := view.Abs()]
      && next.history == db.history && next.counts == db.counts && next.horizon == db.min
      && (db.history == m.history || db.history == m.history + [db.kv])
  {
    var r := view.Leave(raised);
    match r {
      case Done => o := Closed(i);
      case CommitDone => o := Committed(i);
      case Raised => o := Rejected(i);
    }
  }

  method PerformGiveBack(db: Database, views: seq<DatabaseView>, i: nat, ghost m: Model)
    requires Represents(db, views, m) && Sound(m) && i < |views| && views[i].phase.Stored?
    modifies db, views
    ensures Represents(db, views, Step(db.codec, m, GiveBack(i)).0)
  {
    ghost var next := Step(db.codec, m, GiveBack(i)).0;
    StepSound(db.codec, m, GiveBack(i));
    views[i].GiveBack();
    assert next.views == m.views[i := views[i].Abs()];
    forall j | 0 <= j < |views| && j != i ensures views[j].Valid() {
      if !views[j].phase.Released? {
        HolderCounts(next.views, j);
      }
    }
  }

  /**
   Refinement over whole runs: for every schedule of steps of any number of views, the database
   makes every observation that the keep-everything machine makes, and ends in the same state.
   */
  method Execute(codec: Codec, store: map<Key, Json>, schedule: seq<Event>)
    returns (db: Database, views: seq<DatabaseView>, obs: seq<Obs>)
    requires forall e | e in schedule && e.Assign? :: RoundTrips(codec, e.key, e.value)
    ensures fresh(db) && db.codec == codec
    ensures Represents(db, views, Run(codec, store, schedule).0)
    ensures obs == Run(codec, store, schedule).1
    ensures db.kv == Run(codec, store, schedule).0.history[db.cur]
  {
    db := new Database(codec, store);
    views, obs := [], [];
    assert schedule[..0] == [];
    for n := 0 to |schedule|
      invariant fresh(db) && db.codec == codec
      invariant forall v | v in views :: fresh(v)
      invariant Represents(db, views, Run(codec, store, schedule[..n]).0)
      invariant obs == Run(codec, store, schedule[..n]).1
    {
      assert schedule[..n + 1][..n] == schedule[..n];
      RunSound(codec, store, schedule[..n]);
      assert schedule[n] in schedule;
      var o;
      views, o := Perform(db, views, schedule[n], Run(codec, store, schedule[..n]).0);
      obs := obs + [o];
    }
    assert schedule[..|schedule|] == schedule;
  }
}
