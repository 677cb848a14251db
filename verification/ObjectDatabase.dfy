/** The database that keeps deltas. */
module ObjectDatabase {
  // Per-version deltas, one tail value per touched key, the latest store and a cache of parsed values.
  // Every method keeps Valid(), which ties these to the ghost history.
  import opened Options
  import opened Snapshots

  /** A stored JSON value (None when the key is absent) and, if some view has parsed it, the result. */
  datatype Entry = Entry(json: Option<Json>, parsed: Option<Value>)

  ghost predicate Coherent(c: Codec, k: Key, e: Entry) {
    e.json.Some? && e.parsed.Some? ==> e.parsed.value == c.decode(k, e.json.value)
  }

  /** `e` is right for `k` in the state `s`. */
  ghost predicate EntryOk(c: Codec, s: map<Key, Json>, k: Key, e: Entry) {
    e.json == Lookup(s, k) && Coherent(c, k, e)
  }

  function Filed(objects: map<(Key, nat), Entry>, k: Key, v: nat): Option<Entry> {
    if (k, v) in objects then Some(objects[(k, v)]) else None
  }

  /** The store after a set of entries is written; an entry without JSON removes its key. */
  function Put(s: map<Key, Json>, w: map<Key, Entry>): map<Key, Json> {
    map k | k in s.Keys + w.Keys && (k in w ==> w[k].json.Some?) :: if k in w then w[k].json.value else s[k]
  }

  /** `touched[v]` holds every key whose value commit `v` may have changed. */
  ghost predicate Deltas(history: seq<map<Key, Json>>, touched: seq<set<Key>>) {
    && |touched| == |history| > 0
    && forall v, k | 0 < v < |history| && k !in touched[v] :: SameAsBefore(history, v, k)
  }

  ghost predicate SameAsBefore(history: seq<map<Key, Json>>, v: nat, k: Key)
    requires 0 < v < |history|
  {
    Lookup(history[v], k) == Lookup(history[v - 1], k)
  }

  lemma {:induction false} Untouched(history: seq<map<Key, Json>>, touched: seq<set<Key>>, k: Key, a: nat, b: nat)
    requires Deltas(history, touched) && a <= b < |history|
    requires forall v | a < v <= b :: k !in touched[v]
    ensures Lookup(history[a], k) == Lookup(history[b], k)
  {
    if a < b {
      Untouched(history, touched, k, a, b - 1);
      assert SameAsBefore(history, b, k);
    }
  }

  ghost predicate Increasing(s: seq<nat>) {
    forall i, j | 0 <= i < j < |s| :: s[i] < s[j]
  }

  /** The largest version in `s` that is no later than `tid`. */
  function Best(s: seq<nat>, tid: nat): Option<nat> {
    if s == [] then None
    else if s[|s| - 1] <= tid then Some(s[|s| - 1])
    else Best(s[..|s| - 1], tid)
  }

  lemma {:induction false} BestIsLatest(s: seq<nat>, tid: nat)
    requires Increasing(s)
    ensures Best(s, tid).None? ==> forall v | v in s :: tid < v
    ensures Best(s, tid).Some? ==>
              var b := Best(s, tid).value; b in s && b <= tid && forall v | v in s && v <= tid :: v <= b
  {
    if s != [] && s[|s| - 1] > tid {
      BestIsLatest(s[..|s| - 1], tid);
      assert s == s[..|s| - 1] + [s[|s| - 1]];
    }
  }

  /**
   What is kept for key `k` when states from `lo` on are served: the versions that touched it
   after `lo`, each with its entry, and the value it had at `lo`.
   */
  ghost predicate KeyKept(c: Codec, history: seq<map<Key, Json>>, touched: seq<set<Key>>, lo: nat, k: Key,
                          keyVersions: map<Key, seq<nat>>, objects: map<(Key, nat), Entry>, tail: map<Key, Entry>)
    requires lo < |history| == |touched|
  {
    if k !in keyVersions then
      k !in tail && forall v | lo < v < |touched| :: k !in touched[v]
    else
      && keyVersions[k] != []
      && Increasing(keyVersions[k])
      && (forall v: nat :: v in keyVersions[k] <==> lo < v < |touched| && k in touched[v])
      && k in tail && EntryOk(c, history[lo], k, tail[k])
      && (forall v: nat | v in keyVersions[k] ::
            Filed(objects, k, v).Some? && EntryOk(c, history[v], k, Filed(objects, k, v).value))
  }

  ghost predicate AllKept(c: Codec, history: seq<map<Key, Json>>, touched: seq<set<Key>>, lo: nat,
                          keyVersions: map<Key, seq<nat>>, objects: map<(Key, nat), Entry>, tail: map<Key, Entry>)
    requires lo < |history| == |touched|
  {
    forall k :: KeyKept(c, history, touched, lo, k, keyVersions, objects, tail)
  }

  /** Nothing is filed any more under this version of these keys. */
  function Unfiled(objects: map<(Key, nat), Entry>, v: nat, keys: set<Key>): map<(Key, nat), Entry> {
    map x | x in objects && !(x.1 == v && x.0 in keys) :: objects[x]
  }

  lemma UnfiledOne(objects: map<(Key, nat), Entry>, v: nat, keys: set<Key>, k: Key)
    ensures Unfiled(objects, v, keys + {k}) == Unfiled(objects, v, keys) - {(k, v)}
  {
  }

  /** For the latest state alone, no versions and no tail are needed, whatever entries are left. */
  lemma NothingToKeep(c: Codec, history: seq<map<Key, Json>>, touched: seq<set<Key>>, lo: nat, objects: map<(Key, nat), Entry>)
    requires lo < |history| == |touched| == lo + 1
    ensures AllKept(c, history, touched, lo, map[], objects, map[])
  {
    forall k ensures KeyKept(c, history, touched, lo, k, map[], objects, map[]) {
    }
  }

  /** What a view of state `tid` is served for `k`. */
  function EntryAt(k: Key, tid: nat, kv: map<Key, Json>, cache: map<Key, Value>, keyVersions: map<Key, seq<nat>>,
                   objects: map<(Key, nat), Entry>, tail: map<Key, Entry>): Entry
  {
    if k !in keyVersions then
      GetOr(Lookup(tail, k), Entry(Lookup(kv, k), Lookup(cache, k)))
    else match Best(keyVersions[k], tid)
      case Some(v) => GetOr(Filed(objects, k, v), Entry(None, None))
      case None => GetOr(Lookup(tail, k), Entry(None, None))
  }

  function GetOr(e: Option<Entry>, default: Entry): Entry {
    match e case Some(x) => x case None => default
  }

  /** The entry served for a state still kept is that state's value, with the right parse beside it. */
  lemma ServedEntry(c: Codec, history: seq<map<Key, Json>>, touched: seq<set<Key>>, lo: nat, k: Key, tid: nat,
                    cache: map<Key, Value>, keyVersions: map<Key, seq<nat>>, objects: map<(Key, nat), Entry>,
                    tail: map<Key, Entry>)
    requires Deltas(history, touched) && lo <= tid < |history|
    requires KeyKept(c, history, touched, lo, k, keyVersions, objects, tail)
    requires var kv := history[|history| - 1]; Coherent(c, k, Entry(Lookup(kv, k), Lookup(cache, k)))
    ensures var e := EntryAt(k, tid, history[|history| - 1], cache, keyVersions, objects, tail);
            e.json == Lookup(history[tid], k) && Coherent(c, k, e)
    ensures k in keyVersions ==>
              match Best(keyVersions[k], tid) case Some(v) => (k, v) in objects case None => k in tail
  {
    if k !in keyVersions {
      Untouched(history, touched, k, tid, |history| - 1);
    } else {
      BestIsLatest(keyVersions[k], tid);
      match Best(keyVersions[k], tid)
      case Some(v) => Untouched(history, touched, k, v, tid);
      case None => Untouched(history, touched, k, lo, tid);
    }
  }

  /** Dropping version `lo + 1` does not concern a key it did not touch. */
  lemma SkipVersion(c: Codec, history: seq<map<Key, Json>>, touched: seq<set<Key>>, lo: nat, k: Key,
                    keyVersions: map<Key, seq<nat>>, objects: map<(Key, nat), Entry>, tail: map<Key, Entry>)
    requires Deltas(history, touched) && lo + 1 < |history| && k !in touched[lo + 1]
    requires KeyKept(c, history, touched, lo, k, keyVersions, objects, tail)
    ensures KeyKept(c, history, touched, lo + 1, k, keyVersions, objects, tail)
  {
    Untouched(history, touched, k, lo, lo + 1);
  }

  /** A key's versions start with the lowest one, if that one touched it. */
  lemma LowestComesFirst(c: Codec, history: seq<map<Key, Json>>, touched: seq<set<Key>>, lo: nat, k: Key,
                         keyVersions: map<Key, seq<nat>>, objects: map<(Key, nat), Entry>, tail: map<Key, Entry>)
    requires lo + 1 < |history| == |touched| && k in touched[lo + 1]
    requires KeyKept(c, history, touched, lo, k, keyVersions, objects, tail)
    ensures k in keyVersions && keyVersions[k][0] == lo + 1
    ensures forall v: nat :: v in keyVersions[k][1..] <==> v in keyVersions[k] && v != lo + 1
  {
    var s := keyVersions[k];
    assert s[0] in s && lo + 1 in s;
    assert s == [s[0]] + s[1..];
    assert forall v: nat | v in s[1..] :: s[0] < v;
  }

  /** The first entry becomes the tail value, if there are more. */
  lemma NextIsKept(c: Codec, history: seq<map<Key, Json>>, touched: seq<set<Key>>, lo: nat, k: Key,
                   keyVersions: map<Key, seq<nat>>, objects: map<(Key, nat), Entry>, tail: map<Key, Entry>)
    requires lo + 1 < |history| == |touched| && k in touched[lo + 1]
    requires KeyKept(c, history, touched, lo, k, keyVersions, objects, tail) && |keyVersions[k]| > 1
    ensures (k, lo + 1) in objects
    ensures KeyKept(c, history, touched, lo + 1, k, keyVersions[k := keyVersions[k][1..]], objects - {(k, lo + 1)},
                    tail[k := objects[(k, lo + 1)]])
  {
    LowestComesFirst(c, history, touched, lo, k, keyVersions, objects, tail);
    var rest := keyVersions[k][1..];
    assert keyVersions[k][0] in keyVersions[k] && Increasing(rest) && forall v: nat | v in rest :: v != lo + 1;
  }

  /** A key is kept as long as nothing filed under it changes. */
  lemma SameFiles(c: Codec, history: seq<map<Key, Json>>, touched: seq<set<Key>>, lo: nat, k: Key,
                  keyVersions: map<Key, seq<nat>>, objects: map<(Key, nat), Entry>, tail: map<Key, Entry>,
                  keyVersions': map<Key, seq<nat>>, objects': map<(Key, nat), Entry>, tail': map<Key, Entry>)
    requires lo < |history| == |touched|
    requires KeyKept(c, history, touched, lo, k, keyVersions, objects, tail)
    requires Lookup(keyVersions', k) == Lookup(keyVersions, k) && Lookup(tail', k) == Lookup(tail, k)
    requires forall v: nat :: Filed(objects', k, v) == Filed(objects, k, v)
    ensures KeyKept(c, history, touched, lo, k, keyVersions', objects', tail')
  {
  }

  /** A commit that leaves `k` alone. */
  lemma CommitSkips(c: Codec, history: seq<map<Key, Json>>, touched: seq<set<Key>>, lo: nat, k: Key,
                    keyVersions: map<Key, seq<nat>>, objects: map<(Key, nat), Entry>, tail: map<Key, Entry>,
                    next: map<Key, Json>, keys: set<Key>)
    requires lo < |history| == |touched| && k !in keys
    requires KeyKept(c, history, touched, lo, k, keyVersions, objects, tail)
    ensures KeyKept(c, history + [next], touched + [keys], lo, k, keyVersions, objects, tail)
  {
    var t := touched + [keys];
    assert forall v: nat :: lo < v < |t| && k in t[v] <==> lo < v < |touched| && k in touched[v];
  }

  function VersionsOf(keyVersions: map<Key, seq<nat>>, k: Key): seq<nat> {
    if k in keyVersions then keyVersions[k] else []
  }

  /** A commit that writes `k`: its old value is in the tail, its new one is the latest version. */
  lemma CommitKeeps(c: Codec, history: seq<map<Key, Json>>, touched: seq<set<Key>>, lo: nat, k: Key,
                    keyVersions: map<Key, seq<nat>>, objects: map<(Key, nat), Entry>, tail: map<Key, Entry>,
                    next: map<Key, Json>, keys: set<Key>,
                    keyVersions': map<Key, seq<nat>>, objects': map<(Key, nat), Entry>, tail': map<Key, Entry>, before: Entry, e: Entry)
    requires Deltas(history, touched) && lo < |history| && k in keys
    requires KeyKept(c, history, touched, lo, k, keyVersions, objects, tail)
    requires EntryOk(c, history[|history| - 1], k, before) && EntryOk(c, next, k, e)
    requires Lookup(tail', k) == if k in keyVersions then Lookup(tail, k) else Some(before)
    requires Lookup(keyVersions', k) == Some(VersionsOf(keyVersions, k) + [|history|])
    requires forall v: nat :: Filed(objects', k, v) == if v == |history| then Some(e) else Filed(objects, k, v)
    ensures KeyKept(c, history + [next], touched + [keys], lo, k, keyVersions', objects', tail')
  {
    var n, t, h := |history|, touched + [keys], history + [next];
    var s := VersionsOf(keyVersions, k);
    if k !in keyVersions {
      Untouched(history, touched, k, lo, n - 1);
    }
    assert forall v | v in s :: v < n;
    ExtendIncreasing(s, n);
    forall v: nat ensures v in s + [n] <==> lo < v < |t| && k in t[v] {
      assert v in s + [n] <==> v in s || v == n;
      assert v < n ==> t[v] == touched[v];
    }
    forall v: nat | v in s + [n]
      ensures Filed(objects', k, v).Some? && EntryOk(c, h[v], k, Filed(objects', k, v).value)
    {
      if v < n { assert h[v] == history[v] && v in s; }
    }
  }

  lemma ExtendIncreasing(s: seq<nat>, n: nat)
    requires Increasing(s) && forall v | v in s :: v < n
    ensures Increasing(s + [n])
  {
    forall i, j | 0 <= i < j < |s + [n]| ensures (s + [n])[i] < (s + [n])[j] {
      assert s[i] in s;
    }
  }

  /** What a commit of `writes` must leave for everything to be kept. */
  lemma CommitKept(c: Codec, history: seq<map<Key, Json>>, touched: seq<set<Key>>, lo: nat, cache: map<Key, Value>,
                   keyVersions: map<Key, seq<nat>>, objects: map<(Key, nat), Entry>, tail: map<Key, Entry>,
                   writes: map<Key, Entry>,
                   keyVersions': map<Key, seq<nat>>, objects': map<(Key, nat), Entry>, tail': map<Key, Entry>)
    requires Deltas(history, touched) && lo < |history|
    requires AllKept(c, history, touched, lo, keyVersions, objects, tail)
    requires forall k :: Coherent(c, k, Entry(Lookup(history[|history| - 1], k), Lookup(cache, k)))
    requires forall k | k in writes :: Coherent(c, k, writes[k])
    requires forall k :: Lookup(tail', k) ==
               if k in writes && k !in keyVersions
               then Some(Entry(Lookup(history[|history| - 1], k), Lookup(cache, k))) else Lookup(tail, k)
    requires forall k :: Lookup(keyVersions', k) ==
               if k in writes then Some(VersionsOf(keyVersions, k) + [|history|]) else Lookup(keyVersions, k)
    requires forall k, v: nat :: Filed(objects', k, v) ==
               if k in writes && v == |history| then Some(writes[k]) else Filed(objects, k, v)
    ensures Deltas(history + [Put(history[|history| - 1], writes)], touched + [writes.Keys])
    ensures AllKept(c, history + [Put(history[|history| - 1], writes)], touched + [writes.Keys], lo, keyVersions', objects', tail')
  {
    var next := Put(history[|history| - 1], writes);
    var h, t := history + [next], touched + [writes.Keys];
    forall v, k | 0 < v < |h| && k !in t[v] ensures SameAsBefore(h, v, k) {
      if v < |history| { assert SameAsBefore(history, v, k); }
    }
    forall k ensures KeyKept(c, h, t, lo, k, keyVersions', objects', tail') {
      assert KeyKept(c, history, touched, lo, k, keyVersions, objects, tail);
      if k in writes {
        CommitKeeps(c, history, touched, lo, k, keyVersions, objects, tail, next, writes.Keys, keyVersions', objects', tail',
                    Entry(Lookup(history[|history| - 1], k), Lookup(cache, k)), writes[k]);
      } else {
        CommitSkips(c, history, touched, lo, k, keyVersions, objects, tail, next, writes.Keys);
        SameFiles(c, h, t, lo, k, keyVersions, objects, tail, keyVersions', objects', tail');
      }
    }
  }

  lemma FileOne(objects: map<(Key, nat), Entry>, objects': map<(Key, nat), Entry>, key: Key, v: nat, e: Entry)
    requires objects' == objects[(key, v) := e]
    ensures forall k, u: nat :: (Filed(objects', k, u) == if k == key && u == v then Some(e) else Filed(objects, k, u))
  {
    forall k, u: nat
      ensures Filed(objects', k, u) == if k == key && u == v then Some(e) else Filed(objects, k, u)
    {
      FileOneAt(objects, key, v, e, k, u);
    }
  }

  lemma FileOneAt(objects: map<(Key, nat), Entry>, key: Key, v: nat, e: Entry, k: Key, u: nat)
    ensures Filed(objects[(key, v) := e], k, u) == if k == key && u == v then Some(e) else Filed(objects, k, u)
  {
    assert (k, u) == (key, v) <==> k == key && u == v;
  }

  /** New parses beside the same JSON, filed under one key only, keep everything in order. */
  lemma RefiledKept(c: Codec, history: seq<map<Key, Json>>, touched: seq<set<Key>>, lo: nat, k: Key,
                    keyVersions: map<Key, seq<nat>>, objects: map<(Key, nat), Entry>, tail: map<Key, Entry>,
                    objects': map<(Key, nat), Entry>, tail': map<Key, Entry>)
    requires lo < |history| == |touched| && k in keyVersions
    requires AllKept(c, history, touched, lo, keyVersions, objects, tail)
    requires Reparsed(c, k, Lookup(tail, k), Lookup(tail', k))
    requires forall v: nat :: Reparsed(c, k, Filed(objects, k, v), Filed(objects', k, v))
    requires forall k' | k' != k :: Lookup(tail', k') == Lookup(tail, k')
    requires forall k', v: nat | k' != k :: Filed(objects', k', v) == Filed(objects, k', v)
    ensures AllKept(c, history, touched, lo, keyVersions, objects', tail')
  {
    forall k' ensures KeyKept(c, history, touched, lo, k', keyVersions, objects', tail') {
      assert KeyKept(c, history, touched, lo, k', keyVersions, objects, tail);
      if k' != k {
        SameFiles(c, history, touched, lo, k', keyVersions, objects, tail, keyVersions, objects', tail');
      } else {
        assert forall v: nat :: Reparsed(c, k, Filed(objects, k, v), Filed(objects', k, v));
      }
    }
  }

  ghost predicate Reparsed(c: Codec, k: Key, e: Option<Entry>, e': Option<Entry>) {
    e == e' || (e.Some? && e'.Some? && e.value.json == e'.value.json && Coherent(c, k, e'.value))
  }

  class Database {
    const codec: Codec
    /** the key-value store */
    var kv: map<Key, Json>
    var cur: nat
    /** oldest state still served: the one the tail values belong to */
    var min: nat
    /** for each state, how many views refer to it, and the smallest such state */
    var counts: map<nat, nat>
    var minReffed: Option<nat>
    /** the versions still kept, oldest first, and the keys each of them set */
    var versions: seq<nat>
    var versionObjects: map<nat, set<Key>>
    var keyVersions: map<Key, seq<nat>>
    var objects: map<(Key, nat), Entry>
    var tail: map<Key, Entry>
    var cache: map<Key, Value>
    /** every committed state, and the keys that each commit set */
    ghost var history: seq<map<Key, Json>>
    ghost var touched: seq<set<Key>>

    ghost predicate Kept(lo: nat)
      reads this
      requires lo < |history| == |touched|
    {
      AllKept(codec, history, touched, lo, keyVersions, objects, tail)
    }

    ghost predicate CountsOk()
      reads this
    {
      && (forall t: nat | t in counts :: counts[t] > 0 && min <= t <= cur)
      && (minReffed.None? <==> counts == map[])
      && (minReffed.Some? ==> IsLeast(counts.Keys, minReffed.value))
    }

    ghost predicate VersionsOk()
      reads this
    {
      VersionsFrom(min)
    }

    /** The versions after this state are told apart. */
    ghost predicate VersionsFrom(lo: nat)
      reads this
    {
      && lo <= cur
      && |versions| == cur - lo
      && (forall i | 0 <= i < |versions| :: versions[i] == lo + 1 + i)
      && |touched| == cur + 1
      && (forall v: nat | lo < v <= cur :: v in versionObjects && versionObjects[v] == touched[v])
    }

    ghost predicate CacheOk()
      reads this
    {
      forall k :: Coherent(codec, k, Entry(Lookup(kv, k), Lookup(cache, k)))
    }

    ghost predicate Valid()
      reads this
    {
      && Deltas(history, touched)
      && |history| == cur + 1 && history[cur] == kv
      && VersionsOk()
      && CountsOk()
      && CacheOk()
      && Kept(min)
    }

    function Serves(k: Key, tid: nat): Entry
      reads this
    {
      EntryAt(k, tid, kv, cache, keyVersions, objects, tail)
    }

    constructor (codec: Codec, store: map<Key, Json>)
      ensures Valid() && this.codec == codec && history == [store] && counts == map[] && min == 0
    {
      this.codec := codec;
      kv, cur, min, counts, minReffed := store, 0, 0, map[], None;
      versions, versionObjects, keyVersions, objects, tail, cache := [], map[], map[], map[], map[], map[];
      history, touched := [store], [{}];
    }

    /** Only the cached parses are forgotten. */
    method ClearCache()
      requires Valid()
      modifies this`cache
      ensures Valid() && cache == map[]
    {
      cache := map[];
    }

    method IncVersion(tid: nat)
      requires Valid() && min <= tid <= cur
      modifies this`counts, this`minReffed
      ensures Valid() && counts == Acquire(old(counts), tid)
    {
      if tid !in counts {
        counts := counts[tid := 1];
        if minReffed.None? {
          minReffed := Some(tid);
        } else {
          minReffed := Some(if tid < minReffed.value then tid else minReffed.value);
        }
      } else {
        counts := counts[tid := counts[tid] + 1];
      }
    }

    method DecVersion(tid: nat)
      requires Valid() && tid in counts
      modifies this`counts, this`minReffed
      ensures Valid() && counts == Release(old(counts), tid)
    {
      counts := counts[tid := counts[tid] - 1];
      if counts[tid] == 0 {
        counts := counts - {tid};
        assert counts == Release(old(counts), tid);
        if minReffed == Some(tid) {
          if counts == map[] {
            minReffed := None;
          } else {
            var m := MinOf(counts.Keys);
            minReffed := Some(m);
          }
        } else {
          assert minReffed.value in counts;
        }
      } else {
        assert counts.Keys == old(counts).Keys;
      }
    }

    method ReleaseView(tid: nat)
      requires Valid() && tid in counts
      modifies this`counts, this`minReffed, this`min, this`versions, this`versionObjects,
               this`keyVersions, this`objects, this`tail
      ensures Valid()
      ensures counts == Release(old(counts), tid) && min == Collect(counts, old(min))
    {
      DecVersion(tid);
      Cleanup();
    }

    /** Gives up the states older than every reference; with no reference at all it gives up none. */
    method Cleanup()
      requires Valid()
      modifies this`min, this`versions, this`versionObjects, this`keyVersions, this`objects, this`tail
      ensures Valid() && min == Collect(counts, old(min))
    {
      while true
        invariant Valid()
        invariant minReffed.None? ==> min == old(min)
        invariant minReffed.Some? ==> min <= minReffed.value <= cur
        decreases cur - min
      {
        if versions == [] {
          return;
        }
        if minReffed.None? || minReffed.value < versions[0] {
          return;
        }
        PopVersion();
      }
    }

    /** One round of the clean-up: the oldest version is no longer told apart from its successor. */
    method PopVersion()
      requires Valid() && versions != [] && minReffed.Some? && versions[0] <= minReffed.value
      modifies this`min, this`versions, this`versionObjects, this`keyVersions, this`objects, this`tail
      ensures Valid() && min == old(min) + 1
      ensures versions == old(versions)[1..] && versionObjects == old(versionObjects) - {old(versions)[0]}
      ensures objects == if |old(versions)| == 1 then old(objects) else Unfiled(old(objects), old(versions)[0], old(touched)[old(versions)[0]])
    {
      var lowest, keysTouched := TakeLowest();
      if versions == [] {
        DropAll();
        min := cur;
      } else {
        DropLowest(lowest, keysTouched);
        min := lowest;
      }
    }

    method TakeLowest() returns (lowest: nat, keysTouched: set<Key>)
      requires VersionsFrom(min) && versions != []
      modifies this`versions, this`versionObjects
      ensures VersionsFrom(min + 1) && lowest == min + 1 && keysTouched == touched[lowest]
      ensures lowest == old(versions)[0] && versions == old(versions)[1..] && versionObjects == old(versionObjects) - {lowest}
    {
      lowest := versions[0];
      versions := versions[1..];
      keysTouched := versionObjects[lowest];
      versionObjects := versionObjects - {lowest};
    }

    /** Only the latest state is left, which needs no versions. */
    method DropAll()
      requires cur < |history| == |touched| == cur + 1
      modifies this`keyVersions, this`tail
      ensures Kept(cur)
    {
      keyVersions := map[];
      tail := map[];
      NothingToKeep(codec, history, touched, cur, objects);
    }

    /** Version `lowest` becomes the value that every older view of its keys is served. */
    method DropLowest(lowest: nat, keysTouched: set<Key>)
      requires Deltas(history, touched) && 0 < lowest < |history| && touched[lowest] == keysTouched
      requires Kept(lowest - 1)
      modifies this`keyVersions, this`objects, this`tail
      ensures Kept(lowest) && objects == Unfiled(old(objects), lowest, keysTouched)
    {
      var todo := keysTouched;
      forall k | k !in todo ensures KeyKept(codec, history, touched, lowest, k, keyVersions, objects, tail) {
        SkipVersion(codec, history, touched, lowest - 1, k, keyVersions, objects, tail);
      }
      while todo != {}
        invariant todo <= keysTouched && objects == Unfiled(old(objects), lowest, keysTouched - todo)
        invariant forall k | k in todo :: KeyKept(codec, history, touched, lowest - 1, k, keyVersions, objects, tail)
        invariant forall k | k !in todo :: KeyKept(codec, history, touched, lowest, k, keyVersions, objects, tail)
      {
        var key :| key in todo;
        ghost var kvs, objs, tl := keyVersions, objects, tail;
        DropLowestFor(lowest, key);
        todo := todo - {key};
        UnfiledOne(old(objects), lowest, keysTouched - todo - {key}, key);
        assert keysTouched - todo - {key} + {key} == keysTouched - todo;
        forall k | k in todo ensures KeyKept(codec, history, touched, lowest - 1, k, keyVersions, objects, tail) {
          SameFiles(codec, history, touched, lowest - 1, k, kvs, objs, tl, keyVersions, objects, tail);
        }
        forall k | k !in todo ensures KeyKept(codec, history, touched, lowest, k, keyVersions, objects, tail) {
          if k != key {
            SameFiles(codec, history, touched, lowest, k, kvs, objs, tl, keyVersions, objects, tail);
          }
        }
      }
    }

    method DropLowestFor(lowest: nat, key: Key)
      requires Deltas(history, touched) && 0 < lowest < |history| && key in touched[lowest]
      requires KeyKept(codec, history, touched, lowest - 1, key, keyVersions, objects, tail)
      modifies this`keyVersions, this`objects, this`tail
      ensures KeyKept(codec, history, touched, lowest, key, keyVersions, objects, tail)
      ensures forall k | k != key ::
                Lookup(keyVersions, k) == Lookup(old(keyVersions), k) && Lookup(tail, k) == Lookup(old(tail), k)
      ensures forall k, v: nat | k != key :: Filed(objects, k, v) == Filed(old(objects), k, v)
      ensures objects == old(objects) - {(key, lowest)}
    {
      LowestComesFirst(codec, history, touched, lowest - 1, key, keyVersions, objects, tail);
      assert keyVersions[key][0] == lowest;
      if |keyVersions[key]| == 1 {
        assert forall v: nat | lowest < v < |touched| :: key !in touched[v] by {
          assert forall v: nat | v in keyVersions[key] :: v == lowest;
        }
        keyVersions := keyVersions - {key};
        objects := objects - {(key, lowest)};
        tail := tail - {key};
      } else {
        NextIsKept(codec, history, touched, lowest - 1, key, keyVersions, objects, tail);
        keyVersions := keyVersions[key := keyVersions[key][1..]];
        tail := tail[key := objects[(key, lowest)]];
        objects := objects - {(key, lowest)};
      }
    }

    method BestVersionFor(tid: nat, transactions: seq<nat>) returns (v: Option<nat>)
      ensures v == Best(transactions, tid)
    {
      var i := |transactions| - 1;
      assert transactions[..|transactions|] == transactions;
      while i >= 0
        invariant -1 <= i < |transactions|
        invariant Best(transactions, tid) == Best(transactions[..i + 1], tid)
      {
        assert transactions[..i + 1][..i] == transactions[..i];
        if transactions[i] <= tid {
          return Some(transactions[i]);
        }
        i := i - 1;
      }
      return None;
    }

    /** The read under the lock: the value state `tid` had, and its parse if one is filed there. */
    method GetVersioned(k: Key, tid: nat) returns (e: Entry)
      requires Valid() && min <= tid <= cur
      ensures e == Serves(k, tid)
      ensures e.json == Lookup(history[tid], k) && Coherent(codec, k, e)
    {
      ServedEntry(codec, history, touched, min, k, tid, cache, keyVersions, objects, tail);
      if k !in keyVersions {
        if k in tail {
          assert false;
        }
        return Entry(Lookup(kv, k), Lookup(cache, k));
      }
      var version := BestVersionFor(tid, keyVersions[k]);
      if version.Some? {
        return objects[(k, version.value)];
      } else {
        return tail[k];
      }
    }

    /**
     The late fill: whatever happened since the JSON was read, the parse lands in the slot that
     state `tid` is served from, and nothing else that any view is served changes.
     */
    method UpdateCache(k: Key, tid: nat, parsed: Value)
      requires Valid() && min <= tid <= cur
      requires k in history[tid] && parsed == codec.decode(k, history[tid][k])
      modifies this`objects, this`tail, this`cache
      ensures Valid()
      ensures Serves(k, tid) == Entry(old(Serves(k, tid)).json, Some(parsed))
      ensures forall k', t: nat | k' != k :: Serves(k', t) == old(Serves(k', t))
      ensures forall t: nat | min <= t <= cur :: Serves(k, t).json == old(Serves(k, t)).json
    {
      ServesState(k);
      assert KeyKept(codec, history, touched, min, k, keyVersions, objects, tail);
      if k !in keyVersions {
        if k in tail {
          assert false;
        } else {
          cache := cache[k := parsed];
        }
      } else {
        FillVersioned(k, tid, parsed);
      }
      ServesState(k);
    }

    method FillVersioned(k: Key, tid: nat, parsed: Value)
      requires min < |history| == |touched| && AllKept(codec, history, touched, min, keyVersions, objects, tail) && k in keyVersions
      requires Serves(k, tid).json.Some? && parsed == codec.decode(k, Serves(k, tid).json.value)
      requires match Best(keyVersions[k], tid) case Some(v) => (k, v) in objects case None => k in tail
      modifies this`objects, this`tail
      ensures AllKept(codec, history, touched, min, keyVersions, objects, tail)
      ensures Serves(k, tid) == Entry(old(Serves(k, tid)).json, Some(parsed))
      ensures forall k' | k' != k :: Lookup(tail, k') == Lookup(old(tail), k')
      ensures forall k', v: nat | k' != k :: Filed(objects, k', v) == Filed(old(objects), k', v)
    {
      var version := BestVersionFor(tid, keyVersions[k]);
      if version.Some? {
        var refiled := Entry(objects[(k, version.value)].json, Some(parsed));
        objects := objects[(k, version.value) := refiled];
        FileOne(old(objects), objects, k, version.value, refiled);
      } else {
        tail := tail[k := Entry(tail[k].json, Some(parsed))];
      }
      RefiledKept(codec, history, touched, min, k, keyVersions, old(objects), old(tail), objects, tail);
    }

    /** Every state still kept is served as it was committed. */
    lemma ServesState(k: Key)
      requires Valid()
      ensures forall t: nat | min <= t <= cur ::
                && Serves(k, t).json == Lookup(history[t], k)
                && Coherent(codec, k, Serves(k, t))
                && (k in keyVersions ==>
                      match Best(keyVersions[k], t) case Some(v) => (k, v) in objects case None => k in tail)
    {
      forall t: nat | min <= t <= cur
        ensures && Serves(k, t).json == Lookup(history[t], k)
                && Coherent(codec, k, Serves(k, t))
                && (k in keyVersions ==>
                      match Best(keyVersions[k], t) case Some(v) => (k, v) in objects case None => k in tail)
      {
        ServedEntry(codec, history, touched, min, k, t, cache, keyVersions, objects, tail);
      }
    }

    /** Commits `writes` on top of state `tid`, or refuses and changes nothing when that is no longer the latest. */
    method SetVersioned(writes: map<Key, Entry>, tid: nat) returns (ok: bool)
      requires Valid()
      requires forall k | k in writes :: Coherent(codec, k, writes[k])
      modifies this`kv, this`cur, this`versions, this`versionObjects, this`keyVersions, this`objects,
               this`tail, this`cache, this`history, this`touched
      ensures Valid()
      ensures ok <==> tid == old(cur)
      ensures ok ==> history == old(history) + [Put(old(kv), writes)]
      ensures !ok ==> unchanged(this)
    {
      if tid != cur {
        return false;
      }
      cur := cur + 1;
      StoreWrites(writes, tid + 1);
      assert VersionsOk();
      assert CountsOk();
      return true;
    }

    /** Puts the writes into the store and files them as version v, the old values staying in the tail. */
    method StoreWrites(writes: map<Key, Entry>, v: nat)
      requires Deltas(history, touched) && 0 < |history| == |touched| && v == |history| && history[v - 1] == kv
      requires CacheOk() && min < v && Kept(min)
      requires forall k | k in writes :: Coherent(codec, k, writes[k])
      modifies this`kv, this`versions, this`versionObjects, this`keyVersions, this`objects, this`tail, this`cache,
               this`history, this`touched
      ensures kv == Put(old(kv), writes) && history == old(history) + [kv] && touched == old(touched) + [writes.Keys]
      ensures versionObjects == old(versionObjects)[v := writes.Keys] && versions == old(versions) + [v]
      ensures Deltas(history, touched) && Kept(min) && CacheOk()
    {
      WriteThrough(writes);
      RecordVersions(writes, v);
      history := history + [kv];
      touched := touched + [writes.Keys];
      CommitKept(codec, old(history), old(touched), min, old(cache), old(keyVersions), old(objects), old(tail), writes,
                 keyVersions, objects, tail);
    }

    method WriteThrough(writes: map<Key, Entry>)
      modifies this`tail, this`kv, this`cache
      ensures forall k :: Lookup(tail, k) ==
                if k in writes && k !in keyVersions then Some(Entry(Lookup(old(kv), k), Lookup(old(cache), k)))
                else Lookup(old(tail), k)
      ensures kv == Put(old(kv), writes)
      ensures forall k :: Lookup(cache, k) == if k in writes then writes[k].parsed else Lookup(old(cache), k)
    {
      SaveTails(writes.Keys);
      WriteStore(writes);
      FillCache(writes);
    }

    /** Keeps the old value of every key that is not versioned already. */
    method SaveTails(keys: set<Key>)
      modifies this`tail
      ensures forall k :: Lookup(tail, k) ==
                if k in keys && k !in keyVersions then Some(Entry(Lookup(kv, k), Lookup(cache, k))) else Lookup(old(tail), k)
    {
      var todo := keys;
      while todo != {}
        invariant todo <= keys
        invariant forall k :: (Lookup(tail, k) ==
                               if k in keys && k !in todo && k !in keyVersions
                               then Some(Entry(Lookup(kv, k), Lookup(cache, k))) else Lookup(old(tail), k))
      {
        var key :| key in todo;
        todo := todo - {key};
        if key !in keyVersions {
          tail := tail[key := Entry(Lookup(kv, key), Lookup(cache, key))];
        }
      }
    }

    /** The store's setSeveral: a value of None deletes the key. */
    method WriteStore(writes: map<Key, Entry>)
      modifies this`kv
      ensures kv == Put(old(kv), writes)
    {
      var todo := writes.Keys;
      while todo != {}
        invariant todo <= writes.Keys
        invariant forall k :: Lookup(kv, k) == if k in writes && k !in todo then writes[k].json else Lookup(old(kv), k)
      {
        var key :| key in todo;
        todo := todo - {key};
        if writes[key].json.None? {
          kv := kv - {key};
        } else {
          kv := kv[key := writes[key].json.value];
        }
      }
      var want := Put(old(kv), writes);
      forall k ensures Lookup(kv, k) == Lookup(want, k) {
      }
      SameLookups(kv, want);
    }

    method FillCache(writes: map<Key, Entry>)
      modifies this`cache
      ensures forall k :: Lookup(cache, k) == if k in writes then writes[k].parsed else Lookup(old(cache), k)
    {
      var todo := writes.Keys;
      while todo != {}
        invariant todo <= writes.Keys
        invariant forall k ::
          Lookup(cache, k) == if k in writes && k !in todo then writes[k].parsed else Lookup(old(cache), k)
      {
        var key :| key in todo;
        todo := todo - {key};
        if writes[key].parsed.None? {
          if key in cache {
            cache := cache - {key};
          }
        } else {
          cache := cache[key := writes[key].parsed.value];
        }
      }
    }

    method RecordVersions(writes: map<Key, Entry>, v: nat)
      modifies this`versionObjects, this`versions, this`keyVersions, this`objects
      ensures versionObjects == old(versionObjects)[v := writes.Keys] && versions == old(versions) + [v]
      ensures forall k :: Lookup(keyVersions, k) ==
                if k in writes then Some(VersionsOf(old(keyVersions), k) + [v]) else Lookup(old(keyVersions), k)
      ensures forall k, u: nat :: Filed(objects, k, u) ==
                if k in writes && u == v then Some(writes[k]) else Filed(old(objects), k, u)
    {
      versionObjects := versionObjects[v := writes.Keys];
      versions := versions + [v];
      var todo := writes.Keys;
      while todo != {}
        invariant todo <= writes.Keys
        invariant versionObjects == old(versionObjects)[v := writes.Keys] && versions == old(versions) + [v]
        invariant forall k :: (Lookup(keyVersions, k) ==
                               if k in writes && k !in todo then Some(VersionsOf(old(keyVersions), k) + [v])
                               else Lookup(old(keyVersions), k))
        invariant forall k, u: nat :: (Filed(objects, k, u) ==
                                       if k in writes && k !in todo && u == v then Some(writes[k])
                                       else Filed(old(objects), k, u))
      {
        var key :| key in todo;
        todo := todo - {key};
        if key !in keyVersions {
          keyVersions := keyVersions[key := []];
        }
        keyVersions := keyVersions[key := keyVersions[key] + [v]];
        ghost var before := objects;
        objects := objects[(key, v) := writes[key]];
        FileOne(before, objects, key, v, writes[key]);
      }
    }
  }

  lemma SameLookups(a: map<Key, Json>, b: map<Key, Json>)
    requires forall k :: Lookup(a, k) == Lookup(b, k)
    ensures a == b
  {
    forall k ensures k in a <==> k in b {
      assert Lookup(a, k) == Lookup(b, k);
    }
    forall k | k in a ensures a[k] == b[k] {
      assert Lookup(a, k) == Lookup(b, k);
    }
  }

  method MinOf(s: set<nat>) returns (m: nat)
    requires s != {}
    ensures IsLeast(s, m)
  {
    m :| m in s;
    var todo := s - {m};
    while todo != {}
      invariant todo <= s && m in s
      invariant forall x | x in s :: x in todo || m <= x
    {
      var x :| x in todo;
      todo := todo - {x};
      if x < m {
        m := x;
      }
    }
  }
}
