/** Secondary indices, kept up to date by every write of a view, against a scan of all objects. */
module Indices {
  import opened Options

  type Field(==, !new)
  /** A value that an index is keyed by. Index keys are built from hashes that are taken to be collision-free. */
  type IndexValue(==, !new)
  type FieldValue(==, !new)
  type Id = string
  type Record = map<Field, FieldValue>

  datatype Key =
    | FieldKey(typ: string, id: Id, field: Field)
    | ExistsKey(typ: string, id: Id)
    | ListKey(typ: string, index: string, value: IndexValue)

  datatype Stored = Value(v: FieldValue) | Ids(ids: seq<Id>) | True

  /** An index function reads nothing but the fields of its object. */
  datatype Index = Index(name: string, fun: Record -> Option<IndexValue>)

  datatype Schema = Schema(fields: map<string, set<Field>>, indices: map<string, seq<Index>>)

  ghost predicate WellFormed(schema: Schema) {
    forall t | t in schema.indices ::
      forall i, j | 0 <= i < j < |schema.indices[t]| :: schema.indices[t][i].name != schema.indices[t][j].name
  }

  function IndicesOf(schema: Schema, typ: string): seq<Index> {
    if typ in schema.indices then schema.indices[typ] else []
  }

  /** The snapshot as a view's pending writes change it; None deletes. */
  function Overlay(snapshot: map<Key, Stored>, writes: map<Key, Option<Stored>>): map<Key, Stored> {
    map k | k in snapshot.Keys + writes.Keys && (k in writes ==> writes[k].Some?) ::
      if k in writes then writes[k].value else snapshot[k]
  }

  predicate Exists(s: map<Key, Stored>, typ: string, id: Id) {
    ExistsKey(typ, id) in s
  }

  function RecordOf(schema: Schema, s: map<Key, Stored>, typ: string, id: Id): Record {
    if typ !in schema.fields then map[] else
    map f | f in schema.fields[typ] && FieldKey(typ, id, f) in s && s[FieldKey(typ, id, f)].Value? :: s[FieldKey(typ, id, f)].v
  }

  function Listed(s: map<Key, Stored>, typ: string, index: string, v: IndexValue): seq<Id> {
    var k := ListKey(typ, index, v);
    if k in s && s[k].Ids? then s[k].ids else []
  }

  ghost predicate Distinct(s: seq<Id>) {
    forall i, j | 0 <= i < j < |s| :: s[i] != s[j]
  }

  /** One list is a full scan: every existing object with that value, once, and nothing else. */
  ghost predicate ListOk(schema: Schema, s: map<Key, Stored>, typ: string, ix: Index, v: IndexValue) {
    && Distinct(Listed(s, typ, ix.name, v))
    && forall id :: id in Listed(s, typ, ix.name, v) <==> Exists(s, typ, id) && ix.fun(RecordOf(schema, s, typ, id)) == Some(v)
  }

  ghost predicate TypeOk(schema: Schema, s: map<Key, Stored>, typ: string) {
    forall ix, v | ix in IndicesOf(schema, typ) :: ListOk(schema, s, typ, ix, v)
  }

  ghost predicate IndicesOk(schema: Schema, s: map<Key, Stored>) {
    forall typ :: TypeOk(schema, s, typ)
  }

  function Without(s: seq<Id>, id: Id): seq<Id> {
    if s == [] then [] else (if s[0] == id then [] else [s[0]]) + Without(s[1..], id)
  }

  lemma {:induction false} WithoutMembers(s: seq<Id>, id: Id)
    ensures forall x :: x in Without(s, id) <==> x in s && x != id
    ensures Distinct(s) ==> Distinct(Without(s, id))
    ensures id !in s ==> Without(s, id) == s
  {
    if s != [] {
      WithoutMembers(s[1..], id);
      assert s == [s[0]] + s[1..];
      if Distinct(s) {
        assert Distinct(s[1..]) && s[0] !in s[1..];
      }
    }
  }

  /** The list of value `v` after an object whose index value was `before` has `after`. */
  function Moved(s: seq<Id>, id: Id, before: Option<IndexValue>, after: Option<IndexValue>, v: IndexValue): seq<Id> {
    if before == after then s
    else if before == Some(v) then Without(s, id)
    else if after == Some(v) then s + [id]
    else s
  }

  lemma MovedMembers(l: seq<Id>, id: Id, before: Option<IndexValue>, after: Option<IndexValue>, v: IndexValue)
    requires Distinct(l) && (id in l ==> before == Some(v))
    ensures var m := Moved(l, id, before, after, v);
      Distinct(m) && (forall x | x != id :: x in m <==> x in l) && (id in m <==> if before == after then id in l else after == Some(v))
  {
    WithoutMembers(l, id);
  }

  /** `t` is `s` with the object's fields or existence changed and every index list moved accordingly. */
  ghost predicate Reindexed(schema: Schema, s: map<Key, Stored>, t: map<Key, Stored>, typ: string, id: Id,
                            before: Record, after: Option<Record>) {
    && (forall typ', ix, v | ix in IndicesOf(schema, typ') ::
          Listed(t, typ', ix.name, v) ==
          if typ' == typ
          then Moved(Listed(s, typ, ix.name, v), id, ix.fun(before), if after.Some? then ix.fun(after.value) else None, v)
          else Listed(s, typ', ix.name, v))
    && (forall typ', id' | typ' != typ || id' != id ::
          (Exists(t, typ', id') <==> Exists(s, typ', id'))
          && RecordOf(schema, t, typ', id') == RecordOf(schema, s, typ', id'))
  }

  /**
   The object's value of an index changed from `before` to `after`. If it was listed under `before`
   exactly when it existed, the moved list is right for the new state exactly when the object,
   if it does not exist, is not put on any list.
   */
  lemma ListMoved(schema: Schema, s: map<Key, Stored>, t: map<Key, Stored>, typ: string, id: Id,
                  before: Record, after: Option<Record>, ix: Index, v: IndexValue)
    requires Reindexed(schema, s, t, typ, id, before, after) && ix in IndicesOf(schema, typ)
    requires ListOk(schema, s, typ, ix, v)
    requires before == RecordOf(schema, s, typ, id)
    requires after.Some? ==> after.value == RecordOf(schema, t, typ, id)
    requires Exists(t, typ, id) ==> after.Some? && Exists(s, typ, id)
    requires Exists(s, typ, id) && !Exists(t, typ, id) ==> after.None?
    ensures ListOk(schema, t, typ, ix, v) <==>
            (!Exists(t, typ, id) && after.Some? && ix.fun(after.value) == Some(v) ==> ix.fun(before) == Some(v))
  {
    var l, l' := Listed(s, typ, ix.name, v), Listed(t, typ, ix.name, v);
    assert id in l <==> Exists(s, typ, id) && ix.fun(before) == Some(v);
    MovedMembers(l, id, ix.fun(before), if after.Some? then ix.fun(after.value) else None, v);
    assert forall x | x != id :: x in l' <==> Exists(t, typ, x) && ix.fun(RecordOf(schema, t, typ, x)) == Some(v);
    if id in l' && !Exists(t, typ, id) {
      assert !ListOk(schema, t, typ, ix, v);
    }
  }

  ghost function Names(ixs: seq<Index>): set<string> {
    set ix | ix in ixs :: ix.name
  }

  ghost function NamesOf(schema: Schema, typ: string): set<string> {
    Names(IndicesOf(schema, typ))
  }

  lemma NextName(ixs: seq<Index>, i: nat)
    requires i < |ixs| && forall a, b | 0 <= a < b < |ixs| :: ixs[a].name != ixs[b].name
    ensures Names(ixs[..i + 1]) == Names(ixs[..i]) + {ixs[i].name} && ixs[i].name !in Names(ixs[..i])
  {
    assert ixs[..i + 1] == ixs[..i] + [ixs[i]];
  }

  function Get(vals: map<string, Option<IndexValue>>, name: string): Option<IndexValue> {
    if name in vals then vals[name] else None
  }

  /** Nothing but index lists differs. */
  ghost predicate SameObjects(s: map<Key, Stored>, t: map<Key, Stored>) {
    forall k: Key | !k.ListKey? :: (k in s <==> k in t) && (k in s ==> t[k] == s[k])
  }

  lemma SameObjectsSameRecords(schema: Schema, s: map<Key, Stored>, t: map<Key, Stored>)
    requires SameObjects(s, t)
    ensures forall typ, id :: Exists(t, typ, id) == Exists(s, typ, id) && RecordOf(schema, t, typ, id) == RecordOf(schema, s, typ, id)
  {
  }

  /** One list after an object with these fields was made. */
  function Appended(s: seq<Id>, id: Id, here: bool, value: Option<IndexValue>, v: IndexValue): seq<Id> {
    if here && value == Some(v) then s + [id] else s
  }

  lemma AppendDistinct(s: seq<Id>, id: Id)
    ensures Distinct(s + [id]) <==> Distinct(s) && id !in s
  {
    var t := s + [id];
    if Distinct(t) {
      assert forall i | 0 <= i < |s| :: s[i] == t[i] && t[i] != t[|s|];
    }
  }

  function At(s: map<Key, Stored>, k: Key): Option<Stored> {
    if k in s then Some(s[k]) else None
  }

  /** Nothing but what is stored of one object differs. */
  ghost predicate OnlyObject(s: map<Key, Stored>, t: map<Key, Stored>, typ: string, id: Id) {
    forall k: Key | k.ListKey? || k.typ != typ || k.id != id :: At(t, k) == At(s, k)
  }

  /** Index lists and all other objects are the same in `t` as in `s`. */
  ghost predicate OthersSame(schema: Schema, s: map<Key, Stored>, t: map<Key, Stored>, typ: string, id: Id) {
    && (forall typ', name, v :: Listed(t, typ', name, v) == Listed(s, typ', name, v))
    && (forall typ', id' | typ' != typ || id' != id ::
          (Exists(t, typ', id') <==> Exists(s, typ', id')) && RecordOf(schema, t, typ', id') == RecordOf(schema, s, typ', id'))
  }

  lemma OnlyObjectOthersSame(schema: Schema, s: map<Key, Stored>, t: map<Key, Stored>, typ: string, id: Id)
    requires OnlyObject(s, t, typ, id)
    ensures OthersSame(schema, s, t, typ, id)
  {
    forall typ', name, v ensures Listed(t, typ', name, v) == Listed(s, typ', name, v) {
      assert At(t, ListKey(typ', name, v)) == At(s, ListKey(typ', name, v));
    }
    forall typ', id' | typ' != typ || id' != id
      ensures (Exists(t, typ', id') <==> Exists(s, typ', id')) && RecordOf(schema, t, typ', id') == RecordOf(schema, s, typ', id')
    {
      assert At(t, ExistsKey(typ', id')) == At(s, ExistsKey(typ', id'));
      assert forall f :: At(t, FieldKey(typ', id', f)) == At(s, FieldKey(typ', id', f));
    }
  }

  /** A new object with these fields is on the list of each of its values, and nothing else has changed. */
  ghost predicate Entered(schema: Schema, s: map<Key, Stored>, t: map<Key, Stored>, typ: string, id: Id, fields: Record) {
    && Exists(t, typ, id) && RecordOf(schema, t, typ, id) == fields
    && (forall typ', ix, v | ix in IndicesOf(schema, typ') ::
          Listed(t, typ', ix.name, v) ==
          Appended(Listed(s, typ', ix.name, v), id, typ' == typ, ix.fun(fields), v))
    && (forall typ', id' | typ' != typ || id' != id ::
          (Exists(t, typ', id') <==> Exists(s, typ', id')) && RecordOf(schema, t, typ', id') == RecordOf(schema, s, typ', id'))
  }

  /** Adding an identity keeps the lists right exactly when it stood on none of them. */
  lemma NewKeepsIndices(schema: Schema, s: map<Key, Stored>, t: map<Key, Stored>, typ: string, id: Id, fields: Record)
    requires IndicesOk(schema, s) && Entered(schema, s, t, typ, id, fields)
    ensures IndicesOk(schema, t) <==>
            (Exists(s, typ, id) ==> forall ix | ix in IndicesOf(schema, typ) :: ix.fun(RecordOf(schema, s, typ, id)).None?)
  {
    var wasFree := Exists(s, typ, id) ==> forall ix | ix in IndicesOf(schema, typ) :: ix.fun(RecordOf(schema, s, typ, id)).None?;
    if wasFree {
      forall typ', ix, v | ix in IndicesOf(schema, typ') ensures ListOk(schema, t, typ', ix, v) {
        assert TypeOk(schema, s, typ') && ListOk(schema, s, typ', ix, v);
        AppendDistinct(Listed(s, typ', ix.name, v), id);
      }
      assert forall typ' :: TypeOk(schema, t, typ');
    } else {
      var ix :| ix in IndicesOf(schema, typ) && ix.fun(RecordOf(schema, s, typ, id)).Some?;
      var v := ix.fun(RecordOf(schema, s, typ, id)).value;
      assert TypeOk(schema, s, typ) && ListOk(schema, s, typ, ix, v);
      var l := Listed(s, typ, ix.name, v);
      assert id in l;
      AppendDistinct(l, id);
      assert !ListOk(schema, t, typ, ix, v);
      assert !TypeOk(schema, t, typ);
    }
  }

  /** After an object changed, every list is right exactly when the object exists or was put on no list. */
  lemma MoveKeepsIndices(schema: Schema, s: map<Key, Stored>, t: map<Key, Stored>, typ: string, id: Id,
                         before: Record, after: Option<Record>)
    requires IndicesOk(schema, s) && Reindexed(schema, s, t, typ, id, before, after)
    requires before == RecordOf(schema, s, typ, id)
    requires after.Some? ==> after.value == RecordOf(schema, t, typ, id) && (Exists(t, typ, id) <==> Exists(s, typ, id))
    requires after.None? ==> !Exists(t, typ, id)
    ensures IndicesOk(schema, t) <==> (Exists(t, typ, id) || after.None? || OnNoNewList(schema, typ, before, after.value))
  {
    forall typ', ix, v | ix in IndicesOf(schema, typ')
      ensures ListOk(schema, t, typ', ix, v) <==>
              (typ' == typ && !Exists(t, typ, id) && after.Some? && ix.fun(after.value) == Some(v) ==> ix.fun(before) == Some(v))
    {
      assert TypeOk(schema, s, typ') && ListOk(schema, s, typ', ix, v);
      if typ' == typ {
        ListMoved(schema, s, t, typ, id, before, after, ix, v);
      }
    }
    if !Exists(t, typ, id) && after.Some? && !OnNoNewList(schema, typ, before, after.value) {
      var ix :| ix in IndicesOf(schema, typ) && ix.fun(after.value).Some? && ix.fun(before) != ix.fun(after.value);
      assert !ListOk(schema, t, typ, ix, ix.fun(after.value).value);
      assert !TypeOk(schema, t, typ);
    } else {
      assert forall typ' :: TypeOk(schema, t, typ');
    }
  }

  ghost predicate OnNoNewList(schema: Schema, typ: string, before: Record, after: Record) {
    forall ix | ix in IndicesOf(schema, typ) :: ix.fun(after).Some? ==> ix.fun(before) == ix.fun(after)
  }

  /** What a later view finds: a value that encodes to JSON null is not stored. */
  function Committed(s: map<Key, Stored>, isNull: FieldValue -> bool): map<Key, Stored> {
    map k | k in s && !(s[k].Value? && isNull(s[k].v)) :: s[k]
  }

  /** What marks an object as existing is never lost by a commit. */
  ghost predicate Marked(s: map<Key, Stored>) {
    forall typ, id {:trigger MarkAt(s, typ, id)} :: MarkAt(s, typ, id)
  }

  predicate MarkAt(s: map<Key, Stored>, typ: string, id: Id) {
    ExistsKey(typ, id) in s ==> s[ExistsKey(typ, id)] == True
  }

  lemma SameMarked(s: map<Key, Stored>, t: map<Key, Stored>)
    requires SameObjects(s, t) && Marked(s)
    ensures Marked(t)
  {
    forall typ, id ensures MarkAt(t, typ, id) { assert MarkAt(s, typ, id); }
  }

  /** Committing keeps the lists right exactly when no existing object's index value depends on a null that is lost. */
  lemma CommitKeepsIndices(schema: Schema, s: map<Key, Stored>, isNull: FieldValue -> bool)
    requires IndicesOk(schema, s) && Marked(s)
    ensures var t := Committed(s, isNull);
      IndicesOk(schema, t) <==>
      (forall typ, ix, id | ix in IndicesOf(schema, typ) && Exists(s, typ, id) ::
         ix.fun(RecordOf(schema, t, typ, id)) == ix.fun(RecordOf(schema, s, typ, id)))
  {
    var t := Committed(s, isNull);
    forall typ, id ensures Exists(t, typ, id) == Exists(s, typ, id) {
      assert MarkAt(s, typ, id);
    }
    assert forall typ, name, v :: Listed(t, typ, name, v) == Listed(s, typ, name, v);
    if IndicesOk(schema, t) {
      forall typ, ix, id | ix in IndicesOf(schema, typ) && Exists(s, typ, id)
        ensures ix.fun(RecordOf(schema, t, typ, id)) == ix.fun(RecordOf(schema, s, typ, id))
      {
        var a, b := ix.fun(RecordOf(schema, s, typ, id)), ix.fun(RecordOf(schema, t, typ, id));
        assert TypeOk(schema, s, typ) && TypeOk(schema, t, typ);
        if a.Some? { assert ListOk(schema, s, typ, ix, a.value) && ListOk(schema, t, typ, ix, a.value); }
        if b.Some? { assert ListOk(schema, s, typ, ix, b.value) && ListOk(schema, t, typ, ix, b.value); }
      }
    }
    if forall typ, ix, id | ix in IndicesOf(schema, typ) && Exists(s, typ, id) ::
         ix.fun(RecordOf(schema, t, typ, id)) == ix.fun(RecordOf(schema, s, typ, id)) {
      forall typ, ix, v | ix in IndicesOf(schema, typ) ensures ListOk(schema, t, typ, ix, v) {
        assert TypeOk(schema, s, typ) && ListOk(schema, s, typ, ix, v);
      }
      assert forall typ :: TypeOk(schema, t, typ);
    }
  }

  lemma MarkedStill(s: map<Key, Stored>, t: map<Key, Stored>, typ: string, id: Id)
    requires OnlyObject(s, t, typ, id) && MarkAt(t, typ, id) && Marked(s)
    ensures Marked(t)
  {
    forall typ', id' ensures MarkAt(t, typ', id') {
      assert MarkAt(s, typ', id');
      if typ' != typ || id' != id { assert At(t, ExistsKey(typ', id')) == At(s, ExistsKey(typ', id')); }
    }
  }

  class IndexedView {
    const schema: Schema
    const snapshot: map<Key, Stored>
    var writes: map<Key, Option<Stored>>

    function Now(): map<Key, Stored>
      reads this
    {
      Overlay(snapshot, writes)
    }

    constructor (schema: Schema, snapshot: map<Key, Stored>)
      ensures this.schema == schema && Now() == snapshot
    {
      this.schema, this.snapshot, this.writes := schema, snapshot, map[];
    }

    function GetKey(k: Key): (r: Option<Stored>)
      reads this
      ensures r == At(Now(), k)
    {
      if k in writes then writes[k] else if k in snapshot then Some(snapshot[k]) else None
    }

    method Put(k: Key, v: Option<Stored>)
      modifies this
      ensures Now() == if v.Some? then old(Now())[k := v.value] else old(Now()) - {k}
    {
      writes := writes[k := v];
    }

    method ComputeIndexVals(typ: string, id: Id) returns (vals: map<string, Option<IndexValue>>)
      requires WellFormed(schema)
      ensures vals.Keys == set ix | ix in IndicesOf(schema, typ) :: ix.name
      ensures forall ix | ix in IndicesOf(schema, typ) :: vals[ix.name] == ix.fun(RecordOf(schema, Now(), typ, id))
    {
      vals := map[];
      var ixs := IndicesOf(schema, typ);
      for i := 0 to |ixs|
        invariant vals.Keys == set ix | ix in ixs[..i] :: ix.name
        invariant forall j | 0 <= j < i :: vals[ixs[j].name] == ixs[j].fun(RecordOf(schema, Now(), typ, id))
      {
        vals := vals[ixs[i].name := ixs[i].fun(RecordOf(schema, Now(), typ, id))];
      }
    }

    method UpdateIndices(typ: string, id: Id, before: map<string, Option<IndexValue>>, after: map<string, Option<IndexValue>>)
      requires WellFormed(schema)
      modifies this
      ensures SameObjects(old(Now()), Now())
      ensures forall typ', name, v :: (Listed(Now(), typ', name, v) ==
                                       if typ' == typ && name in NamesOf(schema, typ)
                                       then Moved(Listed(old(Now()), typ, name, v), id, Get(before, name), Get(after, name), v)
                                       else Listed(old(Now()), typ', name, v))
    {
      var ixs := IndicesOf(schema, typ);
      for i := 0 to |ixs|
        invariant SameObjects(old(Now()), Now())
        invariant forall typ', name, v :: (Listed(Now(), typ', name, v) ==
                                           if typ' == typ && name in Names(ixs[..i])
                                           then Moved(Listed(old(Now()), typ, name, v), id, Get(before, name), Get(after, name), v)
                                           else Listed(old(Now()), typ', name, v))
      {
        NextName(ixs, i);
        var name := ixs[i].name;
        MoveIdentity(typ, id, name, Get(before, name), Get(after, name));
      }
      assert ixs[..|ixs|] == ixs;
    }

    method MoveIdentity(typ: string, id: Id, name: string, cur: Option<IndexValue>, next: Option<IndexValue>)
      modifies this
      ensures SameObjects(old(Now()), Now())
      ensures forall typ', name', v :: (Listed(Now(), typ', name', v) ==
                                        if typ' == typ && name' == name
                                        then Moved(Listed(old(Now()), typ, name, v), id, cur, next, v)
                                        else Listed(old(Now()), typ', name', v))
    {
      if cur != next {
        if cur.Some? {
          var l := Listed(Now(), typ, name, cur.value);
          Put(ListKey(typ, name, cur.value), Some(Ids(Without(l, id))));
        }
        if next.Some? {
          var l := Listed(Now(), typ, name, next.value);
          Put(ListKey(typ, name, next.value), Some(Ids(l + [id])));
        }
      }
    }

    /** A new object: its identity is added to the list of each of its index values, whatever was there. */
    method New(typ: string, id: Id, fields: Record)
      requires WellFormed(schema) && typ in schema.fields && fields.Keys == schema.fields[typ]
      modifies this
      ensures Entered(schema, old(Now()), Now(), typ, id, fields) && (Marked(old(Now())) ==> Marked(Now()))
      ensures IndicesOk(schema, old(Now())) ==>
                (IndicesOk(schema, Now()) <==>
                 (Exists(old(Now()), typ, id) ==>
                    forall ix | ix in IndicesOf(schema, typ) :: ix.fun(RecordOf(schema, old(Now()), typ, id)).None?))
    {
      MakeObject(typ, id, fields);
      ghost var made := Now();
      var vals := ComputeIndexVals(typ, id);
      UpdateIndices(typ, id, map[], vals);
      SameObjectsSameRecords(schema, made, Now());
      if Marked(made) { SameMarked(made, Now()); }
      forall typ', ix, v | ix in IndicesOf(schema, typ')
        ensures Listed(Now(), typ', ix.name, v) ==
                Appended(Listed(old(Now()), typ', ix.name, v), id, typ' == typ, ix.fun(fields), v)
      {
        assert Listed(made, typ', ix.name, v) == Listed(old(Now()), typ', ix.name, v);
        if typ' == typ {
          assert ix.name in NamesOf(schema, typ) && Get(vals, ix.name) == ix.fun(fields);
        }
      }
      if IndicesOk(schema, old(Now())) {
        NewKeepsIndices(schema, old(Now()), Now(), typ, id, fields);
      }
    }

    method MakeObject(typ: string, id: Id, fields: Record)
      requires typ in schema.fields && fields.Keys == schema.fields[typ]
      modifies this
      ensures Exists(Now(), typ, id) && RecordOf(schema, Now(), typ, id) == fields && (Marked(old(Now())) ==> Marked(Now()))
      ensures OthersSame(schema, old(Now()), Now(), typ, id)
    {
      WriteFields(typ, id, fields);
      Put(ExistsKey(typ, id), Some(True));
      assert forall f | f in fields :: At(Now(), FieldKey(typ, id, f)) == Some(Value(fields[f]));
      OnlyObjectOthersSame(schema, old(Now()), Now(), typ, id);
      if Marked(old(Now())) { MarkedStill(old(Now()), Now(), typ, id); }
    }

    method WriteFields(typ: string, id: Id, fields: Record)
      modifies this
      ensures forall k: Key :: (At(Now(), k) ==
                                if k.FieldKey? && k.typ == typ && k.id == id && k.field in fields then Some(Value(fields[k.field]))
                                else At(old(Now()), k))
    {
      var todo := fields.Keys;
      while todo != {}
        invariant todo <= fields.Keys
        invariant forall k: Key :: (At(Now(), k) ==
                                    if k.FieldKey? && k.typ == typ && k.id == id && k.field in fields && k.field !in todo
                                    then Some(Value(fields[k.field])) else At(old(Now()), k))
      {
        var f :| f in todo;
        todo := todo - {f};
        Put(FieldKey(typ, id, f), Some(Value(fields[f])));
      }
    }

    /** Writes one field and moves the object between the lists its index values name. */
    method Set(typ: string, id: Id, f: Field, v: FieldValue)
      requires WellFormed(schema) && typ in schema.fields && f in schema.fields[typ]
      modifies this
      ensures Exists(Now(), typ, id) <==> Exists(old(Now()), typ, id)
      ensures Marked(old(Now())) ==> Marked(Now())
      ensures RecordOf(schema, Now(), typ, id) == RecordOf(schema, old(Now()), typ, id)[f := v]
      ensures Reindexed(schema, old(Now()), Now(), typ, id, RecordOf(schema, old(Now()), typ, id),
                        Some(RecordOf(schema, Now(), typ, id)))
      ensures IndicesOk(schema, old(Now())) ==>
                (IndicesOk(schema, Now()) <==>
                 Exists(old(Now()), typ, id) ||
                 OnNoNewList(schema, typ, RecordOf(schema, old(Now()), typ, id), RecordOf(schema, Now(), typ, id)))
    {
      SetAndMove(typ, id, f, v);
      if IndicesOk(schema, old(Now())) {
        MoveKeepsIndices(schema, old(Now()), Now(), typ, id, RecordOf(schema, old(Now()), typ, id), Some(RecordOf(schema, Now(), typ, id)));
      }
    }

    method SetAndMove(typ: string, id: Id, f: Field, v: FieldValue)
      requires WellFormed(schema) && typ in schema.fields && f in schema.fields[typ]
      modifies this
      ensures Exists(Now(), typ, id) <==> Exists(old(Now()), typ, id)
      ensures Marked(old(Now())) ==> Marked(Now())
      ensures RecordOf(schema, Now(), typ, id) == RecordOf(schema, old(Now()), typ, id)[f := v]
      ensures Reindexed(schema, old(Now()), Now(), typ, id, RecordOf(schema, old(Now()), typ, id),
                        Some(RecordOf(schema, Now(), typ, id)))
    {
      var before := ComputeIndexVals(typ, id);
      SetField(typ, id, f, v);
      ghost var written := Now();
      var after := ComputeIndexVals(typ, id);
      UpdateIndices(typ, id, before, after);
      SameObjectsSameRecords(schema, written, Now());
      if Marked(written) { SameMarked(written, Now()); }
      ShowReindexed(old(Now()), written, typ, id, RecordOf(schema, old(Now()), typ, id), Some(RecordOf(schema, written, typ, id)), before, after);
    }

    method SetField(typ: string, id: Id, f: Field, v: FieldValue)
      requires typ in schema.fields && f in schema.fields[typ]
      modifies this
      ensures RecordOf(schema, Now(), typ, id) == RecordOf(schema, old(Now()), typ, id)[f := v]
      ensures (Exists(Now(), typ, id) <==> Exists(old(Now()), typ, id)) && (Marked(old(Now())) ==> Marked(Now()))
      ensures OthersSame(schema, old(Now()), Now(), typ, id)
    {
      Put(FieldKey(typ, id, f), Some(Value(v)));
      assert MarkAt(old(Now()), typ, id) ==> MarkAt(Now(), typ, id);
      OnlyObjectOthersSame(schema, old(Now()), Now(), typ, id);
      if Marked(old(Now())) { MarkedStill(old(Now()), Now(), typ, id); }
    }

    /** Removes every field and takes the object off its lists; deleting what does not exist is harmless. */
    method Delete(typ: string, id: Id)
      requires WellFormed(schema) && typ in schema.fields
      modifies this
      ensures !Exists(Now(), typ, id) && RecordOf(schema, Now(), typ, id) == map[] && (Marked(old(Now())) ==> Marked(Now()))
      ensures Reindexed(schema, old(Now()), Now(), typ, id, RecordOf(schema, old(Now()), typ, id), None)
      ensures IndicesOk(schema, old(Now())) ==> IndicesOk(schema, Now())
    {
      var before := ComputeIndexVals(typ, id);
      ClearFields(typ, id);
      ghost var cleared := Now();
      UpdateIndices(typ, id, before, map[]);
      SameObjectsSameRecords(schema, cleared, Now());
      if Marked(cleared) { SameMarked(cleared, Now()); }
      ShowReindexed(old(Now()), cleared, typ, id, RecordOf(schema, old(Now()), typ, id), None, before, map[]);
      if IndicesOk(schema, old(Now())) {
        MoveKeepsIndices(schema, old(Now()), Now(), typ, id, RecordOf(schema, old(Now()), typ, id), None);
      }
    }

    method ClearFields(typ: string, id: Id)
      requires typ in schema.fields
      modifies this
      ensures !Exists(Now(), typ, id) && RecordOf(schema, Now(), typ, id) == map[] && (Marked(old(Now())) ==> Marked(Now()))
      ensures OthersSame(schema, old(Now()), Now(), typ, id)
    {
      DropFields(typ, id);
      Put(ExistsKey(typ, id), None);
      assert forall f | f in schema.fields[typ] :: At(Now(), FieldKey(typ, id, f)) == None;
      OnlyObjectOthersSame(schema, old(Now()), Now(), typ, id);
      if Marked(old(Now())) { MarkedStill(old(Now()), Now(), typ, id); }
    }

    method DropFields(typ: string, id: Id)
      requires typ in schema.fields
      modifies this
      ensures forall k: Key :: (At(Now(), k) ==
                                if k.FieldKey? && k.typ == typ && k.id == id && k.field in schema.fields[typ] then None
                                else At(old(Now()), k))
    {
      var todo := schema.fields[typ];
      while todo != {}
        invariant todo <= schema.fields[typ]
        invariant forall k: Key :: (At(Now(), k) ==
                                    if k.FieldKey? && k.typ == typ && k.id == id && k.field in schema.fields[typ] && k.field !in todo
                                    then None else At(old(Now()), k))
      {
        var f :| f in todo;
        todo := todo - {f};
        Put(FieldKey(typ, id, f), None);
      }
    }

    /** One write of a transaction: right lists stay right exactly when it is one of those that keep them. */
    method Make(c: Change)
      requires WellFormed(schema) && Possible(schema, c)
      modifies this
      ensures Wrote(schema, old(Now()), c, Now())
      ensures Marked(old(Now())) ==> Marked(Now())
      ensures IndicesOk(schema, old(Now())) ==> (IndicesOk(schema, Now()) <==> Keeps(schema, old(Now()), c))
    {
      match c
      case Made(typ, id, fields) => New(typ, id, fields);
      case Changed(typ, id, f, v) => Set(typ, id, f, v);
      case Deleted(typ, id) => Delete(typ, id);
    }

    /** The lists moved from the values the old fields gave to the values the new ones give. */
    lemma ShowReindexed(s: map<Key, Stored>, mid: map<Key, Stored>, typ: string, id: Id, rec: Record, rec': Option<Record>,
                        before: map<string, Option<IndexValue>>, after: map<string, Option<IndexValue>>)
      requires forall typ', name, v :: Listed(mid, typ', name, v) == Listed(s, typ', name, v)
      requires forall typ', name, v :: (Listed(Now(), typ', name, v) ==
                                        if typ' == typ && name in NamesOf(schema, typ)
                                        then Moved(Listed(mid, typ, name, v), id, Get(before, name), Get(after, name), v)
                                        else Listed(mid, typ', name, v))
      requires forall ix | ix in IndicesOf(schema, typ) ::
                 Get(before, ix.name) == ix.fun(rec) && Get(after, ix.name) == if rec'.Some? then ix.fun(rec'.value) else None
      requires forall typ', id' | typ' != typ || id' != id ::
                 (Exists(Now(), typ', id') <==> Exists(s, typ', id')) && RecordOf(schema, Now(), typ', id') == RecordOf(schema, s, typ', id')
      ensures Reindexed(schema, s, Now(), typ, id, rec, rec')
    {
      forall typ', ix, v | ix in IndicesOf(schema, typ')
        ensures Listed(Now(), typ', ix.name, v) ==
                if typ' == typ
                then Moved(Listed(s, typ, ix.name, v), id, ix.fun(rec), if rec'.Some? then ix.fun(rec'.value) else None, v)
                else Listed(s, typ', ix.name, v)
      {
        if typ' == typ { assert ix.name in NamesOf(schema, typ); }
      }
    }

    /** The identities listed under a value: when the indices are right, a full scan. */
    method IndexLookup(typ: string, ix: Index, v: IndexValue) returns (ids: seq<Id>)
      ensures ids == Listed(Now(), typ, ix.name, v)
      ensures IndicesOk(schema, Now()) && ix in IndicesOf(schema, typ) ==>
                Distinct(ids) && forall id :: id in ids <==> Exists(Now(), typ, id) && ix.fun(RecordOf(schema, Now(), typ, id)) == Some(v)
    {
      var r := GetKey(ListKey(typ, ix.name, v));
      ids := if r.Some? && r.value.Ids? then r.value.ids else [];
      assert IndicesOk(schema, Now()) && ix in IndicesOf(schema, typ) ==> TypeOk(schema, Now(), typ) && ListOk(schema, Now(), typ, ix, v);
    }

    /** lookupOne: the object when exactly one matches; otherwise the source raises, and this gives None. */
    method IndexLookupOne(typ: string, ix: Index, v: IndexValue) returns (r: Option<Id>)
      requires IndicesOk(schema, Now()) && ix in IndicesOf(schema, typ)
      ensures r.Some? ==> Matches(typ, ix, v, r.value) && forall id | Matches(typ, ix, v, id) :: id == r.value
      ensures r.None? ==> !exists id :: Matches(typ, ix, v, id) && forall other | Matches(typ, ix, v, other) :: other == id
    {
      var ids := IndexLookup(typ, ix, v);
      if |ids| != 1 {
        if exists id :: Matches(typ, ix, v, id) && forall other | Matches(typ, ix, v, other) :: other == id {
          var id :| Matches(typ, ix, v, id) && forall other | Matches(typ, ix, v, other) :: other == id;
          assert id in ids && ids[0] in ids && ids[1] in ids;
          assert Matches(typ, ix, v, ids[0]) && Matches(typ, ix, v, ids[1]);
        }
        return None;
      }
      assert ids[0] in ids;
      return Some(ids[0]);
    }

    ghost predicate Matches(typ: string, ix: Index, v: IndexValue, id: Id)
      reads this
    {
      Exists(Now(), typ, id) && ix.fun(RecordOf(schema, Now(), typ, id)) == Some(v)
    }
  }

  /*** Committed states ***/

  datatype Change =
    | Made(typ: string, id: Id, fields: Record)
    | Changed(typ: string, id: Id, field: Field, value: FieldValue)
    | Deleted(typ: string, id: Id)

  predicate Possible(schema: Schema, c: Change) {
    && c.typ in schema.fields
    && (c.Made? ==> c.fields.Keys == schema.fields[c.typ])
    && (c.Changed? ==> c.field in schema.fields[c.typ])
  }

  /** What is made was on no list, and what is changed exists or comes on no list. */
  ghost predicate Keeps(schema: Schema, s: map<Key, Stored>, c: Change) {
    var r := RecordOf(schema, s, c.typ, c.id);
    match c
    case Made(typ, id, _) => Exists(s, typ, id) ==> forall ix | ix in IndicesOf(schema, typ) :: ix.fun(r).None?
    case Changed(typ, id, f, v) => Exists(s, typ, id) || OnNoNewList(schema, typ, r, r[f := v])
    case Deleted(_, _) => true
  }

  /** What a write makes of the objects and the lists. */
  ghost predicate Wrote(schema: Schema, s: map<Key, Stored>, c: Change, t: map<Key, Stored>) {
    var r := RecordOf(schema, s, c.typ, c.id);
    match c
    case Made(typ, id, fields) => Entered(schema, s, t, typ, id, fields)
    case Changed(typ, id, f, v) =>
      (Exists(t, typ, id) <==> Exists(s, typ, id)) && RecordOf(schema, t, typ, id) == r[f := v]
      && Reindexed(schema, s, t, typ, id, r, Some(r[f := v]))
    case Deleted(typ, id) =>
      !Exists(t, typ, id) && RecordOf(schema, t, typ, id) == map[] && Reindexed(schema, s, t, typ, id, r, None)
  }

  /** A write keeps right indices right exactly when it is one of those. */
  lemma WroteRight(schema: Schema, s: map<Key, Stored>, c: Change, t: map<Key, Stored>)
    requires Wrote(schema, s, c, t) && IndicesOk(schema, s)
    ensures IndicesOk(schema, t) <==> Keeps(schema, s, c)
  {
    var r := RecordOf(schema, s, c.typ, c.id);
    match c
    case Made(typ, id, fields) => NewKeepsIndices(schema, s, t, typ, id, fields);
    case Changed(typ, id, f, v) => MoveKeepsIndices(schema, s, t, typ, id, r, Some(r[f := v]));
    case Deleted(typ, id) => MoveKeepsIndices(schema, s, t, typ, id, r, None);
  }

  /** No index tells a field that is null from one that is absent. */
  ghost predicate NullBlind(schema: Schema, isNull: FieldValue -> bool) {
    forall typ, ix, r: Record {:trigger WithoutNulls(r, isNull), ix in IndicesOf(schema, typ)} | ix in IndicesOf(schema, typ) ::
      ix.fun(WithoutNulls(r, isNull)) == ix.fun(r)
  }

  function WithoutNulls(r: Record, isNull: FieldValue -> bool): Record {
    map f | f in r && !isNull(r[f]) :: r[f]
  }

  lemma CommitLosesNulls(schema: Schema, s: map<Key, Stored>, isNull: FieldValue -> bool, typ: string, id: Id)
    ensures RecordOf(schema, Committed(s, isNull), typ, id) == WithoutNulls(RecordOf(schema, s, typ, id), isNull)
  {
  }

  lemma CommitMarked(s: map<Key, Stored>, isNull: FieldValue -> bool)
    requires Marked(s)
    ensures Marked(Committed(s, isNull))
  {
    forall typ, id ensures MarkAt(Committed(s, isNull), typ, id) { assert MarkAt(s, typ, id); }
  }

  lemma BlindCommitKeepsIndices(schema: Schema, s: map<Key, Stored>, isNull: FieldValue -> bool)
    requires NullBlind(schema, isNull) && IndicesOk(schema, s) && Marked(s)
    ensures IndicesOk(schema, Committed(s, isNull))
  {
    forall typ, ix, id | ix in IndicesOf(schema, typ) && Exists(s, typ, id)
      ensures ix.fun(RecordOf(schema, Committed(s, isNull), typ, id)) == ix.fun(RecordOf(schema, s, typ, id))
    {
      CommitLosesNulls(schema, s, isNull, typ, id);
    }
    CommitKeepsIndices(schema, s, isNull);
  }

  /** The states that the writes of a transaction lead through. */
  ghost predicate WentThrough(schema: Schema, run: seq<map<Key, Stored>>, changes: seq<Change>) {
    && |run| == |changes| + 1
    && (Marked(run[0]) ==> Marked(run[|changes|]))
    && forall i: nat | i < |changes| :: WroteAt(schema, run, changes, i)
  }

  ghost predicate WroteAt(schema: Schema, run: seq<map<Key, Stored>>, changes: seq<Change>, i: nat)
    requires i < |changes| && i + 1 < |run|
  {
    Wrote(schema, run[i], changes[i], run[i + 1])
  }

  ghost predicate AllKeep(schema: Schema, run: seq<map<Key, Stored>>, changes: seq<Change>) {
    |run| > |changes| && forall i: nat | i < |changes| :: Keeps(schema, run[i], changes[i])
  }

  lemma {:induction false} AllStayRight(schema: Schema, run: seq<map<Key, Stored>>, changes: seq<Change>, n: nat)
    requires WentThrough(schema, run, changes) && IndicesOk(schema, run[0]) && n <= |changes|
    ensures AllKeep(schema, run, changes) ==> IndicesOk(schema, run[n])
  {
    if n > 0 {
      AllStayRight(schema, run, changes, n - 1);
      assert WroteAt(schema, run, changes, n - 1);
      if AllKeep(schema, run, changes) { WroteRight(schema, run[n - 1], changes[n - 1], run[n]); }
    }
  }

  /** The writes of a transaction on the latest state, and what the commit leaves to later views. */
  method Transact(schema: Schema, s: map<Key, Stored>, changes: seq<Change>, isNull: FieldValue -> bool)
    returns (t: map<Key, Stored>, ghost run: seq<map<Key, Stored>>)
    requires WellFormed(schema) && forall c | c in changes :: Possible(schema, c)
    ensures WentThrough(schema, run, changes) && run[0] == s && t == Committed(run[|changes|], isNull)
    ensures Marked(s) ==> Marked(t)
    ensures IndicesOk(schema, s) && Marked(s) && AllKeep(schema, run, changes) && NullBlind(schema, isNull) ==> IndicesOk(schema, t)
  {
    var view := new IndexedView(schema, s);
    run := [view.Now()];
    for i := 0 to |changes|
      invariant view.schema == schema && fresh(view)
      invariant WentThrough(schema, run, changes[..i]) && run[0] == s && run[i] == view.Now()
    {
      ghost var before := run;
      view.Make(changes[i]);
      run := run + [view.Now()];
      ThroughOneMore(schema, before, run, changes, i);
    }
    assert changes[..|changes|] == changes;
    t := Committed(view.Now(), isNull);
    if Marked(s) { CommitMarked(view.Now(), isNull); }
    if IndicesOk(schema, s) && Marked(s) && AllKeep(schema, run, changes) && NullBlind(schema, isNull) {
      AllStayRight(schema, run, changes, |changes|);
      BlindCommitKeepsIndices(schema, view.Now(), isNull);
    }
  }

  lemma ThroughOneMore(schema: Schema, run: seq<map<Key, Stored>>, more: seq<map<Key, Stored>>, changes: seq<Change>, n: nat)
    requires n < |changes| && WentThrough(schema, run, changes[..n]) && |more| == n + 2 && more[..n + 1] == run
    requires Marked(more[n]) ==> Marked(more[n + 1])
    requires Wrote(schema, more[n], changes[n], more[n + 1])
    ensures WentThrough(schema, more, changes[..n + 1])
  {
    assert more[0] == run[0] && more[n] == run[n];
    var now := changes[..n + 1];
    forall i: nat {:trigger WroteAt(schema, more, now, i)} | i < n + 1 ensures WroteAt(schema, more, now, i) {
      assert more[i] == more[..n + 1][i];
      if i < n {
        assert WroteAt(schema, run, changes[..n], i) && more[i + 1] == more[..n + 1][i + 1];
      }
    }
  }

  /** Each state is what the commit leaves of the last one that a transaction on the state before it leads to. */
  ghost predicate Committing(schema: Schema, states: seq<map<Key, Stored>>, runs: seq<seq<map<Key, Stored>>>,
                             transactions: seq<seq<Change>>, isNull: FieldValue -> bool) {
    && |states| == |transactions| + 1 && |runs| == |transactions|
    && forall n: nat {:trigger CommittedAt(schema, states, runs, transactions, isNull, n)} | n < |transactions| ::
         CommittedAt(schema, states, runs, transactions, isNull, n)
  }

  ghost predicate CommittedAt(schema: Schema, states: seq<map<Key, Stored>>, runs: seq<seq<map<Key, Stored>>>,
                              transactions: seq<seq<Change>>, isNull: FieldValue -> bool, n: nat)
    requires n < |transactions| && n < |runs| && n + 1 < |states|
  {
    && WentThrough(schema, runs[n], transactions[n]) && runs[n][0] == states[n]
    && states[n + 1] == Committed(runs[n][|transactions[n]|], isNull)
  }

  /** In a committed history whose writes all keep the indices right, they are right in every state. */
  lemma {:induction false} HistoryRight(schema: Schema, states: seq<map<Key, Stored>>, runs: seq<seq<map<Key, Stored>>>,
                                        transactions: seq<seq<Change>>, isNull: FieldValue -> bool, n: nat)
    requires Committing(schema, states, runs, transactions, isNull) && n < |states|
    requires IndicesOk(schema, states[0]) && Marked(states[0]) && NullBlind(schema, isNull)
    requires forall k: nat | k < n :: AllKeep(schema, runs[k], transactions[k])
    ensures IndicesOk(schema, states[n]) && Marked(states[n])
  {
    if n > 0 {
      HistoryRight(schema, states, runs, transactions, isNull, n - 1);
      assert CommittedAt(schema, states, runs, transactions, isNull, n - 1);
      var run, changes := runs[n - 1], transactions[n - 1];
      AllStayRight(schema, run, changes, |changes|);
      BlindCommitKeepsIndices(schema, run[|changes|], isNull);
      CommitMarked(run[|changes|], isNull);
    }
  }

  /** Transactions after each other, from an empty database on. */
  method Commits(schema: Schema, transactions: seq<seq<Change>>, isNull: FieldValue -> bool)
    returns (states: seq<map<Key, Stored>>, ghost runs: seq<seq<map<Key, Stored>>>)
    requires WellFormed(schema) && forall cs, c | cs in transactions && c in cs :: Possible(schema, c)
    ensures Committing(schema, states, runs, transactions, isNull) && states[0] == map[]
    ensures NullBlind(schema, isNull) && (forall n: nat | n < |transactions| :: AllKeep(schema, runs[n], transactions[n])) ==>
              forall n: nat | n < |states| :: IndicesOk(schema, states[n])
  {
    states, runs := [map[]], [];
    for k := 0 to |transactions|
      invariant Committing(schema, states, runs, transactions[..k], isNull) && states[0] == map[]
    {
      var t, run := Transact(schema, states[k], transactions[k], isNull);
      OneCommitMore(schema, states, runs, transactions, isNull, k, t, run);
      states, runs := states + [t], runs + [run];
    }
    assert transactions[..|transactions|] == transactions;
    EmptyIsRight(schema);
    if NullBlind(schema, isNull) && forall n: nat | n < |transactions| :: AllKeep(schema, runs[n], transactions[n]) {
      forall n: nat | n < |states| ensures IndicesOk(schema, states[n]) {
        HistoryRight(schema, states, runs, transactions, isNull, n);
      }
    }
  }

  lemma OneCommitMore(schema: Schema, states: seq<map<Key, Stored>>, runs: seq<seq<map<Key, Stored>>>, transactions: seq<seq<Change>>,
                      isNull: FieldValue -> bool, k: nat, t: map<Key, Stored>, run: seq<map<Key, Stored>>)
    requires k < |transactions| && Committing(schema, states, runs, transactions[..k], isNull)
    requires WentThrough(schema, run, transactions[k]) && run[0] == states[k] && t == Committed(run[|transactions[k]|], isNull)
    ensures Committing(schema, states + [t], runs + [run], transactions[..k + 1], isNull)
  {
    var now, states', runs' := transactions[..k + 1], states + [t], runs + [run];
    forall n: nat {:trigger CommittedAt(schema, states', runs', now, isNull, n)} | n < k + 1
      ensures CommittedAt(schema, states', runs', now, isNull, n)
    {
      if n < k {
        assert CommittedAt(schema, states, runs, transactions[..k], isNull, n);
      }
    }
  }

  lemma EmptyIsRight(schema: Schema)
    ensures IndicesOk(schema, map[]) && Marked(map[])
  {
    forall typ, ix, v | ix in IndicesOf(schema, typ) ensures ListOk(schema, map[], typ, ix, v) { }
    assert forall typ :: TypeOk(schema, map[], typ);
  }

  /*** What each condition shuts out ***/

  function OneType(f: Field, v: IndexValue): Schema {
    Schema(map["T" := {f}], map["T" := [Index("i", (r: Record) => if f in r then Some(v) else None)]])
  }

  function OneObject(f: Field, x: FieldValue, v: IndexValue, ids: seq<Id>): map<Key, Stored> {
    map[FieldKey("T", "a", f) := Value(x), ExistsKey("T", "a") := True, ListKey("T", "i", v) := Ids(ids)]
  }

  lemma OneObjectRight(f: Field, x: FieldValue, v: IndexValue)
    ensures IndicesOk(OneType(f, v), OneObject(f, x, v, ["a"])) && Marked(OneObject(f, x, v, ["a"]))
  {
    var schema, s := OneType(f, v), OneObject(f, x, v, ["a"]);
    forall typ, ix, w | ix in IndicesOf(schema, typ) ensures ListOk(schema, s, typ, ix, w) {
      assert typ == "T";
      if w == v { assert Listed(s, typ, ix.name, w) == ["a"]; } else { assert Listed(s, typ, ix.name, w) == []; }
    }
    assert forall typ :: TypeOk(schema, s, typ);
  }

  /** An identity that is made twice stands on its list twice. */
  lemma MadeTwice(f: Field, x: FieldValue, v: IndexValue, t: map<Key, Stored>)
    requires t == OneObject(f, x, v, Appended(["a"], "a", true, Some(v), v))
    ensures IndicesOk(OneType(f, v), OneObject(f, x, v, ["a"]))
    ensures !IndicesOk(OneType(f, v), t) && !Keeps(OneType(f, v), OneObject(f, x, v, ["a"]), Made("T", "a", map[f := x]))
  {
    OneObjectRight(f, x, v);
    var schema := OneType(f, v);
    var ix := schema.indices["T"][0];
    assert ix in IndicesOf(schema, "T");
    var l := Listed(t, "T", "i", v);
    assert l == ["a"] + ["a"] && l[0] == l[1];
    assert !ListOk(schema, t, "T", ix, v);
    assert !TypeOk(schema, t, "T");
    assert ix.fun(RecordOf(schema, OneObject(f, x, v, ["a"]), "T", "a")) == Some(v);
  }

  /** A field that is set on what does not exist puts it on a list. */
  lemma SetOnNothing(f: Field, x: FieldValue, v: IndexValue, t: map<Key, Stored>)
    requires t == OneObject(f, x, v, Moved([], "a", None, Some(v), v)) - {ExistsKey("T", "a")}
    ensures IndicesOk(OneType(f, v), map[])
    ensures !IndicesOk(OneType(f, v), t) && !Keeps(OneType(f, v), map[], Changed("T", "a", f, x))
  {
    EmptyIsRight(OneType(f, v));
    var schema := OneType(f, v);
    var ix := schema.indices["T"][0];
    assert ix in IndicesOf(schema, "T");
    var l := Listed(t, "T", "i", v);
    assert l == [] + ["a"] && l[0] == "a" && !Exists(t, "T", "a");
    assert !ListOk(schema, t, "T", ix, v);
    assert !TypeOk(schema, t, "T");
    assert f !in RecordOf(schema, map[], "T", "a");
  }

  /** An index of the objects that have a field loses an object whose field is null when it is committed. */
  lemma NullIsLost(f: Field, x: FieldValue, v: IndexValue, isNull: FieldValue -> bool)
    requires isNull(x)
    ensures IndicesOk(OneType(f, v), OneObject(f, x, v, ["a"]))
    ensures !IndicesOk(OneType(f, v), Committed(OneObject(f, x, v, ["a"]), isNull)) && !NullBlind(OneType(f, v), isNull)
  {
    OneObjectRight(f, x, v);
    var schema, t := OneType(f, v), Committed(OneObject(f, x, v, ["a"]), isNull);
    var ix := schema.indices["T"][0];
    assert ix in IndicesOf(schema, "T");
    assert Listed(t, "T", "i", v)[0] == "a" && f !in RecordOf(schema, t, "T", "a");
    assert !ListOk(schema, t, "T", ix, v);
    assert !TypeOk(schema, t, "T");
    assert WithoutNulls(map[f := x], isNull) == map[];
  }
}
