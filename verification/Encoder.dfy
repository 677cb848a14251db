/** Typed values to and from JSON, where an object's fields tell which alternative it was. */
module Encoder {
  import opened Options

  type AltId(==, !new)

  datatype Type =
    | Str | Int | Bool | Float
    | Tuple(parts: seq<Type>)
    | List(element: Type)
    | Dict(val: Type)
    | Nullable(sub: Type)
    | Alt(id: AltId)

  type Fields = map<string, Type>

  /** What each algebraic type consists of: its alternatives, and the fields of each. */
  type Env = map<AltId, map<string, Fields>>

  datatype Scalar = SStr(s: string) | SInt(n: int) | SBool(b: bool) | SFloat(r: real)

  /** An object: JSON uses the first five kinds. */
  datatype Value =
    | Nothing
    | Prim(p: Scalar)
    | Arr(items: seq<Value>)
    | Dic(entries: map<string, Value>)
    | Tup(items: seq<Value>)
    | NullOf(sub: Type)
    | ValOf(sub: Type, val: Value)
    | Inst(id: AltId, which: string, fields: map<string, Value>)

  /*** Algebraic types ***/

  const TypeKey := "_type"

  /** Names that the type object has an attribute for. */
  predicate Reserved(name: string) {
    name == "matches" || name == "define" || name == "setCreateDefault" || name == "add_common_fields" || name == "add_common_field"
  }

  predicate ValidName(name: string) {
    name != "" && name[0] != '_' && !Reserved(name)
  }

  /** No other alternative has the same field names. */
  predicate UniqueFields(options: map<string, Fields>, which: string) {
    which in options && forall other | other in options && other != which :: options[other].Keys != options[which].Keys
  }

  predicate HasOption(env: Env, id: AltId, which: string) {
    id in env && which in env[id] && ValidName(which)
  }

  /** Types that read back what they write. */
  predicate Plain(env: Env, t: Type) {
    match t
    case Str => true
    case Int => true
    case Bool => true
    case Float => true
    case Tuple(parts) => forall i | 0 <= i < |parts| :: Plain(env, parts[i])
    case List(e) => Plain(env, e) && !e.Tuple? && !(e.Nullable? && (e.sub.List? || e.sub.Tuple?))
    case Dict(v) => Plain(env, v)
    case Nullable(sub) => Plain(env, sub) && !sub.Nullable?
    case Alt(id) => id in env
  }

  predicate WellFormed(env: Env) {
    ValidNames(env) && forall id | id in env :: forall which | which in env[id] ::
      forall f | f in env[id][which] :: Plain(env, env[id][which][f])
  }

  /** What the definition of an algebraic type insists on. */
  predicate ValidNames(env: Env) {
    forall id | id in env :: forall which | which in env[id] ::
      ValidName(which) && forall f | f in env[id][which] :: ValidName(f)
  }

  predicate Typed(env: Env, v: Value, t: Type)
    decreases v
  {
    match v
    case Nothing => false
    case Arr(_) => false
    case Prim(p) =>
      (match p
       case SStr(_) => t.Str?
       case SInt(_) => t.Int?
       case SBool(_) => t.Bool? || t.Int?
       case SFloat(_) => t.Float?)
    case Tup(items) =>
      (t.Tuple? && |t.parts| == |items| && forall i | 0 <= i < |items| :: Typed(env, items[i], t.parts[i])) ||
      (t.List? && forall i | 0 <= i < |items| :: Typed(env, items[i], t.element))
    case Dic(entries) => t.Dict? && forall k | k in entries :: Typed(env, entries[k], t.val)
    case NullOf(sub) => t == Nullable(sub)
    case ValOf(sub, val) => t == Nullable(sub) && Typed(env, val, sub)
    case Inst(id, which, fields) =>
      t == Alt(id) && HasOption(env, id, which) && fields.Keys == env[id][which].Keys &&
      forall f | f in fields :: f in env[id][which] && Typed(env, fields[f], env[id][which][f])
  }

  lemma ValidNameExactly(name: string)
    ensures ValidName(name) <==>
            (name != "" && name[0] != '_' && name !in {"matches", "define", "setCreateDefault", "add_common_fields", "add_common_field"})
  {
  }

  function PlainFields(): Fields {
    map["s" := Str, "i" := Int, "b" := Bool, "f" := Float]
  }

  function NestedFields(id: AltId): Fields {
    map["t" := Tuple([Str, Int]), "l" := List(List(Int)), "d" := Dict(Nullable(Alt(id)))]
  }

  /** A type that has alternatives with fields of every kind and one without fields. */
  function AllKinds(id: AltId): Env {
    map[id := map["plain" := PlainFields(), "nested" := NestedFields(id), "none" := map[]]]
  }

  /** Fields of every kind read back. */
  lemma AllKindsWellFormed(id: AltId)
    ensures WellFormed(AllKinds(id)) && Plain(AllKinds(id), Alt(id)) && HasOption(AllKinds(id), id, "nested")
  {
    var env := AllKinds(id);
    forall which | which in env[id] ensures ValidName(which) && FieldsPlain(env, env[id][which]) {
      if which == "plain" { PlainOnes(env); } else if which == "nested" { NestedOnes(env, id); }
    }
  }

  predicate FieldsPlain(env: Env, fields: Fields) {
    forall f | f in fields :: ValidName(f) && Plain(env, fields[f])
  }

  lemma PlainOnes(env: Env)
    ensures FieldsPlain(env, PlainFields())
  {
  }

  lemma NestedOnes(env: Env, id: AltId)
    requires id in env
    ensures FieldsPlain(env, NestedFields(id))
  {
    assert Plain(env, List(Int)) && Plain(env, Nullable(Alt(id)));
    assert Plain(env, Tuple([Str, Int])) && Plain(env, List(List(Int))) && Plain(env, Dict(Nullable(Alt(id))));
  }

  /*** to_json ***/

  function ToJson(env: Env, v: Value): Value
    decreases v
  {
    match v
    case Nothing => Nothing
    case Prim(_) => v
    case Arr(items) => Arr(seq(|items|, i requires 0 <= i < |items| => ToJson(env, items[i])))
    case Tup(items) => Arr(seq(|items|, i requires 0 <= i < |items| => ToJson(env, items[i])))
    case Dic(entries) => Dic(map k | k in entries :: ToJson(env, entries[k]))
    case NullOf(_) => Nothing
    case ValOf(_, val) => ToJson(env, val)
    case Inst(id, which, fields) =>
      if fields == map[] then Prim(SStr(which))
      else
        var json := map f | f in fields :: ToJson(env, fields[f]);
        Dic(if id in env && UniqueFields(env[id], which) then json else json[TypeKey := Prim(SStr(which))])
  }

  /*** from_json ***/

  /** Lists in lists become one list. */
  function Flatten(items: seq<Value>): (r: seq<Value>)
    ensures forall x | x in r :: !x.Arr? && !x.Tup?
  {
    if items == [] then []
    else (if items[0].Arr? || items[0].Tup? then Flatten(items[0].items) else [items[0]]) + Flatten(items[1..])
  }

  /** What comes out is part of what went in. */
  lemma {:induction false} FlattenBelow(items: seq<Value>, bound: Value)
    requires forall x | x in items :: x < bound
    ensures forall x | x in Flatten(items) :: x < bound
  {
    if items != [] {
      assert items[0] in items && forall x | x in items[1..] :: x in items;
      FlattenBelow(items[1..], bound);
      if items[0].Arr? || items[0].Tup? {
        FlattenBelow(items[0].items, bound);
      }
    }
  }

  /** The alternatives that have all these fields. */
  function Fitting(options: map<string, Fields>, names: set<string>): set<string> {
    set p | p in options && names <= options[p].Keys
  }

  /** The one alternative that fits, or the one of those that has no further fields. */
  function Search(options: map<string, Fields>, names: set<string>): Option<string> {
    var possible := Fitting(options, names);
    var exact := set p | p in possible && options[p].Keys == names;
    if |possible| == 1 then Some(TheOnly(possible))
    else if |exact| == 1 then Some(TheOnly(exact))
    else None
  }

  function TheOnly(s: set<string>): string
    requires |s| == 1
  {
    OnlyMember(s);
    var x :| x in s;
    x
  }

  lemma OnlyMember(s: set<string>)
    requires |s| == 1
    ensures forall x, y | x in s && y in s :: x == y
  {
    forall x, y | x in s && y in s ensures x == y {
      assert |s - {x}| == 0;
    }
  }

  function All(rs: seq<Option<Value>>): (r: Option<seq<Value>>)
    ensures r.Some? <==> forall i | 0 <= i < |rs| :: rs[i].Some?
    ensures r.Some? ==> |r.value| == |rs| && forall i | 0 <= i < |rs| :: rs[i] == Some(r.value[i])
  {
    if exists i :: 0 <= i < |rs| && rs[i].None? then None
    else Some(seq(|rs|, i requires 0 <= i < |rs| => rs[i].value))
  }

  function AllIn(rs: map<string, Option<Value>>): Option<map<string, Value>> {
    if exists k :: k in rs && rs[k].None? then None
    else Some(map k | k in rs :: rs[k].value)
  }

  /** The entries of one dictionary after another, the last to name a key decides. */
  function Merged(rs: seq<Option<Value>>): Option<map<string, Value>> {
    if rs == [] then Some(map[])
    else
      var front, last := Merged(rs[..|rs| - 1]), rs[|rs| - 1];
      if front.Some? && last.Some? && last.value.Dic? then Some(front.value + last.value.entries) else None
  }

  function Digits(n: nat): string {
    (if n < 10 then [] else Digits(n / 10)) + ["0123456789"[n % 10]]
  }

  function FromPrimitive(v: Value, t: Type): Value {
    match v
    case Prim(SBool(b)) =>
      if t.Str? then Prim(SStr(if b then "true" else "false"))
      else if t.Float? then Prim(SFloat(if b then 1.0 else 0.0))
      else v
    case Prim(SInt(n)) =>
      if t.Str? then Prim(SStr(if n < 0 then "-" + Digits(-n) else Digits(n)))
      else if t.Float? then Prim(SFloat(n as real))
      else v
    case _ => v
  }

  /** A value that already has the type, or that stands for one that has. */
  function Coerce(env: Env, v: Value, t: Type): Option<Value>
    decreases t
  {
    match t
    case Alt(id) => if v.Inst? && v.id == id then Some(v) else None
    case Nullable(sub) =>
      if v.Nothing? then Some(NullOf(sub))
      else if (v.NullOf? || v.ValOf?) && v.sub == sub then Some(v)
      else None
    case Tuple(parts) =>
      if v.Tup? && |v.items| == |parts| then
        var r := All(seq(|parts|, i requires 0 <= i < |parts| => Coerce(env, v.items[i], parts[i])));
        if r.Some? then Some(Tup(r.value)) else None
      else None
    case List(e) =>
      if v.Tup? || v.Arr? then
        var r := All(seq(|v.items|, i requires 0 <= i < |v.items| => Coerce(env, v.items[i], e)));
        if r.Some? then Some(Tup(r.value)) else None
      else None
    case Dict(val) =>
      if v.Dic? then
        Some(Dic(map k | k in v.entries :: var c := Coerce(env, v.entries[k], val); if c.Some? then c.value else Nothing))
      else None
    case Str => if v.Prim? && v.p.SStr? then Some(v) else None
    case Int => if v.Prim? && (v.p.SInt? || v.p.SBool?) then Some(v) else None
    case Bool => if v.Prim? && v.p.SBool? then Some(v) else None
    case Float => if v.Prim? && v.p.SFloat? then Some(v) else None
  }

  function Default(t: Type): Option<Value> {
    match t
    case Str => Some(Prim(SStr("")))
    case Int => Some(Prim(SInt(0)))
    case Bool => Some(Prim(SBool(false)))
    case Float => Some(Prim(SFloat(0.0)))
    case List(_) => Some(Tup([]))
    case Dict(_) => Some(Dic(map[]))
    case Nullable(sub) => Some(NullOf(sub))
    case _ => None
  }

  /** An instance from the fields that were read; the missing ones get their defaults. */
  function Construct(env: Env, id: AltId, which: string, subs: map<string, Value>): Option<Value>
    requires id in env && which in env[id]
  {
    var types := env[id][which];
    var r := AllIn(map f | f in types :: if f in subs then Coerce(env, subs[f], types[f]) else Default(types[f]));
    if r.Some? then Some(Inst(id, which, r.value)) else None
  }

  /** A string names an alternative without fields, or is the one field of the only alternative that could take it. */
  function FromName(env: Env, s: string, id: AltId): Option<Value>
    requires id in env
  {
    var zero := WithoutFields(env[id]);
    var single := set w | w in env[id] && TakesString(env[id][w]);
    if |single| == 1 && zero == {} then
      var w := TheOnly(single);
      Construct(env, id, w, map f | f in env[id][w] :: Prim(SStr(s)))
    else if HasOption(env, id, s) && env[id][s] == map[] then Some(Inst(id, s, map[]))
    else None
  }

  function WithoutFields(options: map<string, Fields>): set<string> {
    set w | w in options && options[w] == map[]
  }

  predicate TakesString(fields: Fields) {
    |fields| == 1 && forall f | f in fields :: fields[f] == Str
  }

  /** The alternative that an object is to be read as. */
  function WhichOf(env: Env, entries: map<string, Value>, id: AltId): Option<string>
    requires id in env
  {
    if TypeKey in entries then
      var name := entries[TypeKey];
      if name.Prim? && name.p.SStr? && HasOption(env, id, name.p.s) then Some(name.p.s) else None
    else Search(env[id], entries.Keys)
  }

  function EachOf(names: set<string>, t: Type): map<string, Type> {
    map k | k in names :: t
  }

  /** Reads the entries that have a type. */
  ghost function ReadFields(env: Env, entries: map<string, Value>, types: map<string, Type>, whole: Value): Option<map<string, Value>>
    requires forall k | k in entries :: entries[k] < whole
    decreases whole, 0, 0
  {
    AllIn(map k | k in entries && k in types :: FromJson(env, entries[k], types[k]))
  }

  /** A string that is read as a tuple is taken apart into characters, and as a list it is a list of one. */
  function FromString(env: Env, s: string, t: Type): Option<Value>
    decreases t
  {
    match t
    case Nullable(sub) =>
      var r := FromString(env, s, sub);
      var c := if r.Some? then Coerce(env, r.value, sub) else None;
      if c.Some? then Some(ValOf(sub, c.value)) else None
    case Tuple(parts) =>
      FromStrings(env, Characters(s), parts)
    case Dict(_) => None
    case List(e) =>
      var r := FromString(env, s, e);
      if r.Some? then Some(Tup([r.value])) else None
    case Alt(id) => if id in env then FromName(env, s, id) else None
    case _ => Some(FromPrimitive(Prim(SStr(s)), t))
  }

  /** A tuple with a string for each part. */
  function FromStrings(env: Env, ks: seq<string>, parts: seq<Type>): Option<Value>
    decreases parts
  {
    if |ks| == |parts| then
      var r := All(seq(|parts|, i requires 0 <= i < |parts| => FromString(env, ks[i], parts[i])));
      if r.Some? then Some(Tup(r.value)) else None
    else None
  }

  function Characters(s: string): (ks: seq<string>)
    ensures |ks| == |s| && forall i | 0 <= i < |s| :: ks[i] == [s[i]]
  {
    seq(|s|, i requires 0 <= i < |s| => [s[i]])
  }

  /** The keys of an object as they are gone through, in an order that nothing is known of. */
  ghost function InSomeOrder(keys: set<string>): (r: seq<string>)
    ensures |r| == |keys| && forall k :: k in r <==> k in keys
  {
    if keys == {} then []
    else
      var k :| k in keys;
      [k] + InSomeOrder(keys - {k})
  }

  ghost function FromJson(env: Env, v: Value, t: Type): Option<Value>
    decreases v, 1, t, 1
  {
    if v.Nothing? then Some(if t.Dict? then Dic(map[]) else Nothing)
    else if v.Prim? && v.p.SStr? then FromString(env, v.p.s, t)
    else
      match t
      case Nullable(sub) => ReadPresent(env, v, sub)
      case Tuple(_) => ReadTuple(env, v, t)
      case Dict(val) => ReadDict(env, v, val)
      case List(e) => ReadList(env, v, e)
      case Alt(id) => ReadAlt(env, v, id)
      case _ => Some(FromPrimitive(v, t))
  }

  ghost function ReadEach(env: Env, items: seq<Value>, e: Type, whole: Value): Option<seq<Value>>
    requires forall x | x in items :: x < whole
    decreases whole, 0, 0
  {
    All(seq(|items|, i requires 0 <= i < |items| => assert items[i] in items; FromJson(env, items[i], e)))
  }

  ghost function ReadPresent(env: Env, v: Value, sub: Type): Option<Value>
    decreases v, 1, sub, 2
  {
    var r := FromJson(env, v, sub);
    var c := if r.Some? then Coerce(env, r.value, sub) else None;
    if c.Some? then Some(ValOf(sub, c.value)) else None
  }

  ghost function ReadTuple(env: Env, v: Value, t: Type): Option<Value>
    decreases v, 1, t, 0
  {
    if t.Tuple? && (v.Arr? || v.Tup?) && |v.items| == |t.parts| then
      var r := All(seq(|t.parts|, i requires 0 <= i < |t.parts| => FromJson(env, v.items[i], t.parts[i])));
      if r.Some? then Some(Tup(r.value)) else None
    else if t.Tuple? && v.Dic? then FromStrings(env, InSomeOrder(v.entries.Keys), t.parts)
    else None
  }

  /** A dictionary is an object; a list of things that read as dictionaries is taken as their union. */
  ghost function ReadDict(env: Env, v: Value, val: Type): Option<Value>
    decreases v, 1, val, 2
  {
    match v
    case Dic(entries) =>
      var r := ReadFields(env, entries, EachOf(entries.Keys, val), v);
      if r.Some? then Some(Dic(r.value)) else None
    case Arr(items) =>
      var r := Merged(seq(|items|, i requires 0 <= i < |items| => FromJson(env, items[i], Dict(val))));
      if r.Some? then Some(Dic(r.value)) else None
    case Tup(items) =>
      var r := Merged(seq(|items|, i requires 0 <= i < |items| => FromJson(env, items[i], Dict(val))));
      if r.Some? then Some(Dic(r.value)) else None
    case _ => None
  }

  /** Lists in a list are taken apart, unless it is lists that are wanted; a single thing is a list of one. */
  ghost function ReadList(env: Env, v: Value, e: Type): Option<Value>
    decreases v, 1, e, 2
  {
    if v.Arr? || v.Tup? then
      FlattenBelow(v.items, v);
      var items := if e.List? then v.items else Flatten(v.items);
      var r := ReadEach(env, items, e, v);
      if r.Some? then Some(Tup(r.value)) else None
    else if v.Prim? && !v.p.SFloat? then
      var r := FromJson(env, v, e);
      if r.Some? then Some(Tup([r.value])) else None
    else None
  }

  ghost function ReadAlt(env: Env, v: Value, id: AltId): Option<Value>
    decreases v, 0, 1
  {
    if id !in env then None
    else (
      match v
      case Dic(entries) =>
        var which := WhichOf(env, entries, id);
        if which.None? then None
        else
          var subs := ReadFields(env, entries, env[id][which.value] - {TypeKey}, v);
          if subs.Some? then Construct(env, id, which.value, subs.value) else None
      case _ => None)
  }

  /*** The search finds what was written ***/

  /** The fields of an alternative lead back to it exactly when no other has the same ones. */
  lemma SearchExactly(options: map<string, Fields>, which: string)
    requires which in options
    ensures Search(options, options[which].Keys) == Some(which) <==> UniqueFields(options, which)
  {
    var names := options[which].Keys;
    var possible := Fitting(options, names);
    var exact := set p | p in possible && options[p].Keys == names;
    assert which in possible && which in exact;
    if UniqueFields(options, which) {
      assert exact == {which};
      if |possible| == 1 { OnlyMember(possible); }
    } else {
      var other :| other in options && other != which && options[other].Keys == names;
      assert other in possible && other in exact;
      if |possible| == 1 { OnlyMember(possible); }
      if |exact| == 1 { OnlyMember(exact); }
    }
  }

  /** It has all these fields, and is either the only one that has, or the only one that has no others. */
  ghost predicate FitsBest(options: map<string, Fields>, names: set<string>, w: string) {
    && w in options && names <= options[w].Keys
    && forall other | other in options && other != w && names <= options[other].Keys ::
         options[w].Keys == names && options[other].Keys != names
  }

  /** An object is read as an alternative exactly when this one fits best. */
  lemma SearchFits(options: map<string, Fields>, names: set<string>, w: string)
    ensures Search(options, names) == Some(w) <==> FitsBest(options, names, w)
  {
    var possible := Fitting(options, names);
    var exact := set p | p in possible && options[p].Keys == names;
    OneOf(possible, w);
    OneOf(exact, w);
    if FitsBest(options, names, w) {
      if options[w].Keys == names { Single(exact, w); } else { Single(possible, w); }
      if |possible| == 1 { OnlyMember(possible); }
    }
    if Search(options, names) == Some(w) {
      assert possible == {w} || exact == {w};
      forall other | other in options && other != w && names <= options[other].Keys
        ensures options[w].Keys == names && options[other].Keys != names
      {
        assert other in possible;
        Single(possible, w);
        assert exact == {w} && w in exact && other !in exact;
      }
    }
  }

  lemma Single(s: set<string>, w: string)
    ensures s == {w} <==> w in s && forall x | x in s :: x == w
  {
  }

  lemma OneOf(s: set<string>, w: string)
    ensures |s| == 1 && TheOnly(s) == w <==> s == {w}
  {
    if |s| == 1 {
      OnlyMember(s);
      assert TheOnly(s) in s && s == {TheOnly(s)};
    }
  }

  /** Only a missing value is written as null, and only a list or tuple as an array. */
  lemma {:induction false} Shape(env: Env, v: Value, t: Type)
    requires WellFormed(env) && Plain(env, t) && Typed(env, v, t)
    ensures var j := ToJson(env, v);
      && (j.Nothing? <==> v.NullOf?)
      && !j.Tup?
      && (j.Arr? ==> t.List? || t.Tuple? || (t.Nullable? && (t.sub.List? || t.sub.Tuple?)))
    decreases v
  {
    if v.ValOf? {
      Shape(env, v.val, v.sub);
    }
  }

  lemma {:induction false} FlatStays(items: seq<Value>)
    requires forall x | x in items :: !x.Arr? && !x.Tup?
    ensures Flatten(items) == items
  {
    if items != [] {
      assert items[0] in items && forall x | x in items[1..] :: x in items;
      FlatStays(items[1..]);
    }
  }

  /** What is read back: all that coercion changes in it is that nothing becomes a missing value. */
  ghost predicate ReadsBack(env: Env, v: Value, t: Type) {
    var r := FromJson(env, ToJson(env, v), t);
    r.Some? && Coerce(env, r.value, t) == Some(v)
  }

  lemma {:induction false} RoundTrip(env: Env, v: Value, t: Type)
    requires WellFormed(env) && Plain(env, t) && Typed(env, v, t)
    ensures ReadsBack(env, v, t)
    decreases v
  {
    Shape(env, v, t);
    match v
    case Prim(p) =>
    case Tup(items) =>
      if t.Tuple? && |t.parts| == |items| && forall i | 0 <= i < |items| :: Typed(env, items[i], t.parts[i]) {
        forall i | 0 <= i < |items| ensures ReadsBack(env, items[i], t.parts[i]) {
          RoundTrip(env, items[i], t.parts[i]);
        }
        TupleBack(env, items, t.parts);
      } else {
        forall i | 0 <= i < |items| ensures ReadsBack(env, items[i], t.element) && (!t.element.List? ==> !ToJson(env, items[i]).Arr? && !ToJson(env, items[i]).Tup?) {
          Shape(env, items[i], t.element);
          RoundTrip(env, items[i], t.element);
        }
        ListBack(env, items, t.element);
      }
    case Dic(entries) =>
      forall k | k in entries ensures ReadsBack(env, entries[k], t.val) {
        RoundTrip(env, entries[k], t.val);
      }
      DictBack(env, entries, t.val);
    case NullOf(sub) =>
    case ValOf(sub, val) =>
      Shape(env, val, sub);
      RoundTrip(env, val, sub);
      assert !val.NullOf?;
    case Inst(id, which, fields) =>
      var types := env[id][which];
      forall f | f in fields ensures ReadsBack(env, fields[f], types[f]) {
        RoundTrip(env, fields[f], types[f]);
      }
      InstBack(env, id, which, fields);
  }

  /** Different values of a type are written differently. */
  lemma NoTwoWrittenAlike(env: Env, v: Value, w: Value, t: Type)
    requires WellFormed(env) && Plain(env, t) && Typed(env, v, t) && Typed(env, w, t)
    requires ToJson(env, v) == ToJson(env, w)
    ensures v == w
  {
    RoundTrip(env, v, t);
    RoundTrip(env, w, t);
  }

  lemma TupleBack(env: Env, items: seq<Value>, parts: seq<Type>)
    requires |items| == |parts| && forall i | 0 <= i < |items| :: ReadsBack(env, items[i], parts[i])
    ensures ReadsBack(env, Tup(items), Tuple(parts))
  {
    var j := ToJson(env, Tup(items));
    var r := seq(|parts|, i requires 0 <= i < |parts| => FromJson(env, j.items[i], parts[i]));
    assert forall i | 0 <= i < |parts| :: r[i].Some? && Coerce(env, r[i].value, parts[i]) == Some(items[i]) by {
      forall i | 0 <= i < |parts| ensures r[i].Some? && Coerce(env, r[i].value, parts[i]) == Some(items[i]) {
        assert ReadsBack(env, items[i], parts[i]);
      }
    }
    var back := FromJson(env, j, Tuple(parts));
    assert back == ReadTuple(env, j, Tuple(parts));
    assert All(r).Some? && back == Some(Tup(All(r).value));
    var c := seq(|parts|, i requires 0 <= i < |parts| => Coerce(env, back.value.items[i], parts[i]));
    assert All(c).Some? && All(c).value == items;
  }

  lemma ListBack(env: Env, items: seq<Value>, e: Type)
    requires forall i | 0 <= i < |items| :: ReadsBack(env, items[i], e)
    requires !e.List? ==> forall i | 0 <= i < |items| :: !ToJson(env, items[i]).Arr? && !ToJson(env, items[i]).Tup?
    ensures ReadsBack(env, Tup(items), List(e))
  {
    var j := ToJson(env, Tup(items));
    if !e.List? {
      FlatStays(j.items);
    }
    assert forall x | x in j.items :: x < j;
    ItemsBack(env, items, e, j);
    var got := ReadEach(env, j.items, e, j).value;
    ListRead(env, e, j, got);
    CoerceList(env, items, e, got);
    BackBy(env, Tup(items), List(e), j, Tup(got));
  }

  lemma ListRead(env: Env, e: Type, j: Value, got: seq<Value>)
    requires j.Arr? && (forall x | x in j.items :: x < j) && (e.List? || Flatten(j.items) == j.items)
    requires ReadEach(env, j.items, e, j) == Some(got)
    ensures FromJson(env, j, List(e)) == Some(Tup(got))
  {
    assert FromJson(env, j, List(e)) == ReadList(env, j, e);
  }

  lemma ItemsBack(env: Env, items: seq<Value>, e: Type, j: Value)
    requires forall i | 0 <= i < |items| :: ReadsBack(env, items[i], e)
    requires j == ToJson(env, Tup(items)) && forall x | x in j.items :: x < j
    ensures ReadEach(env, j.items, e, j).Some? && |ReadEach(env, j.items, e, j).value| == |items|
    ensures forall i | 0 <= i < |items| :: Coerce(env, ReadEach(env, j.items, e, j).value[i], e) == Some(items[i])
  {
    forall i | 0 <= i < |items|
      ensures FromJson(env, j.items[i], e).Some? && Coerce(env, FromJson(env, j.items[i], e).value, e) == Some(items[i])
    {
      assert ReadsBack(env, items[i], e);
    }
  }

  lemma CoerceList(env: Env, items: seq<Value>, e: Type, got: seq<Value>)
    requires |got| == |items| && forall i | 0 <= i < |items| :: Coerce(env, got[i], e) == Some(items[i])
    ensures Coerce(env, Tup(got), List(e)) == Some(Tup(items))
  {
    var c := seq(|got|, i requires 0 <= i < |got| => Coerce(env, got[i], e));
    assert All(c).Some? && All(c).value == items;
  }

  /** What was written for each of the entries is read back. */
  lemma FieldsBack(env: Env, entries: map<string, Value>, types: map<string, Type>, json: map<string, Value>, whole: Value)
    requires entries.Keys == types.Keys && forall k | k in entries :: ReadsBack(env, entries[k], types[k])
    requires (forall k | k in json :: json[k] < whole) && (forall k | k in entries :: k in json && json[k] == ToJson(env, entries[k]))
    ensures FieldsCoerce(env, entries, types, ReadFields(env, json, types, whole))
  {
    var got := map k | k in entries :: FromJson(env, ToJson(env, entries[k]), types[k]);
    forall k | k in entries ensures got[k].Some? && Coerce(env, got[k].value, types[k]) == Some(entries[k]) {
      assert ReadsBack(env, entries[k], types[k]);
    }
    AllInCoerces(env, entries, types, got);
    FieldsRead(env, json, types, whole, got);
  }

  lemma FieldsRead(env: Env, json: map<string, Value>, types: map<string, Type>, whole: Value, got: map<string, Option<Value>>)
    requires (forall k | k in json :: json[k] < whole) && got.Keys == types.Keys <= json.Keys
    requires forall k | k in types :: got[k] == FromJson(env, json[k], types[k])
    ensures ReadFields(env, json, types, whole) == AllIn(got)
  {
    assert got == map k | k in json && k in types :: FromJson(env, json[k], types[k]);
  }

  /** One value's reading, from the pieces. */
  lemma BackBy(env: Env, v: Value, t: Type, j: Value, r: Value)
    requires j == ToJson(env, v) && FromJson(env, j, t) == Some(r) && Coerce(env, r, t) == Some(v)
    ensures ReadsBack(env, v, t)
  {
  }

  lemma AllInCoerces(env: Env, entries: map<string, Value>, types: map<string, Type>, got: map<string, Option<Value>>)
    requires entries.Keys == types.Keys == got.Keys
    requires forall k | k in entries :: got[k].Some? && Coerce(env, got[k].value, types[k]) == Some(entries[k])
    ensures FieldsCoerce(env, entries, types, AllIn(got))
  {
  }

  ghost predicate FieldsCoerce(env: Env, entries: map<string, Value>, types: map<string, Type>, r: Option<map<string, Value>>) {
    && entries.Keys == types.Keys
    && r.Some? && r.value.Keys == entries.Keys && forall k | k in entries :: Coerce(env, r.value[k], types[k]) == Some(entries[k])
  }

  lemma DictBack(env: Env, entries: map<string, Value>, val: Type)
    requires forall k | k in entries :: ReadsBack(env, entries[k], val)
    ensures ReadsBack(env, Dic(entries), Dict(val))
  {
    var json := WrittenEntries(env, entries);
    var types := EachOf(entries.Keys, val);
    FieldsBack(env, entries, types, json, Dic(json));
    DictFrom(env, entries, val, json, ReadFields(env, json, types, Dic(json)));
  }

  function WrittenEntries(env: Env, entries: map<string, Value>): (json: map<string, Value>)
    ensures json.Keys == entries.Keys && ToJson(env, Dic(entries)) == Dic(json)
    ensures forall k | k in json :: json[k] < Dic(json)
  {
    map k | k in entries :: ToJson(env, entries[k])
  }

  lemma DictFrom(env: Env, entries: map<string, Value>, val: Type, json: map<string, Value>, got: Option<map<string, Value>>)
    requires json.Keys == entries.Keys && ToJson(env, Dic(entries)) == Dic(json)
    requires (forall k | k in json :: json[k] < Dic(json)) && got == ReadFields(env, json, EachOf(json.Keys, val), Dic(json))
    requires FieldsCoerce(env, entries, EachOf(entries.Keys, val), got)
    ensures ReadsBack(env, Dic(entries), Dict(val))
  {
    DictRead(env, val, json, got.value);
    CoerceDict(env, entries, val, got.value);
    BackBy(env, Dic(entries), Dict(val), Dic(json), Dic(got.value));
  }

  lemma DictRead(env: Env, val: Type, json: map<string, Value>, got: map<string, Value>)
    requires forall k | k in json :: json[k] < Dic(json)
    requires ReadFields(env, json, EachOf(json.Keys, val), Dic(json)) == Some(got)
    ensures FromJson(env, Dic(json), Dict(val)) == Some(Dic(got))
  {
  }

  lemma CoerceDict(env: Env, entries: map<string, Value>, val: Type, got: map<string, Value>)
    requires FieldsCoerce(env, entries, EachOf(entries.Keys, val), Some(got))
    ensures Coerce(env, Dic(got), Dict(val)) == Some(Dic(entries))
  {
    var made := map k | k in got :: var c := Coerce(env, got[k], val); if c.Some? then c.value else Nothing;
    assert made == entries;
  }

  lemma InstBack(env: Env, id: AltId, which: string, fields: map<string, Value>)
    requires WellFormed(env) && HasOption(env, id, which) && fields.Keys == env[id][which].Keys
    requires forall f | f in fields :: ReadsBack(env, fields[f], env[id][which][f])
    ensures ReadsBack(env, Inst(id, which, fields), Alt(id))
  {
    if fields == map[] {
      NameBack(env, id, which);
    } else {
      InstRead(env, id, which, fields);
      ReadIsBack(env, id, which, fields);
    }
  }

  lemma ReadIsBack(env: Env, id: AltId, which: string, fields: map<string, Value>)
    requires id in env && fields != map[]
    requires FromJson(env, Dic(WrittenFields(env, id, which, fields)), Alt(id)) == Some(Inst(id, which, fields))
    ensures ReadsBack(env, Inst(id, which, fields), Alt(id))
  {
    var v := Inst(id, which, fields);
    BackBy(env, v, Alt(id), Dic(WrittenFields(env, id, which, fields)), v);
  }

  lemma InstRead(env: Env, id: AltId, which: string, fields: map<string, Value>)
    requires WellFormed(env) && HasOption(env, id, which) && fields.Keys == env[id][which].Keys && fields != map[]
    requires forall f | f in fields :: ReadsBack(env, fields[f], env[id][which][f])
    ensures FromJson(env, Dic(WrittenFields(env, id, which, fields)), Alt(id)) == Some(Inst(id, which, fields))
  {
    SearchFinds(env, id, which, fields);
    var json := WrittenFields(env, id, which, fields);
    FieldsBack(env, fields, env[id][which], json, Dic(json));
    FieldedBack(env, id, which, fields);
  }

  /** The instance with these fields, and for every other field what its type starts with. */
  ghost function FilledIn(env: Env, id: AltId, which: string, given: map<string, Value>): Option<Value>
    requires id in env && which in env[id]
  {
    var types := env[id][which];
    if exists f :: f in types && f !in given && Default(types[f]).None? then None
    else Some(Inst(id, which, map f | f in types :: if f in given then given[f] else Default(types[f]).value))
  }

  /** An object that leaves fields out reads as the alternative it fits, with what the types of the others start with. */
  lemma PartialReads(env: Env, id: AltId, which: string, given: map<string, Value>, json: map<string, Value>)
    requires HasOption(env, id, which) && given.Keys <= env[id][which].Keys && TypeKey !in given && TypeKey !in env[id][which]
    requires FitsBest(env[id], given.Keys, which)
    requires forall f | f in given :: ReadsBack(env, given[f], env[id][which][f])
    requires json.Keys == given.Keys && forall f | f in given :: json[f] == ToJson(env, given[f])
    ensures FromJson(env, Dic(json), Alt(id)) == FilledIn(env, id, which, given)
  {
    SearchFits(env[id], given.Keys, which);
    var types := env[id][which];
    NoTypeKey(types);
    GivenRead(env, types, given, json);
    var got := ReadFields(env, json, types, Dic(json)).value;
    ConstructFills(env, id, which, given, got);
    InstFrom(env, id, which, json, got);
  }

  lemma GivenRead(env: Env, types: map<string, Type>, given: map<string, Value>, json: map<string, Value>)
    requires given.Keys <= types.Keys && forall f | f in given :: ReadsBack(env, given[f], types[f])
    requires json.Keys == given.Keys && forall f | f in given :: json[f] == ToJson(env, given[f])
    ensures var r := ReadFields(env, json, types, Dic(json));
      r.Some? && r.value.Keys == given.Keys && forall f | f in given :: Coerce(env, r.value[f], types[f]) == Some(given[f])
  {
    var some := map f | f in given :: types[f];
    FieldsBack(env, given, some, json, Dic(json));
    OnlyGiven(env, json, types, some);
  }

  lemma OnlyGiven(env: Env, json: map<string, Value>, types: map<string, Type>, some: map<string, Type>)
    requires json.Keys == some.Keys <= types.Keys && forall f | f in some :: some[f] == types[f]
    ensures ReadFields(env, json, types, Dic(json)) == ReadFields(env, json, some, Dic(json))
  {
    assert (map k | k in json && k in types :: FromJson(env, json[k], types[k])) == (map k | k in json && k in some :: FromJson(env, json[k], some[k]));
  }

  lemma ConstructFills(env: Env, id: AltId, which: string, given: map<string, Value>, got: map<string, Value>)
    requires id in env && which in env[id] && given.Keys <= env[id][which].Keys && got.Keys == given.Keys
    requires forall f | f in given :: Coerce(env, got[f], env[id][which][f]) == Some(given[f])
    ensures Construct(env, id, which, got) == FilledIn(env, id, which, given)
  {
    var types := env[id][which];
    var made := map f | f in types :: if f in got then Coerce(env, got[f], types[f]) else Default(types[f]);
    if f :| f in types && f !in given && Default(types[f]).None? {
      assert made[f].None? && AllIn(made).None?;
    } else {
      assert AllIn(made).Some?;
      assert AllIn(made).value == map f | f in types :: if f in given then given[f] else Default(types[f]).value;
    }
  }

  /** What a type starts with, if anything, is of the type and empty. */
  lemma DefaultIsEmpty(env: Env, t: Type)
    ensures Default(t).Some? <==> !t.Alt? && !t.Tuple?
    ensures Default(t).Some? ==> Typed(env, Default(t).value, t) && Empty(Default(t).value)
  {
  }

  predicate Empty(v: Value) {
    match v
    case Prim(SStr(s)) => s == ""
    case Prim(SInt(n)) => n == 0
    case Prim(SBool(b)) => !b
    case Prim(SFloat(r)) => r == 0.0
    case Tup(items) => items == []
    case Dic(entries) => entries == map[]
    case NullOf(_) => true
    case _ => false
  }

  lemma NoTypeKey(types: Fields)
    requires TypeKey !in types
    ensures types - {TypeKey} == types
  {
  }

  lemma FieldedBack(env: Env, id: AltId, which: string, fields: map<string, Value>)
    requires HasOption(env, id, which) && fields.Keys == env[id][which].Keys && fields != map[] && TypeKey !in fields
    requires WhichOf(env, WrittenFields(env, id, which, fields), id) == Some(which)
    requires var json := WrittenFields(env, id, which, fields);
      FieldsCoerce(env, fields, env[id][which], ReadFields(env, json, env[id][which], Dic(json)))
    ensures FromJson(env, Dic(WrittenFields(env, id, which, fields)), Alt(id)) == Some(Inst(id, which, fields))
  {
    var json := WrittenFields(env, id, which, fields);
    var got := ReadFields(env, json, env[id][which], Dic(json));
    NoTypeKey(env[id][which]);
    Constructed(env, id, which, fields, got.value);
    InstFrom(env, id, which, json, got.value);
  }

  lemma InstFrom(env: Env, id: AltId, which: string, json: map<string, Value>, got: map<string, Value>)
    requires HasOption(env, id, which) && WhichOf(env, json, id) == Some(which)
    requires (forall k | k in json :: json[k] < Dic(json)) && ReadFields(env, json, env[id][which] - {TypeKey}, Dic(json)) == Some(got)
    ensures FromJson(env, Dic(json), Alt(id)) == Construct(env, id, which, got)
  {
  }

  lemma NameBack(env: Env, id: AltId, which: string)
    requires HasOption(env, id, which) && env[id][which] == map[]
    ensures ReadsBack(env, Inst(id, which, map[]), Alt(id))
  {
    assert which in WithoutFields(env[id]);
    var v, j := Inst(id, which, map[]), Prim(SStr(which));
    assert FromName(env, which, id) == Some(v);
    BackBy(env, v, Alt(id), j, v);
  }

  function WrittenFields(env: Env, id: AltId, which: string, fields: map<string, Value>): (j: map<string, Value>)
    requires id in env && fields != map[]
    ensures ToJson(env, Inst(id, which, fields)) == Dic(j)
    ensures j.Keys == if UniqueFields(env[id], which) then fields.Keys else fields.Keys + {TypeKey}
    ensures forall f | f in fields && f != TypeKey :: j[f] == ToJson(env, fields[f])
  {
    var json := map f | f in fields :: ToJson(env, fields[f]);
    if UniqueFields(env[id], which) then json else json[TypeKey := Prim(SStr(which))]
  }

  /** An object is read as the alternative it was written from. */
  lemma SearchFinds(env: Env, id: AltId, which: string, fields: map<string, Value>)
    requires WellFormed(env) && HasOption(env, id, which) && fields.Keys == env[id][which].Keys && fields != map[]
    ensures TypeKey !in fields && WhichOf(env, WrittenFields(env, id, which, fields), id) == Some(which)
  {
    SearchExactly(env[id], which);
    assert forall f | f in fields :: ValidName(f);
  }

  lemma Constructed(env: Env, id: AltId, which: string, fields: map<string, Value>, subs: map<string, Value>)
    requires HasOption(env, id, which) && FieldsCoerce(env, fields, env[id][which], Some(subs))
    ensures Construct(env, id, which, subs) == Some(Inst(id, which, fields))
  {
    var types := env[id][which];
    var made := map f | f in types :: Coerce(env, subs[f], types[f]);
    assert AllIn(made).Some? && AllIn(made).value == fields;
    assert made == map f | f in types :: if f in subs then Coerce(env, subs[f], types[f]) else Default(types[f]);
  }

  /*** What is read from other things than were written ***/

  function NumberOf(s: string): int {
    if s == "" then 0 else 10 * NumberOf(s[..|s| - 1]) + (s[|s| - 1] as int - '0' as int)
  }

  /** The decimal digits of a number, without a zero in front. */
  lemma {:induction false} DigitsExactly(n: nat)
    ensures NumberOf(Digits(n)) == n && Digits(n) != "" && (forall c | c in Digits(n) :: '0' <= c <= '9')
    ensures n > 0 ==> Digits(n)[0] != '0'
    ensures n == 0 ==> Digits(n) == "0"
  {
    var d := Digits(n);
    assert d == (if n < 10 then [] else Digits(n / 10)) + ["0123456789"[n % 10]];
    assert d[..|d| - 1] == if n < 10 then [] else Digits(n / 10);
    DigitOf(n % 10);
    if n >= 10 { DigitsExactly(n / 10); }
  }

  lemma DigitOf(k: nat)
    requires k < 10
    ensures "0123456789"[k] as int == '0' as int + k
  {
  }

  /** A whole number where text or a real number is wanted is that number, and a truth value is its name or one or zero. */
  lemma PrimitiveReads(env: Env, n: int, b: bool)
    ensures FromJson(env, Prim(SInt(n)), Float) == Some(Prim(SFloat(n as real)))
    ensures FromJson(env, Prim(SBool(b)), Float) == Some(Prim(SFloat(if b then 1.0 else 0.0)))
    ensures FromJson(env, Prim(SBool(b)), Str) == Some(Prim(SStr(if b then "true" else "false")))
    ensures FromJson(env, Prim(SInt(n)), Int) == Some(Prim(SInt(n))) && FromJson(env, Prim(SBool(b)), Bool) == Some(Prim(SBool(b)))
  {
  }

  /** As text it is written with its sign, if it is negative, and its digits. */
  lemma NumberReads(env: Env, n: int) returns (digits: string)
    ensures FromJson(env, Prim(SInt(n)), Str) == Some(Prim(SStr((if n < 0 then "-" else "") + digits)))
    ensures NumberOf(digits) == (if n < 0 then -n else n) && (forall c | c in digits :: '0' <= c <= '9')
    ensures digits == "0" || (digits != "" && digits[0] != '0')
  {
    digits := Digits(if n < 0 then -n else n);
    DigitsExactly(if n < 0 then -n else n);
    AsText(env, n);
    assert "" + digits == digits;
  }

  lemma AsText(env: Env, n: int)
    ensures FromJson(env, Prim(SInt(n)), Str) == Some(Prim(SStr(if n < 0 then "-" + Digits(-n) else Digits(n))))
  {
  }

  /** A single thing where a list is wanted is a list of it. */
  lemma OneThingReads(env: Env, p: Scalar, e: Type)
    ensures FromJson(env, Prim(p), List(e)) ==
            if p.SFloat? then None
            else if FromJson(env, Prim(p), e).Some? then Some(Tup([FromJson(env, Prim(p), e).value]))
            else None
  {
  }

  /** Of objects that are taken together the keys are all theirs, and the last to name one decides. */
  lemma {:induction false} MergedExactly(rs: seq<Option<Value>>)
    ensures Merged(rs).Some? <==> forall r | r in rs :: r.Some? && r.value.Dic?
    ensures Merged(rs).Some? ==> forall k :: LastHas(rs, k, Merged(rs).value)
  {
    if rs != [] {
      var n := |rs| - 1;
      MergedExactly(rs[..n]);
      assert rs == rs[..n] + [rs[n]];
      if Merged(rs).Some? {
        forall k ensures LastHas(rs, k, Merged(rs).value) {
          assert LastHas(rs[..n], k, Merged(rs[..n]).value);
          LastHasNext(rs, k, Merged(rs[..n]).value);
        }
      }
    }
  }

  ghost predicate LastHas(rs: seq<Option<Value>>, k: string, merged: map<string, Value>) {
    && (k !in merged <==> forall i: nat | i < |rs| :: !HasAt(rs, i, k))
    && (forall i: nat | HasAt(rs, i, k) && (forall j: nat | i < j < |rs| :: !HasAt(rs, j, k)) ::
          k in merged && merged[k] == rs[i].value.entries[k])
  }

  ghost predicate HasAt(rs: seq<Option<Value>>, i: nat, k: string) {
    i < |rs| && rs[i].Some? && rs[i].value.Dic? && k in rs[i].value.entries
  }

  lemma LastHasNext(rs: seq<Option<Value>>, k: string, front: map<string, Value>)
    requires rs != [] && rs[|rs| - 1].Some? && rs[|rs| - 1].value.Dic? && LastHas(rs[..|rs| - 1], k, front)
    ensures LastHas(rs, k, front + rs[|rs| - 1].value.entries)
  {
    var n, before := |rs| - 1, rs[..|rs| - 1];
    var last := rs[n].value.entries;
    forall i: nat | i < n ensures HasAt(rs, i, k) == HasAt(before, i, k) && rs[i] == before[i] { }
    assert HasAt(rs, n, k) <==> k in last;
    if k !in last {
      SameLast(rs, before, k, front);
      assert LastHas(rs, k, front);
    }
  }

  lemma SameLast(rs: seq<Option<Value>>, before: seq<Option<Value>>, k: string, front: map<string, Value>)
    requires rs != [] && before == rs[..|rs| - 1] && !HasAt(rs, |rs| - 1, k) && LastHas(before, k, front)
    ensures LastHas(rs, k, front)
  {
    forall i: nat ensures HasAt(rs, i, k) == HasAt(before, i, k) && (i < |before| ==> rs[i] == before[i]) { }
    forall i: nat | HasAt(rs, i, k) && (forall j: nat | i < j < |rs| :: !HasAt(rs, j, k)) ensures k in front && front[k] == rs[i].value.entries[k] {
      assert HasAt(before, i, k);
    }
  }

  /** A list where a dictionary is wanted is one of dictionaries that are taken together. */
  lemma DictFromList(env: Env, items: seq<Value>, val: Type)
    ensures var rs := seq(|items|, i requires 0 <= i < |items| => FromJson(env, items[i], Dict(val)));
      && FromJson(env, Arr(items), Dict(val)) == (if Merged(rs).Some? then Some(Dic(Merged(rs).value)) else None)
      && FromJson(env, Tup(items), Dict(val)) == FromJson(env, Arr(items), Dict(val))
  {
  }

  /** The one field of the alternative, which is a string. */
  predicate IsSingle(fields: Fields, f: string) {
    fields == map[f := Str]
  }

  /**
   A string is the one field of the only alternative that could take it, if each alternative has fields;
   otherwise it is the name of one without fields, or nothing.
   */
  lemma NameReads(env: Env, s: string, id: AltId)
    requires id in env
    ensures var r := FromJson(env, Prim(SStr(s)), Alt(id));
      && (forall w, f | OnlySingle(env[id], w, f) :: r == Some(Inst(id, w, map[f := Prim(SStr(s))])))
      && ((forall w, f :: !OnlySingle(env[id], w, f)) ==>
            r == if HasOption(env, id, s) && env[id][s] == map[] then Some(Inst(id, s, map[])) else None)
  {
    var single := set w | w in env[id] && TakesString(env[id][w]);
    assert FromJson(env, Prim(SStr(s)), Alt(id)) == FromName(env, s, id);
    forall w, f | OnlySingle(env[id], w, f) ensures FromName(env, s, id) == Some(Inst(id, w, map[f := Prim(SStr(s))])) {
      SingleTakes(env[id][w], f);
      forall x | x in single ensures x == w {
        var g := FieldOf(env[id][x]);
      }
      assert single == {w} && WithoutFields(env[id]) == {};
      ConstructSingle(env, id, w, f, s);
    }
    if |single| == 1 && WithoutFields(env[id]) == {} {
      var w := TheOnly(single);
      OnlyMember(single);
      assert w in single;
      var f := FieldOf(env[id][w]);
      forall x, g | x in env[id] && x != w ensures !IsSingle(env[id][x], g) {
        assert IsSingle(env[id][x], g) ==> x in single by {
          if IsSingle(env[id][x], g) { SingleTakes(env[id][x], g); }
        }
      }
      assert forall x | x in env[id] :: env[id][x] != map[] by {
        assert forall x | x in env[id] && env[id][x] == map[] :: x in WithoutFields(env[id]);
      }
      assert OnlySingle(env[id], w, f);
    }
  }

  ghost predicate OnlySingle(options: map<string, Fields>, w: string, f: string) {
    && w in options && IsSingle(options[w], f)
    && (forall x, g | x in options && x != w :: !IsSingle(options[x], g))
    && forall x | x in options :: options[x] != map[]
  }

  lemma SingleTakes(fields: Fields, f: string)
    requires IsSingle(fields, f)
    ensures TakesString(fields)
  {
    assert fields.Keys == {f};
  }

  lemma FieldOf(fields: Fields) returns (f: string)
    requires TakesString(fields)
    ensures IsSingle(fields, f)
  {
    f := TheOnly(fields.Keys);
    OnlyMember(fields.Keys);
    assert f in fields.Keys && fields.Keys == {f};
    assert fields == map[f := Str];
  }

  lemma ConstructSingle(env: Env, id: AltId, w: string, f: string, s: string)
    requires id in env && w in env[id] && IsSingle(env[id][w], f)
    ensures Construct(env, id, w, map g | g in env[id][w] :: Prim(SStr(s))) == Some(Inst(id, w, map[f := Prim(SStr(s))]))
  {
    var given, got := map[f := Prim(SStr(s))], map g | g in env[id][w] :: Prim(SStr(s));
    ConstructFills(env, id, w, given, got);
    assert FilledIn(env, id, w, given).value.fields == given;
  }

  /*** What does not read back ***/

  /** What a string or an object that is read as a tuple of one part gives for that part. */
  ghost function Token(y: Value): Option<string> {
    if y.Prim? && y.p.SStr? && |y.p.s| == 1 then Some(y.p.s)
    else if y.Dic? && |y.entries| == 1 then Some(TheOnly(y.entries.Keys))
    else None
  }

  /** This string stands for the value. */
  predicate Spells(env: Env, s: string, x: Value, t: Type) {
    var r := FromString(env, s, t);
    r.Some? && Coerce(env, r.value, t) == Some(x)
  }

  /** It is written as one character or an object with one field, and is what that character or field name stands for. */
  ghost predicate NamesItself(env: Env, x: Value, t: Type) {
    var leaves := Flatten([ToJson(env, x)]);
    |leaves| == 1 && Token(leaves[0]).Some? && Spells(env, Token(leaves[0]).value, x, t)
  }

  ghost predicate OnePartSelfNamed(env: Env, x: Value, parts: seq<Type>) {
    |parts| == 1 && x.Tup? && |x.items| == 1 && NamesItself(env, x.items[0], parts[0])
  }

  /**
   Tuples in a list are taken apart, and a list of tuples reads back only if all of them come together
   again: exactly when each has a single part that names itself, or there are none.
   */
  lemma TuplesTakenApart(env: Env, items: seq<Value>, parts: seq<Type>)
    requires ValidNames(env) && Typed(env, Tup(items), List(Tuple(parts)))
    ensures ReadsBack(env, Tup(items), List(Tuple(parts))) <==>
            forall x | x in items :: OnePartSelfNamed(env, x, parts)
  {
    if ReadsBack(env, Tup(items), List(Tuple(parts))) {
      LeavesRead(env, items, parts);
      BackNamesItself(env, items, parts);
    }
    if forall x | x in items :: OnePartSelfNamed(env, x, parts) {
      SelfNamedBack(env, items, parts);
    }
  }

  /** What the list is flattened to before its items are read. */
  ghost function LeavesOf(env: Env, items: seq<Value>): seq<Value> {
    Flatten(ToJson(env, Tup(items)).items)
  }

  /** The leaf is read as this tuple. */
  ghost predicate ReadsAs(env: Env, y: Value, x: Value, parts: seq<Type>) {
    var r := FromJson(env, y, Tuple(parts));
    r.Some? && Coerce(env, r.value, Tuple(parts)) == Some(x)
  }

  /** A list of tuples reads back exactly when its leaves do, one for each. */
  lemma LeavesRead(env: Env, items: seq<Value>, parts: seq<Type>)
    requires Typed(env, Tup(items), List(Tuple(parts)))
    ensures ReadsBack(env, Tup(items), List(Tuple(parts))) <==>
            |LeavesOf(env, items)| == |items| && forall i | 0 <= i < |items| :: ReadsAs(env, LeavesOf(env, items)[i], items[i], parts)
  {
    var e, j := Tuple(parts), ToJson(env, Tup(items));
    FlattenBelow(j.items, j);
    var flat := Flatten(j.items);
    var back := FromJson(env, j, List(e));
    assert back == ReadList(env, j, e);
    var r := ReadEach(env, flat, e, j);
    EachRead(env, flat, e, j);
    if r.Some? {
      assert back == Some(Tup(r.value));
      EachCoerced(env, r.value, e, items);
    }
    if |flat| == |items| && forall i | 0 <= i < |items| :: ReadsAs(env, flat[i], items[i], parts) {
      assert r.Some?;
    }
  }

  lemma EachRead(env: Env, items: seq<Value>, e: Type, whole: Value)
    requires forall x | x in items :: x < whole
    ensures var r := ReadEach(env, items, e, whole);
      && (r.Some? <==> forall i | 0 <= i < |items| :: FromJson(env, items[i], e).Some?)
      && (r.Some? ==> |r.value| == |items| && forall i | 0 <= i < |items| :: FromJson(env, items[i], e) == Some(r.value[i]))
  {
    var rs := seq(|items|, i requires 0 <= i < |items| => assert items[i] in items; FromJson(env, items[i], e));
    assert ReadEach(env, items, e, whole) == All(rs);
    assert forall i | 0 <= i < |items| :: rs[i] == FromJson(env, items[i], e);
  }

  lemma EachCoerced(env: Env, got: seq<Value>, e: Type, items: seq<Value>)
    ensures Coerce(env, Tup(got), List(e)) == Some(Tup(items)) <==>
            |got| == |items| && forall i | 0 <= i < |items| :: Coerce(env, got[i], e) == Some(items[i])
  {
    var c := seq(|got|, i requires 0 <= i < |got| => Coerce(env, got[i], e));
    assert forall i | 0 <= i < |got| :: c[i] == Coerce(env, got[i], e);
    if All(c).Some? && |got| == |items| && forall i | 0 <= i < |items| :: Coerce(env, got[i], e) == Some(items[i]) {
      assert All(c).value == items;
    }
  }

  /** A leaf is read as a tuple exactly when there is a string for each part, and each stands for it. */
  lemma ReadsByStrings(env: Env, y: Value, x: Value, parts: seq<Type>)
    requires !y.Arr? && !y.Tup? && x.Tup?
    ensures ReadsAs(env, y, x, parts) <==>
            StringsOf(y).Some? && |StringsOf(y).value| == |parts| == |x.items|
            && forall i | 0 <= i < |parts| :: Spells(env, StringsOf(y).value[i], x.items[i], parts[i])
  {
    if StringsOf(y).Some? {
      StringsRead(env, StringsOf(y).value, x, parts);
      assert FromJson(env, y, Tuple(parts)) == FromStrings(env, StringsOf(y).value, parts);
    } else if !y.Nothing? {
      assert FromJson(env, y, Tuple(parts)) == ReadTuple(env, y, Tuple(parts));
    } else {
      NullReads(env, Tuple(parts));
      assert Coerce(env, Nothing, Tuple(parts)).None?;
    }
  }

  ghost function StringsOf(y: Value): Option<seq<string>> {
    if y.Prim? && y.p.SStr? then Some(Characters(y.p.s))
    else if y.Dic? then Some(InSomeOrder(y.entries.Keys))
    else None
  }

  lemma StringsRead(env: Env, ks: seq<string>, x: Value, parts: seq<Type>)
    requires x.Tup?
    ensures (var r := FromStrings(env, ks, parts); r.Some? && Coerce(env, r.value, Tuple(parts)) == Some(x)) <==>
            |ks| == |parts| == |x.items| && forall i | 0 <= i < |parts| :: Spells(env, ks[i], x.items[i], parts[i])
  {
    if |ks| == |parts| {
      var rs := seq(|parts|, i requires 0 <= i < |parts| => FromString(env, ks[i], parts[i]));
      assert forall i | 0 <= i < |parts| :: rs[i] == FromString(env, ks[i], parts[i]);
      var r := FromStrings(env, ks, parts);
      assert r == if All(rs).Some? then Some(Tup(All(rs).value)) else None;
      if r.Some? {
        PartsCoerced(env, All(rs).value, parts, x.items);
      }
    }
  }

  lemma PartsCoerced(env: Env, got: seq<Value>, parts: seq<Type>, items: seq<Value>)
    requires |got| == |parts|
    ensures Coerce(env, Tup(got), Tuple(parts)) == Some(Tup(items)) <==>
            |items| == |parts| && forall i | 0 <= i < |parts| :: Coerce(env, got[i], parts[i]) == Some(items[i])
  {
    var c := seq(|parts|, i requires 0 <= i < |parts| => Coerce(env, got[i], parts[i]));
    assert forall i | 0 <= i < |parts| :: c[i] == Coerce(env, got[i], parts[i]);
    if |items| == |parts| && forall i | 0 <= i < |parts| :: Coerce(env, got[i], parts[i]) == Some(items[i]) {
      assert All(c).value == items;
    }
  }

  /*** How much is written for what a string stands for ***/

  /** A string, or an object without an empty key. */
  predicate Sayable(y: Value) {
    (y.Prim? && y.p.SStr?) || (y.Dic? && "" !in y.entries)
  }

  /** What a string stands for is written with strings and objects of named fields only, at least one if the string is not empty. */
  lemma {:induction false} SpelledLeaves(env: Env, s: string, x: Value, t: Type)
    requires ValidNames(env) && Spells(env, s, x, t)
    ensures LeavesSayable(env, x) && (s != "" ==> HasLeaf(env, x))
    decreases t
  {
    match t
    case Nullable(sub) =>
      SpelledLeaves(env, s, x.val, sub);
      assert ToJson(env, x) == ToJson(env, x.val);
    case List(e) =>
      ListSpelled(env, s, x, e);
      SpelledLeaves(env, s, x.items[0], e);
      TupSayable(env, x.items);
    case Tuple(parts) =>
      TupleSpelled(env, s, x, parts);
      forall i | 0 <= i < |parts| ensures LeavesSayable(env, x.items[i]) && HasLeaf(env, x.items[i]) {
        SpelledLeaves(env, [s[i]], x.items[i], parts[i]);
      }
      TupSayable(env, x.items);
    case Alt(id) => NamedLeaf(env, s, x, id);
    case _ => FlatStays([ToJson(env, x)]);
  }

  lemma TupSayable(env: Env, items: seq<Value>)
    requires forall i | 0 <= i < |items| :: LeavesSayable(env, items[i])
    ensures LeavesSayable(env, Tup(items))
    ensures items != [] && (forall i | 0 <= i < |items| :: HasLeaf(env, items[i])) ==> HasLeaf(env, Tup(items))
  {
    ManyLeaves(env, items);
  }

  lemma ListSpelled(env: Env, s: string, x: Value, e: Type)
    requires Spells(env, s, x, List(e))
    ensures x.Tup? && |x.items| == 1 && Spells(env, s, x.items[0], e)
  {
    EachCoerced(env, [FromString(env, s, e).value], e, x.items);
  }

  lemma TupleSpelled(env: Env, s: string, x: Value, parts: seq<Type>)
    requires Spells(env, s, x, Tuple(parts))
    ensures x.Tup? && |x.items| == |s| == |parts| && forall i | 0 <= i < |parts| :: Spells(env, [s[i]], x.items[i], parts[i])
  {
    StringsRead(env, Characters(s), x, parts);
  }

  ghost predicate LeavesSayable(env: Env, x: Value) {
    forall y | y in Flatten([ToJson(env, x)]) :: Sayable(y)
  }

  ghost predicate HasLeaf(env: Env, x: Value) {
    Flatten([ToJson(env, x)]) != []
  }

  /** The leaves of a list or tuple, from those of its items. */
  lemma ManyLeaves(env: Env, items: seq<Value>)
    ensures Flatten([ToJson(env, Tup(items))]) == LeavesOf(env, items)
    ensures (forall i | 0 <= i < |items| :: LeavesSayable(env, items[i])) ==> forall y | y in LeavesOf(env, items) :: Sayable(y)
    ensures (forall i | 0 <= i < |items| :: HasLeaf(env, items[i])) ==> |LeavesOf(env, items)| >= |items|
  {
    var js := ToJson(env, Tup(items)).items;
    assert forall i | 0 <= i < |items| :: js[i] == ToJson(env, items[i]);
    assert Flatten([Arr(js)]) == Flatten(js) + Flatten([]);
    forall y | y in Flatten(js) ensures exists i :: 0 <= i < |js| && y in Flatten([js[i]]) {
      LeafOfOne(js, y);
    }
    if forall i | 0 <= i < |items| :: HasLeaf(env, items[i]) {
      assert forall i | 0 <= i < |js| :: HasLeaf(env, items[i]);
      ManyAtLeast(js);
    }
  }

  lemma {:induction false} LeafOfOne(js: seq<Value>, y: Value)
    requires y in Flatten(js)
    ensures exists i :: 0 <= i < |js| && y in Flatten([js[i]])
  {
    FlattenHead(js);
    if y !in Flatten([js[0]]) {
      LeafOfOne(js[1..], y);
      var i :| 0 <= i < |js| - 1 && y in Flatten([js[1..][i]]);
      assert js[1..][i] == js[i + 1];
    }
  }

  lemma FlattenHead(js: seq<Value>)
    requires js != []
    ensures Flatten(js) == Flatten([js[0]]) + Flatten(js[1..])
  {
    assert [js[0]][1..] == [];
  }

  lemma {:induction false} ManyAtLeast(js: seq<Value>)
    requires forall i | 0 <= i < |js| :: Flatten([js[i]]) != []
    ensures |Flatten(js)| >= |js|
    ensures |Flatten(js)| == |js| ==> forall i | 0 <= i < |js| :: Flatten([js[i]]) == [Flatten(js)[i]]
    ensures forall i | 0 <= i < |js| :: |Flatten([js[i]])| > 1 ==> |Flatten(js)| > |js|
  {
    if js != [] {
      FlattenHead(js);
      var rest := js[1..];
      assert forall i | 0 <= i < |rest| :: rest[i] == js[i + 1];
      ManyAtLeast(rest);
      forall i | 0 <= i < |js| && |Flatten(js)| == |js| ensures Flatten([js[i]]) == [Flatten(js)[i]] {
        if i > 0 { assert Flatten([rest[i - 1]]) == [Flatten(rest)[i - 1]]; }
      }
    }
  }

  /** A name is written as itself, and the one field that takes a string as an object with that field. */
  lemma NamedLeaf(env: Env, s: string, x: Value, id: AltId)
    requires ValidNames(env) && Spells(env, s, x, Alt(id))
    ensures Flatten([ToJson(env, x)]) == [ToJson(env, x)] && Sayable(ToJson(env, x))
  {
    NameGives(env, s, x, id);
    FlatStays([ToJson(env, x)]);
    if x.fields != map[] {
      var j := WrittenFields(env, id, x.which, x.fields);
      assert "" !in j;
    }
  }

  lemma NameGives(env: Env, s: string, x: Value, id: AltId)
    requires Spells(env, s, x, Alt(id))
    ensures x.Inst? && x.id == id && id in env && x.which in env[id] && x.fields.Keys == env[id][x.which].Keys
  {
    assert FromString(env, s, Alt(id)) == FromName(env, s, id);
    var r := FromName(env, s, id).value;
    assert Coerce(env, r, Alt(id)) == Some(x);
    var single := set w | w in env[id] && TakesString(env[id][w]);
    if |single| == 1 && WithoutFields(env[id]) == {} {
      var w := TheOnly(single);
      assert w in single;
      var types, subs := env[id][w], map f | f in env[id][w] :: Prim(SStr(s));
      var made := map f | f in types :: if f in subs then Coerce(env, subs[f], types[f]) else None;
      assert x == Inst(id, w, AllIn(made).value);
    }
  }

  /*** Both directions ***/

  lemma BackNamesItself(env: Env, items: seq<Value>, parts: seq<Type>)
    requires ValidNames(env) && Typed(env, Tup(items), List(Tuple(parts))) && |LeavesOf(env, items)| == |items|
    requires forall i | 0 <= i < |items| :: ReadsAs(env, LeavesOf(env, items)[i], items[i], parts)
    ensures forall x | x in items :: OnePartSelfNamed(env, x, parts)
  {
    var flat, js := LeavesOf(env, items), ToJson(env, Tup(items)).items;
    if items != [] && parts == [] {
      NoLeaves(env, items);
    }
    EnoughLeaves(env, items, parts);
    if parts != [] {
      ManyAtLeast(js);
      forall i | 0 <= i < |items| ensures OnePartSelfNamed(env, items[i], parts) {
        assert |Flatten([js[i]])| == 1 && Flatten([js[i]]) == [flat[i]] && js[i] == ToJson(env, items[i]);
        OnePart(env, flat[i], items[i], parts);
      }
    }
  }

  lemma EnoughLeaves(env: Env, items: seq<Value>, parts: seq<Type>)
    requires ValidNames(env) && Typed(env, Tup(items), List(Tuple(parts))) && |LeavesOf(env, items)| == |items|
    requires forall i | 0 <= i < |items| :: ReadsAs(env, LeavesOf(env, items)[i], items[i], parts)
    ensures forall i | 0 <= i < |items| :: |Flatten([ToJson(env, Tup(items)).items[i]])| >= |parts|
  {
    var flat, js := LeavesOf(env, items), ToJson(env, Tup(items)).items;
    forall i | 0 <= i < |items| ensures LeavesSayable(env, items[i]) {
      TupleSayable(env, flat[i], items[i], parts);
    }
    ManyLeaves(env, items);
    forall i | 0 <= i < |items| ensures |Flatten([js[i]])| >= |parts| {
      assert flat[i] in flat && js[i] == ToJson(env, items[i]);
      TupleLeaves(env, flat[i], items[i], parts);
    }
  }

  lemma TupleSayable(env: Env, y: Value, x: Value, parts: seq<Type>)
    requires ValidNames(env) && ReadsAs(env, y, x, parts) && !y.Arr? && !y.Tup? && x.Tup?
    ensures LeavesSayable(env, x)
  {
    ReadsByStrings(env, y, x, parts);
    forall q | 0 <= q < |parts| ensures LeavesSayable(env, x.items[q]) {
      SpelledLeaves(env, StringsOf(y).value[q], x.items[q], parts[q]);
    }
    ManyLeaves(env, x.items);
  }

  lemma TupleLeaves(env: Env, y: Value, x: Value, parts: seq<Type>)
    requires ValidNames(env) && ReadsAs(env, y, x, parts) && Sayable(y) && x.Tup?
    ensures |Flatten([ToJson(env, x)])| >= |parts|
  {
    ReadsByStrings(env, y, x, parts);
    forall q | 0 <= q < |parts| ensures HasLeaf(env, x.items[q]) {
      assert StringsOf(y).value[q] in StringsOf(y).value;
      SpelledLeaves(env, StringsOf(y).value[q], x.items[q], parts[q]);
    }
    ManyLeaves(env, x.items);
  }

  lemma NoLeaves(env: Env, items: seq<Value>)
    requires Typed(env, Tup(items), List(Tuple([])))
    ensures LeavesOf(env, items) == []
  {
    var js := ToJson(env, Tup(items)).items;
    forall i | 0 <= i < |js| ensures js[i] == Arr([]) {
      assert Typed(env, items[i], Tuple([])) && js[i] == ToJson(env, items[i]);
    }
    AllEmpty(js);
  }

  lemma {:induction false} AllEmpty(js: seq<Value>)
    requires forall i | 0 <= i < |js| :: js[i] == Arr([])
    ensures Flatten(js) == []
  {
    if js != [] {
      AllEmpty(js[1..]);
    }
  }

  lemma OnePart(env: Env, y: Value, x: Value, parts: seq<Type>)
    requires ReadsAs(env, y, x, parts) && !y.Arr? && !y.Tup? && x.Tup? && |x.items| == |parts| == 1
    requires Flatten([ToJson(env, x)]) == [y]
    ensures NamesItself(env, x.items[0], parts[0])
  {
    ReadsByStrings(env, y, x, parts);
    TokenIsString(y);
    ManyLeaves(env, x.items);
    OneItem(env, x.items);
  }

  lemma OneItem(env: Env, items: seq<Value>)
    requires |items| == 1
    ensures LeavesOf(env, items) == Flatten([ToJson(env, items[0])])
  {
    var js := ToJson(env, Tup(items)).items;
    assert js == [ToJson(env, items[0])];
  }

  lemma TokenIsString(y: Value)
    ensures Token(y).Some? <==> StringsOf(y).Some? && |StringsOf(y).value| == 1
    ensures Token(y).Some? ==> StringsOf(y).value == [Token(y).value]
  {
    if y.Prim? && y.p.SStr? && |y.p.s| == 1 {
      assert y.p.s == [y.p.s[0]] && StringsOf(y).value == [y.p.s];
    } else if y.Dic? && |y.entries| == 1 {
      var keys := y.entries.Keys;
      var ks := InSomeOrder(keys);
      assert |keys| == 1 && ks == [ks[0]] && ks[0] in ks && TheOnly(keys) in keys;
      OnlyMember(keys);
    }
  }

  lemma SelfNamedBack(env: Env, items: seq<Value>, parts: seq<Type>)
    requires Typed(env, Tup(items), List(Tuple(parts)))
    requires forall x | x in items :: OnePartSelfNamed(env, x, parts)
    ensures ReadsBack(env, Tup(items), List(Tuple(parts)))
  {
    var js := ToJson(env, Tup(items)).items;
    forall i | 0 <= i < |items| ensures |Flatten([js[i]])| == 1 && ReadsAs(env, Flatten([js[i]])[0], items[i], parts) {
      assert items[i] in items && js[i] == ToJson(env, items[i]);
      SelfNamedReads(env, items[i], parts);
    }
    OneLeafEach(js);
    LeavesRead(env, items, parts);
  }

  lemma SelfNamedReads(env: Env, x: Value, parts: seq<Type>)
    requires OnePartSelfNamed(env, x, parts)
    ensures var leaves := Flatten([ToJson(env, x)]); |leaves| == 1 && ReadsAs(env, leaves[0], x, parts)
  {
    ManyLeaves(env, x.items);
    OneItem(env, x.items);
    var y := Flatten([ToJson(env, x)])[0];
    TokenIsString(y);
    ReadsByStrings(env, y, x, parts);
  }

  lemma {:induction false} OneLeafEach(js: seq<Value>)
    requires forall i | 0 <= i < |js| :: |Flatten([js[i]])| == 1
    ensures |Flatten(js)| == |js| && forall i | 0 <= i < |js| :: Flatten(js)[i] == Flatten([js[i]])[0]
  {
    if js != [] {
      FlattenHead(js);
      var rest := js[1..];
      assert forall i | 0 <= i < |rest| :: rest[i] == js[i + 1];
      OneLeafEach(rest);
    }
  }

  /** Of tuples of one string exactly those of one character read back. */
  lemma OneCharacter(env: Env, items: seq<Value>)
    requires ValidNames(env) && Typed(env, Tup(items), List(Tuple([Str])))
    ensures ReadsBack(env, Tup(items), List(Tuple([Str]))) <==> forall x | x in items :: exists c :: x == Tup([Prim(SStr([c]))])
  {
    TuplesTakenApart(env, items, [Str]);
    forall x | x in items ensures OnePartSelfNamed(env, x, [Str]) <==> exists c :: x == Tup([Prim(SStr([c]))]) {
      assert Typed(env, x, Tuple([Str])) && Typed(env, x.items[0], Str);
      FlatStays([x.items[0]]);
      var s := x.items[0].p.s;
      if |s| == 1 { assert s == [s[0]] && x.items == [Prim(SStr([s[0]]))]; }
    }
  }

  lemma NullReads(env: Env, t: Type)
    ensures FromJson(env, Nothing, t) == Some(if t.Dict? then Dic(map[]) else Nothing)
  {
  }

  /** Of a type that allows a missing value twice, all but one kind of value reads back: present, but itself missing. */
  lemma NestedNullExactly(env: Env, v: Value, sub: Type)
    requires WellFormed(env) && Plain(env, Nullable(sub)) && Typed(env, v, Nullable(Nullable(sub)))
    ensures ReadsBack(env, v, Nullable(Nullable(sub))) <==> !(v.ValOf? && v.val.NullOf?)
  {
    assert v.NullOf? || (v.ValOf? && (v.val.ValOf? || v.val.NullOf?));
    if v.NullOf? || v.val.NullOf? {
      NullReads(env, Nullable(Nullable(sub)));
      assert ToJson(env, v) == Nothing;
      assert Coerce(env, Nothing, Nullable(Nullable(sub))) == Some(NullOf(Nullable(sub)));
    } else {
      Shape(env, v.val, Nullable(sub));
      RoundTrip(env, v.val, Nullable(sub));
      var j := ToJson(env, v.val);
      assert FromJson(env, j, Nullable(Nullable(sub))) == ReadPresent(env, j, Nullable(sub));
      BackBy(env, v, Nullable(Nullable(sub)), j, v);
    }
  }

  /** An example of the one that does not. */
  lemma NestedNull(env: Env)
    ensures var v, t := ValOf(Nullable(Int), NullOf(Int)), Nullable(Nullable(Int));
      Typed(env, v, t) && FromJson(env, ToJson(env, v), t) == Some(Nothing) && Coerce(env, Nothing, t) != Some(v)
  {
  }

  /*** The loops ***/

  ghost function Alike(options: map<string, Fields>, among: set<string>, names: set<string>): set<string> {
    set w | w in among && w in options && options[w].Keys == names
  }

  /** Which alternatives are told apart by their fields: one is struck out when another with the same fields turns up. */
  method Freeze(options: map<string, Fields>) returns (unique: set<string>)
    ensures forall w :: w in unique <==> UniqueFields(options, w)
  {
    unique := {};
    var first: map<set<string>, Option<string>> := map[];
    var todo := options.Keys;
    ghost var seen := {};
    while todo != {}
      invariant todo <= options.Keys && seen == options.Keys - todo
      invariant Frozen(options, seen, first, unique)
    {
      var w :| w in todo;
      var names := options[w].Keys;
      ghost var first0, unique0 := first, unique;
      if names !in first {
        first := first[names := Some(w)];
        unique := unique + {w};
      } else {
        if first[names].Some? {
          unique := unique - {first[names].value};
        }
        first := first[names := None];
      }
      FrozenOne(options, seen, first0, unique0, w, first, unique);
      todo, seen := todo - {w}, seen + {w};
    }
    forall w ensures w in unique <==> UniqueFields(options, w) {
      if w in options {
        var alike := Alike(options, seen, options[w].Keys);
        assert w in alike;
        if UniqueFields(options, w) { assert alike == {w}; }
        if alike == {w} {
          forall other | other in options && other != w ensures options[other].Keys != options[w].Keys {
            assert other !in alike;
          }
        }
      }
    }
  }

  /** Of field names seen once, the alternative that has them; of those seen more often, that they were. */
  ghost predicate Frozen(options: map<string, Fields>, seen: set<string>, first: map<set<string>, Option<string>>, unique: set<string>) {
    && (forall names {:trigger Alike(options, seen, names)} {:trigger names in first} :: Noted(first, names, Alike(options, seen, names)))
    && (forall w :: w in unique <==> w in options && Alike(options, seen, options[w].Keys) == {w})
  }

  ghost predicate Noted(first: map<set<string>, Option<string>>, names: set<string>, alike: set<string>) {
    if names !in first then alike == {}
    else if first[names].Some? then alike == {first[names].value}
    else exists u, v :: u in alike && v in alike && u != v
  }

  lemma FrozenOne(options: map<string, Fields>, seen: set<string>, first0: map<set<string>, Option<string>>, unique0: set<string>,
                  w: string, first: map<set<string>, Option<string>>, unique: set<string>)
    requires w in options && w !in seen && Frozen(options, seen, first0, unique0)
    requires var names := options[w].Keys;
      && first == first0[names := if names in first0 then None else Some(w)]
      && unique == if names !in first0 then unique0 + {w} else if first0[names].Some? then unique0 - {first0[names].value} else unique0
    ensures Frozen(options, seen + {w}, first, unique)
  {
    var names := options[w].Keys;
    var was := Alike(options, seen, names);
    assert Noted(first0, names, was);
    forall other ensures Alike(options, seen + {w}, other) == if other == names then was + {w} else Alike(options, seen, other) {
      AlikePlus(options, seen, w, other);
    }
    forall other ensures Noted(first, other, Alike(options, seen + {w}, other)) {
      assert Noted(first0, other, Alike(options, seen, other));
      if other == names && names in first0 {
        var u :| u in was;
        assert u != w;
      }
    }
    forall v ensures v in unique <==> v in options && Alike(options, seen + {w}, options[v].Keys) == {v} {
      assert v in unique0 <==> v in options && Alike(options, seen, options[v].Keys) == {v};
      if v in options && options[v].Keys == names {
        assert w !in was && (v in was <==> v in seen);
        if was != {} {
          var u :| u in was;
          assert u != w && was + {w} != {v};
        }
      }
    }
  }

  lemma AlikePlus(options: map<string, Fields>, seen: set<string>, w: string, names: set<string>)
    requires w in options
    ensures Alike(options, seen + {w}, names) == Alike(options, seen, names) + if options[w].Keys == names then {w} else {}
  {
  }

  /** Field by field, the alternatives that lack the field drop out; extra fields that would rule out all are ignored on request. */
  method Narrow(options: map<string, Fields>, names: set<string>, allowExtra: bool)
    returns (possible: Option<set<string>>, ghost kept: set<string>)
    ensures Fitting(options, names) != {} ==> possible == Some(Fitting(options, names))
    ensures Fitting(options, names) == {} && !allowExtra && names != {} ==> possible.None?
    ensures allowExtra ==> kept <= names && possible == Some(Fitting(options, kept)) && (options != map[] ==> possible.value != {})
    ensures allowExtra ==> forall f, p | f in names && f !in kept && p in possible.value :: p in options && f !in options[p]
  {
    kept := {};
    var now := options.Keys;
    var todo := names;
    ghost var seen := {};
    assert Fitting(options, {}) == options.Keys;
    while todo != {}
      invariant todo <= names && seen == names - todo && now <= options.Keys
      invariant Fitting(options, names) <= now
      invariant !allowExtra ==> now == Fitting(options, seen) && (seen != {} ==> now != {})
      invariant Fitting(options, names) != {} ==> now == Fitting(options, seen)
      invariant allowExtra ==> kept <= seen && now == Fitting(options, kept) && (options != map[] ==> now != {})
      invariant allowExtra ==> forall f, p | f in seen && f !in kept && p in now :: p in options && f !in options[p]
    {
      var f :| f in todo;
      var here := set p | p in now && f in options[p];
      assert now == Fitting(options, seen) ==> here == Fitting(options, seen + {f});
      if allowExtra {
        if here != {} {
          assert here == Fitting(options, kept + {f});
          now, kept := here, kept + {f};
        } else {
          assert forall p | p in now :: p !in here;
        }
      } else {
        now := here;
        if now == {} {
          return None, kept;
        }
      }
      todo, seen := todo - {f}, seen + {f};
    }
    assert seen == names;
    possible := Some(now);
  }
}
