/** Default filling: `_validate_or_return_default_value` and `_type_default_value`. */
module Defaults {
  import opened Wrappers
  import opened Properties
  import opened Casting
  import opened CastRelation
  import opened CastSafety

  /** `_type_default_value`: it never looks at an enumeration. */
  function TypeDefault(k: Kind): Value
    decreases k
  {
    match k
    case BoolK => Atom(PBool(false))
    case IntK => Atom(PInt(0))
    case FloatK => Atom(PFloat(0.0))
    case StrK => Atom(PStr(""))
    case NullK => NoneValue
    case AnyK => NoneValue
    case MessageK => MessageVal("")
    case VectorK(dims, _) =>
      ListVal(if dims.Some? then seq(dims.value, i => Atom(PFloat(0.0))) else [])
    case ListK(_) => ListVal([])
    case DictK(_, _) => DictVal([])
    case ObjectK(fields) => DictVal(FieldDefaults(fields))
    case UnionK(anyOf) => if anyOf == [] then NoneValue else TypeDefault(anyOf[0].kind)
  }

  function FieldDefaults(fs: seq<Field>): seq<Entry>
    decreases fs
  {
    if fs == [] then []
    else
      var n := |fs| - 1;
      Put(FieldDefaults(fs[..n]), PStr(fs[n].name), TypeDefault(fs[n].prop.kind))
  }

  /** `value.get(name, None)` */
  function GetOrNone(es: seq<Entry>, name: string): Value {
    if HasKey(es, PStr(name)) then Lookup(es, PStr(name)) else NoneValue
  }

  /** `_validate_or_return_default_value`, with the override of object properties */
  function Fill(p: Property, v: Value, dumps: Value -> string): Value
    decreases p
  {
    if p.kind.ObjectK? then
      if v.DictVal? then DictVal(FillFields(p.kind.fields, v.entries, dumps))
      else if IsMember(v, p) then v
      else TypeDefault(p.kind)
    else if IsMember(v, p) then v
    else if Cast(v, p, dumps).Ok? then Cast(v, p, dumps).value
    else if p.enum.Some? && p.enum.value != [] then Atom(p.enum.value[0])
    else TypeDefault(p.kind)
  }

  function FillFields(fs: seq<Field>, es: seq<Entry>, dumps: Value -> string): seq<Entry>
    decreases fs
  {
    if fs == [] then []
    else
      var n := |fs| - 1;
      Put(FillFields(fs[..n], es, dumps), PStr(fs[n].name), Fill(fs[n].prop, GetOrNone(es, fs[n].name), dumps))
  }

  // ---- When filling is total ----

  /** No enumeration on the way to the value `_type_default_value` builds rules that value out. */
  predicate TypeDefaultFits(p: Property)
    decreases p
  {
    && (p.enum.Some? ==> InEnum(TypeDefault(p.kind), p.enum.value))
    && match p.kind
       case ObjectK(fields) => forall i | 0 <= i < |fields| :: TypeDefaultFits(fields[i].prop)
       case UnionK(anyOf) => anyOf != [] ==> TypeDefaultFits(anyOf[0])
       case _ => true
  }

  /** What filling falls back to when a value is neither a member nor cast. */
  function LastResort(p: Property): Value {
    if !p.kind.ObjectK? && p.enum.Some? && p.enum.value != [] then Atom(p.enum.value[0]) else TypeDefault(p.kind)
  }

  /** The last resort of each property is a value of that property. */
  predicate FallbackFits(p: Property)
    decreases p
  {
    && IsMember(LastResort(p), p)
    && (p.kind.ObjectK? ==> forall i | 0 <= i < |p.kind.fields| :: FallbackFits(p.kind.fields[i].prop))
  }

  lemma {:induction false} TypeDefaultIsMember(p: Property)
    requires Constructible(p) && FieldsUnique(p) && TypeDefaultFits(p)
    ensures IsMember(TypeDefault(p.kind), p)
    decreases p
  {
    match p.kind
    case ObjectK(fields) => FieldDefaultsAreMembers(fields);
    case UnionK(anyOf) => TypeDefaultIsMember(anyOf[0]);
    case _ =>
  }

  lemma {:induction false} FieldDefaultsAreMembers(fs: seq<Field>)
    requires NamesUnique(fs)
    requires forall i | 0 <= i < |fs| ::
               Constructible(fs[i].prop) && FieldsUnique(fs[i].prop) && TypeDefaultFits(fs[i].prop)
    ensures FieldsHold(FieldDefaults(fs), fs)
    decreases fs
  {
    if fs != [] {
      var n := |fs| - 1;
      FieldDefaultsAreMembers(fs[..n]);
      TypeDefaultIsMember(fs[n].prop);
      PutFieldsHold(FieldDefaults(fs[..n]), fs, TypeDefault(fs[n].prop.kind));
    }
  }

  /** Filling returns a value of the property's type, whatever value it is given. */
  lemma {:induction false} FillReturnsMember(p: Property, v: Value, dumps: Value -> string)
    requires Constructible(p) && FieldsUnique(p) && FallbackFits(p)
    ensures IsMember(Fill(p, v, dumps), p)
    decreases p
  {
    if p.kind.ObjectK? {
      if v.DictVal? {
        FillFieldsAreMembers(p.kind.fields, v.entries, dumps);
      }
    } else if !IsMember(v, p) && Cast(v, p, dumps).Ok? {
      CastReturnsMember(v, p, dumps);
    }
  }

  lemma {:induction false} FillFieldsAreMembers(fs: seq<Field>, es: seq<Entry>, dumps: Value -> string)
    requires NamesUnique(fs)
    requires forall i | 0 <= i < |fs| ::
               Constructible(fs[i].prop) && FieldsUnique(fs[i].prop) && FallbackFits(fs[i].prop)
    ensures FieldsHold(FillFields(fs, es, dumps), fs)
    decreases fs
  {
    if fs != [] {
      var n := |fs| - 1;
      FillFieldsAreMembers(fs[..n], es, dumps);
      FillReturnsMember(fs[n].prop, GetOrNone(es, fs[n].name), dumps);
      PutFieldsHold(FillFields(fs[..n], es, dumps), fs, Fill(fs[n].prop, GetOrNone(es, fs[n].name), dumps));
    }
  }

  lemma {:induction false} EnumFreeDefaultFits(p: Property)
    requires EnumFree(p)
    ensures TypeDefaultFits(p)
    decreases p
  {
    match p.kind
    case ObjectK(fields) =>
      forall i | 0 <= i < |fields| ensures TypeDefaultFits(fields[i].prop) {
        EnumFreeDefaultFits(fields[i].prop);
      }
    case UnionK(anyOf) => if anyOf != [] { EnumFreeDefaultFits(anyOf[0]); }
    case _ =>
  }

  lemma {:induction false} EnumFreeFallbackFits(p: Property)
    requires Constructible(p) && FieldsUnique(p) && EnumFree(p)
    ensures FallbackFits(p)
    decreases p
  {
    EnumFreeDefaultFits(p);
    TypeDefaultIsMember(p);
    if p.kind.ObjectK? {
      forall i | 0 <= i < |p.kind.fields| ensures FallbackFits(p.kind.fields[i].prop) {
        EnumFreeFallbackFits(p.kind.fields[i].prop);
      }
    }
  }

  /** On trees without enumerations filling is total outright. */
  lemma {:induction false} FillTotalWithoutEnums(p: Property, v: Value, dumps: Value -> string)
    requires Constructible(p) && FieldsUnique(p) && EnumFree(p)
    ensures IsMember(Fill(p, v, dumps), p)
  {
    EnumFreeFallbackFits(p);
    FillReturnsMember(p, v, dumps);
  }

  /** An enumerated field of an object is filled with the empty string, which it does not list. */
  lemma {:induction false} EnumeratedFieldIsFilledWrongly(dumps: Value -> string) returns (p: Property, v: Value)
    ensures Constructible(p) && FieldsUnique(p) && !IsMember(Fill(p, v, dumps), p)
  {
    var q := Property("", "", None, Some([PStr("a")]), StrK);
    p := Plain(ObjectK([Field("q", q)]));
    v := MessageVal("");
    var fs := p.kind.fields;
    assert KindMember(Atom(q.enum.value[0]), StrK);
    assert !HasMember(v, fs[0].name);
    assert !IsMember(v, p);
    assert fs[..0] == [];
    PutLookup([], PStr("q"), Atom(PStr("")), PStr("q"));
    assert FieldDefaults(fs) == Put([], PStr("q"), Atom(PStr("")));
    assert MemberOf(TypeDefault(p.kind), fs[0].name) == Atom(PStr(""));
    assert !PyEq(PStr(""), PStr("a")) && !IsMember(Atom(PStr("")), fs[0].prop);
  }

  // ---- What filling returns ----

  lemma {:induction false} PutNamed(es: seq<Entry>, n: string, x: Value, other: string)
    ensures HasKey(Put(es, PStr(n), x), PStr(other)) <==> n == other || HasKey(es, PStr(other))
    ensures HasKey(Put(es, PStr(n), x), PStr(other)) ==>
              Lookup(Put(es, PStr(n), x), PStr(other)) == if n == other then x else Lookup(es, PStr(other))
  {
    PutLookup(es, PStr(n), x, PStr(other));
    assert PyEq(PStr(n), PStr(other)) <==> n == other;
  }

  /** Entries put one after the other under different names all stay. */
  function PutAll(fs: seq<Field>, values: Field -> Value): seq<Entry> {
    if fs == [] then []
    else
      var n := |fs| - 1;
      Put(PutAll(fs[..n], values), PStr(fs[n].name), values(fs[n]))
  }

  lemma {:induction false} PutAllHolds(fs: seq<Field>, values: Field -> Value, i: nat)
    requires NamesUnique(fs) && i < |fs|
    ensures HasKey(PutAll(fs, values), PStr(fs[i].name))
    ensures Lookup(PutAll(fs, values), PStr(fs[i].name)) == values(fs[i])
    decreases |fs|
  {
    var n := |fs| - 1;
    PutNamed(PutAll(fs[..n], values), fs[n].name, values(fs[n]), fs[i].name);
    if i < n {
      assert fs[..n][i] == fs[i];
      PutAllHolds(fs[..n], values, i);
    }
  }

  /** The entries have exactly the names of these fields as keys. */
  ghost predicate ExactlyNamed(fs: seq<Field>, es: seq<Entry>) {
    && (forall i | 0 <= i < |fs| :: HasKey(es, PStr(fs[i].name)))
    && forall k | HasKey(es, k) :: k.PStr? && HasField(fs, k.s)
  }

  lemma {:induction false} PutAllKeys(fs: seq<Field>, values: Field -> Value, k: Prim)
    ensures HasKey(PutAll(fs, values), k) <==> k.PStr? && HasField(fs, k.s)
    decreases |fs|
  {
    if fs != [] {
      var n := |fs| - 1;
      PutAllKeys(fs[..n], values, k);
      PutLookup(PutAll(fs[..n], values), PStr(fs[n].name), values(fs[n]), k);
      assert PyEq(PStr(fs[n].name), k) <==> k == PStr(fs[n].name);
      FieldAmong(fs, n, k);
    }
  }

  lemma {:induction false} FieldAmong(fs: seq<Field>, n: nat, k: Prim)
    requires |fs| == n + 1
    ensures k.PStr? ==> (HasField(fs, k.s) <==> HasField(fs[..n], k.s) || fs[n].name == k.s)
  {
    assert forall i | 0 <= i < n :: fs[..n][i] == fs[i];
  }

  lemma {:induction false} PutAllNamed(fs: seq<Field>, values: Field -> Value)
    ensures ExactlyNamed(fs, PutAll(fs, values))
  {
    forall k ensures HasKey(PutAll(fs, values), k) <==> k.PStr? && HasField(fs, k.s) {
      PutAllKeys(fs, values, k);
    }
  }

  lemma {:induction false} FillFieldsPutAll(fs: seq<Field>, es: seq<Entry>, dumps: Value -> string,
    values: Field -> Value)
    requires forall f | f in fs :: values(f) == Fill(f.prop, GetOrNone(es, f.name), dumps)
    ensures FillFields(fs, es, dumps) == PutAll(fs, values)
    decreases |fs|
  {
    if fs != [] {
      FillFieldsPutAll(fs[..|fs| - 1], es, dumps, values);
    }
  }

  lemma {:induction false} FillFieldsHold(fs: seq<Field>, es: seq<Entry>, i: nat, dumps: Value -> string)
    requires NamesUnique(fs) && i < |fs|
    ensures HasKey(FillFields(fs, es, dumps), PStr(fs[i].name))
    ensures Lookup(FillFields(fs, es, dumps), PStr(fs[i].name)) ==
            Fill(fs[i].prop, GetOrNone(es, fs[i].name), dumps)
  {
    var values := (f: Field) => Fill(f.prop, GetOrNone(es, f.name), dumps);
    FillFieldsPutAll(fs, es, dumps, values);
    PutAllHolds(fs, values, i);
  }

  /** Anything but an object keeps a value it can, as the cast leaves it, and only otherwise takes its last resort. */
  lemma {:induction false} FillKeeps(p: Property, v: Value, dumps: Value -> string)
    requires !p.kind.ObjectK?
    ensures IsMember(v, p) ==> Fill(p, v, dumps) == v
    ensures Cast(v, p, dumps).Ok? ==> Fill(p, v, dumps) == Cast(v, p, dumps).value
    ensures Cast(v, p, dumps).Raise? && p.enum.Some? && p.enum.value != [] ==>
              Fill(p, v, dumps) == Atom(p.enum.value[0])
    ensures Cast(v, p, dumps).Raise? && (p.enum.None? || p.enum.value == []) ==>
              Fill(p, v, dumps) == TypeDefault(p.kind)
  {
    assert IsMember(v, p) ==> Cast(v, p, dumps) == Ok(v);
  }

  /** The entries have exactly the names of the fields, each with the filling of what v holds there, or of `None`. */
  ghost predicate HoldsFillings(fs: seq<Field>, v: seq<Entry>, dumps: Value -> string, es: seq<Entry>) {
    && ExactlyNamed(fs, es)
    && forall i | 0 <= i < |fs| ::
         HasKey(es, PStr(fs[i].name)) &&
         Lookup(es, PStr(fs[i].name)) ==
         Fill(fs[i].prop, if HasKey(v, PStr(fs[i].name)) then Lookup(v, PStr(fs[i].name)) else NoneValue, dumps)
  }

  /** An object is filled name by name from a dictionary, and from nothing but a dictionary. */
  lemma {:induction false} FillObject(p: Property, v: Value, dumps: Value -> string)
    requires p.kind.ObjectK? && NamesUnique(p.kind.fields)
    ensures v.DictVal? ==>
              Fill(p, v, dumps).DictVal? && HoldsFillings(p.kind.fields, v.entries, dumps, Fill(p, v, dumps).entries)
    ensures !v.DictVal? ==> Fill(p, v, dumps) == if IsMember(v, p) then v else TypeDefault(p.kind)
  {
    if v.DictVal? {
      var fs := p.kind.fields;
      var values := (f: Field) => Fill(f.prop, GetOrNone(v.entries, f.name), dumps);
      FillFieldsPutAll(fs, v.entries, dumps, values);
      PutAllNamed(fs, values);
      forall i | 0 <= i < |fs| ensures Lookup(PutAll(fs, values), PStr(fs[i].name)) == values(fs[i]) {
        PutAllHolds(fs, values, i);
      }
    }
  }

  /** Type defaults are the empty values: false, zero, no text, no item, zeros, and an object of such values. */
  lemma {:induction false} TypeDefaultIsEmpty(k: Kind)
    requires k.ObjectK? ==> NamesUnique(k.fields)
    ensures k.BoolK? || k.IntK? || k.FloatK? || k.StrK? || k.ListK? || k.DictK? ==>
              KindMember(TypeDefault(k), k) && !Truthy(TypeDefault(k))
    ensures k.NullK? || k.AnyK? ==> TypeDefault(k) == NoneValue
    ensures k.VectorK? ==>
              && TypeDefault(k).ListVal? && |TypeDefault(k).items| == (if k.dims.Some? then k.dims.value else 0)
              && forall i | 0 <= i < |TypeDefault(k).items| :: TypeDefault(k).items[i] == Atom(PFloat(0.0))
    ensures k.MessageK? ==> TypeDefault(k) == MessageVal("")
    ensures k.UnionK? && k.anyOf != [] ==> TypeDefault(k) == TypeDefault(k.anyOf[0].kind)
    ensures k.ObjectK? ==> TypeDefault(k).DictVal? && ExactlyNamed(k.fields, TypeDefault(k).entries)
    ensures k.ObjectK? ==> forall i | 0 <= i < |k.fields| ::
              Lookup(TypeDefault(k).entries, PStr(k.fields[i].name)) == TypeDefault(k.fields[i].prop.kind)
  {
    if k.ObjectK? {
      var values := (f: Field) => TypeDefault(f.prop.kind);
      FieldDefaultsPutAll(k.fields, values);
      PutAllNamed(k.fields, values);
      forall i | 0 <= i < |k.fields|
        ensures Lookup(PutAll(k.fields, values), PStr(k.fields[i].name)) == values(k.fields[i])
      {
        PutAllHolds(k.fields, values, i);
      }
    }
  }

  lemma {:induction false} FieldDefaultsPutAll(fs: seq<Field>, values: Field -> Value)
    requires forall f | f in fs :: values(f) == TypeDefault(f.prop.kind)
    ensures FieldDefaults(fs) == PutAll(fs, values)
    decreases |fs|
  {
    if fs != [] {
      FieldDefaultsPutAll(fs[..|fs| - 1], values);
    }
  }

  // ---- The condition is exact ----

  /** No alternative takes just any value: neither strings nor Any, nor an object without fields. */
  predicate Choosy(p: Property)
    decreases p
  {
    match p.kind
    case StrK => false
    case AnyK => false
    case ObjectK(fields) => fields != []
    case UnionK(anyOf) => forall i | 0 <= i < |anyOf| :: Choosy(anyOf[i])
    case _ => true
  }

  /** A bare object belongs to no such property, and no such property casts it. */
  lemma {:induction false} ChoosyRejects(p: Property, dumps: Value -> string)
    requires Choosy(p)
    ensures !IsMember(ObjVal(map[]), p) && Cast(ObjVal(map[]), p, dumps).Raise?
    decreases p, 1
  {
    var v := ObjVal(map[]);
    match p.kind
    case ObjectK(fields) => BareObjectLacks(fields, dumps);
    case UnionK(anyOf) => ChoosyAlternativesReject(anyOf, dumps);
    case _ =>
  }

  lemma {:induction false} BareObjectLacks(fs: seq<Field>, dumps: Value -> string)
    requires fs != []
    ensures !KindMember(ObjVal(map[]), ObjectK(fs)) && CastFields(ObjVal(map[]), fs, dumps).Raise?
  {
    assert !HasMember(ObjVal(map[]), fs[0].name);
  }

  lemma {:induction false} ChoosyAlternativesReject(ts: seq<Property>, dumps: Value -> string)
    requires forall i | 0 <= i < |ts| :: Choosy(ts[i])
    ensures forall i | 0 <= i < |ts| :: !IsMember(ObjVal(map[]), ts[i])
    ensures CastUnion(ObjVal(map[]), ts, dumps).Raise?
    decreases ts, 0
  {
    if ts != [] {
      ChoosyRejects(ts[0], dumps);
      ChoosyAlternativesReject(ts[1..], dumps);
      assert forall i | 0 < i < |ts| :: ts[i] == ts[1..][i - 1];
    }
  }

  /** The unions that filling meets, on its way through objects, are choosy or without enumerations. */
  predicate DecidedUnions(p: Property)
    decreases p
  {
    match p.kind
    case ObjectK(fields) => forall i | 0 <= i < |fields| :: DecidedUnions(fields[i].prop)
    case UnionK(_) => Choosy(p) || EnumFree(p)
    case _ => true
  }

  /** A property that lists nothing has no member. */
  lemma {:induction false} UnfitPlainFails(p: Property, v: Value)
    requires Constructible(p) && FieldsUnique(p) && !p.kind.ObjectK? && !p.kind.UnionK? && !IsMember(LastResort(p), p)
    ensures !IsMember(v, p)
  {
    if p.enum.Some? && p.enum.value != [] {
      assert PyEq(p.enum.value[0], p.enum.value[0]);
    } else if p.enum.None? {
      TypeDefaultIsMember(p);
    }
  }

  /** A value whose filling is not of the property's type, when some last resort does not fit. */
  lemma {:induction false} UnfitFallbackFails(p: Property, dumps: Value -> string) returns (v: Value)
    requires Constructible(p) && FieldsUnique(p) && DecidedUnions(p) && !FallbackFits(p)
    ensures !IsMember(Fill(p, v, dumps), p)
    decreases p, 1
  {
    v := ObjVal(map[]);
    if p.kind.ObjectK? {
      v := UnfitObjectFails(p, dumps);
    } else if p.kind.UnionK? {
      if EnumFree(p) {
        EnumFreeFallbackFits(p);
      }
      ChoosyRejects(p, dumps);
    } else {
      UnfitPlainFails(p, Fill(p, v, dumps));
    }
  }

  lemma {:induction false} UnfitObjectFails(p: Property, dumps: Value -> string) returns (v: Value)
    requires p.kind.ObjectK? && Constructible(p) && FieldsUnique(p) && DecidedUnions(p) && !FallbackFits(p)
    ensures !IsMember(Fill(p, v, dumps), p)
    decreases p, 0
  {
    var fs := p.kind.fields;
    if IsMember(TypeDefault(p.kind), p) {
      var i :| 0 <= i < |fs| && !FallbackFits(fs[i].prop);
      var w := UnfitFallbackFails(fs[i].prop, dumps);
      v := DictVal([Entry(PStr(fs[i].name), w)]);
      FillFieldsHold(fs, v.entries, i, dumps);
      assert GetOrNone(v.entries, fs[i].name) == w;
      assert MemberOf(Fill(p, v, dumps), fs[i].name) == Fill(fs[i].prop, w, dumps);
    } else {
      v := NoneValue;
      if fs == [] {
        assert KindMember(TypeDefault(p.kind), p.kind);
      } else {
        assert !HasMember(v, fs[0].name);
      }
    }
  }

  /** Filling is total exactly when every last resort fits, unless an enumerated union takes just any value. */
  lemma {:induction false} FillExactly(p: Property, dumps: Value -> string)
    requires Constructible(p) && FieldsUnique(p) && DecidedUnions(p)
    ensures FallbackFits(p) <==> forall v :: IsMember(Fill(p, v, dumps), p)
  {
    if FallbackFits(p) {
      forall v ensures IsMember(Fill(p, v, dumps), p) {
        FillReturnsMember(p, v, dumps);
      }
    } else {
      var v := UnfitFallbackFails(p, dumps);
    }
  }
}
