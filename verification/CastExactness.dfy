/** When every cast of a type's members succeeds: for union-free sources, for unions, and for objects. */
module CastExactness {
  import opened Wrappers
  import opened Properties
  import opened Casting
  import opened CastRelation
  import opened CastSafety
  import opened Defaults
  import opened CastValues

  /** Sources built from scalars, Any, lists, and dictionaries whose keys are strings or unconstrained. */
  predicate PlainSource(p: Property)
    decreases p
  {
    && p.enum.None?
    && match p.kind
       case ListK(item) => PlainSource(item)
       case DictK(key, value) => key.enum.None? && (key.kind.StrK? || key.kind.AnyK?) && PlainSource(value)
       case _ => p.kind.Simple() || p.kind.AnyK?
  }

  /** Targets that may nest unions freely, but have no enumeration, object, vector or message. */
  predicate PlainTarget(p: Property) {
    Constructible(p) && FieldsUnique(p) && EnumFree(p) && ObjectFree(p) && VectorAndMessageFree(p)
  }

  /** One member of the source that no target accepts unless the whole source casts into it. */
  function Witness(p: Property): Value
    decreases p
  {
    match p.kind
    case BoolK => Atom(PBool(true))
    case IntK => Atom(PInt(1))
    case FloatK => Atom(PFloat(1.0))
    case StrK => Atom(PStr("x"))
    case ListK(item) => ListVal([Witness(item)])
    case DictK(_, value) => DictVal([Entry(PStr("x"), Witness(value))])
    case NullK => NoneValue
    case _ => ObjVal(map[])
  }

  lemma {:induction false} WitnessIsMember(p: Property)
    requires PlainSource(p)
    ensures IsMember(Witness(p), p)
    decreases p
  {
    match p.kind
    case ListK(item) => WitnessIsMember(item);
    case DictK(key, value) =>
      WitnessIsMember(value);
      assert IsMember(Atom(PStr("x")), key);
    case _ =>
  }

  /** A value of another shape than the target's is not converted. */
  lemma {:induction false} OtherShapeFails(v: Value, t: Property, dumps: Value -> string)
    requires t.enum.None?
    requires match t.kind
      case BoolK => !IsNumber(v)
      case IntK => !IsNumber(v)
      case FloatK => !IsNumber(v)
      case NullK => v != NoneValue
      case ListK(_) => !v.ListVal?
      case DictK(_, _) => !v.DictVal?
      case _ => false
    ensures Cast(v, t, dumps).Raise?
  {
    assert !KindMember(v, t.kind);
  }

  lemma {:induction false} WitnessFails(source: Property, target: Property, dumps: Value -> string)
    requires PlainSource(source) && PlainTarget(target) && !CanCast(source, target)
    ensures Cast(Witness(source), target, dumps).Raise?
    decreases target
  {
    var w := Witness(source);
    match target.kind
    case ListK(item) =>
      if source.kind.ListK? {
        WitnessFails(source.kind.item, item, dumps);
        ListCastFails(w, target, dumps);
      } else {
        OtherShapeFails(w, target, dumps);
      }
    case DictK(key, value) =>
      if source.kind.DictK? {
        StringKeyFails("x", source.kind.key, key, dumps);
        if !CanCast(source.kind.value, value) {
          WitnessFails(source.kind.value, value, dumps);
        }
        DictCastFails(w, target, dumps);
      } else {
        OtherShapeFails(w, target, dumps);
      }
    case UnionK(anyOf) =>
      assert !CastsIntoSome(Alternatives(source)[0], anyOf);
      forall i | 0 <= i < |anyOf|
        ensures Cast(w, anyOf[i], dumps).Raise?
      {
        WitnessFails(source, anyOf[i], dumps);
      }
      UnionCastFails(w, target, dumps);
    case _ => OtherShapeFails(w, target, dumps);
  }

  lemma {:induction false} ListCastFails(v: Value, t: Property, dumps: Value -> string)
    requires t.kind.ListK? && t.enum.None? && FieldsUnique(t) && v.ListVal? && |v.items| == 1
    requires Cast(v.items[0], t.kind.item, dumps).Raise?
    ensures Cast(v, t, dumps).Raise?
  {
    CastIdempotent(v.items[0], t.kind.item, dumps);
    assert !KindMember(v, t.kind);
    assert CastItems(v.items, t.kind.item, dumps).Raise?;
  }

  lemma {:induction false} DictCastFails(v: Value, t: Property, dumps: Value -> string)
    requires t.kind.DictK? && t.enum.None? && FieldsUnique(t) && v.DictVal? && |v.entries| == 1
    requires
      || Cast(Atom(v.entries[0].key), t.kind.key, dumps).Raise?
      || Cast(v.entries[0].val, t.kind.value, dumps).Raise?
    ensures Cast(v, t, dumps).Raise?
  {
    CastIdempotent(Atom(v.entries[0].key), t.kind.key, dumps);
    CastIdempotent(v.entries[0].val, t.kind.value, dumps);
    assert !KindMember(v, t.kind);
    assert v.entries[..0] == [] && CastEntries(v.entries[..0], t, dumps).Ok?;
    assert CastEntries(v.entries, t, dumps).Raise?;
  }

  /** A string key only casts into a target that accepts every string. */
  lemma {:induction false} StringKeyFails(name: string, source: Property, target: Property, dumps: Value -> string)
    requires source.enum.None? && (source.kind.StrK? || source.kind.AnyK?) && PlainTarget(target)
    ensures !CanCast(source, target) ==> Cast(Atom(PStr(name)), target, dumps).Raise?
    decreases target
  {
    var x := Atom(PStr(name));
    if !CanCast(source, target) {
      if target.kind.UnionK? {
        var anyOf := target.kind.anyOf;
        assert !CastsIntoSome(Alternatives(source)[0], anyOf);
        forall i | 0 <= i < |anyOf| ensures Cast(x, anyOf[i], dumps).Raise? {
          StringKeyFails(name, source, anyOf[i], dumps);
        }
        UnionCastFails(x, target, dumps);
      } else {
        OtherShapeFails(x, target, dumps);
      }
    }
  }

  lemma {:induction false} UnionCastFails(v: Value, t: Property, dumps: Value -> string)
    requires PlainTarget(t) && t.kind.UnionK?
    requires forall i | 0 <= i < |t.kind.anyOf| :: Cast(v, t.kind.anyOf[i], dumps).Raise?
    ensures Cast(v, t, dumps).Raise?
  {
    forall i | 0 <= i < |t.kind.anyOf| ensures !IsMember(v, t.kind.anyOf[i]) {
      CastIdempotent(v, t.kind.anyOf[i], dumps);
    }
    FreeUnionRaisesOnlyValueError(v, t.kind.anyOf, dumps);
    assert t == t.(kind := UnionK(t.kind.anyOf));
    assert !KindMember(v, t.kind);
  }

  lemma {:induction false} PlainSourceIsObjectFree(p: Property)
    requires PlainSource(p)
    ensures ObjectFree(p)
    decreases p
  {
    match p.kind
    case ListK(item) => PlainSourceIsObjectFree(item);
    case DictK(_, value) => PlainSourceIsObjectFree(value);
    case _ =>
  }

  /** The static relation is exactly semantic castability. */
  lemma {:induction false} CanCastExact(source: Property, target: Property, dumps: Value -> string)
    requires PlainSource(source) && PlainTarget(target)
    ensures CanCast(source, target) <==>
              forall v | IsMember(v, source) :: Cast(v, target, dumps).Ok?
  {
    if CanCast(source, target) {
      PlainSourceIsObjectFree(source);
      FreeIsCastSafe(source, target);
      forall v | IsMember(v, source) ensures Cast(v, target, dumps).Ok? {
        StaticCastSucceeds(v, source, target, dumps);
      }
    } else {
      WitnessIsMember(source);
      WitnessFails(source, target, dumps);
    }
  }

  /** With a union as source the relation is incomplete: it never looks for one target per alternative. */
  lemma {:induction false} UnionSourceIsIncomplete(dumps: Value -> string) returns (source: Property, target: Property)
    ensures Constructible(source) && PlainTarget(target) && !CanCast(source, target)
    ensures forall v | IsMember(v, source) :: Cast(v, target, dumps).Ok?
  {
    source := Plain(UnionK([Plain(IntK), Plain(FloatK)]));
    target := Plain(IntK);
    forall v | IsMember(v, source) ensures Cast(v, target, dumps).Ok? {
      var i :| 0 <= i < 2 && IsMember(v, source.kind.anyOf[i]);
      assert IsNumber(v);
      IntCast(v, target, dumps);
    }
  }

  /** A union source is sound alternative by alternative, and the relation asks for just that when each is plain. */
  lemma {:induction false} UnionSourceExactly(source: Property, target: Property, dumps: Value -> string)
    requires source.kind.UnionK? && source.enum.None? && PlainTarget(target)
    requires forall i | 0 <= i < |source.kind.anyOf| :: PlainSource(source.kind.anyOf[i])
    ensures (forall v | IsMember(v, source) :: Cast(v, target, dumps).Ok?) <==>
            forall i | 0 <= i < |source.kind.anyOf| :: CanCast(source.kind.anyOf[i], target)
  {
    var anyOf := source.kind.anyOf;
    if forall i | 0 <= i < |anyOf| :: CanCast(anyOf[i], target) {
      forall v | IsMember(v, source) ensures Cast(v, target, dumps).Ok? {
        assert KindMember(v, source.kind);
        var i :| 0 <= i < |anyOf| && IsMember(v, anyOf[i]);
        CanCastExact(anyOf[i], target, dumps);
      }
    } else {
      var i :| 0 <= i < |anyOf| && !CanCast(anyOf[i], target);
      CanCastExact(anyOf[i], target, dumps);
      var v :| IsMember(v, anyOf[i]) && !Cast(v, target, dumps).Ok?;
      assert KindMember(v, source.kind) && IsMember(v, source);
    }
  }

  // ---- Objects: the exact guard ----

  /** Dictionary keys are scalars or unconstrained, as the keys of a Python dictionary must be hashable. */
  predicate ScalarKeys(p: Property)
    decreases p
  {
    match p.kind
    case ListK(item) => ScalarKeys(item)
    case DictK(key, value) => (key.kind.Simple() || key.kind.AnyK?) && ScalarKeys(value)
    case ObjectK(fields) => forall i | 0 <= i < |fields| :: ScalarKeys(fields[i].prop)
    case UnionK(anyOf) => forall i | 0 <= i < |anyOf| :: ScalarKeys(anyOf[i])
    case _ => true
  }

  /** An object with the type's default under every name. */
  function Attributes(fs: seq<Field>): (m: map<string, Value>)
    requires NamesUnique(fs)
    ensures forall i | 0 <= i < |fs| :: fs[i].name in m && m[fs[i].name] == TypeDefault(fs[i].prop.kind)
    ensures forall n | n in m :: HasField(fs, n)
  {
    map i | 0 <= i < |fs| :: fs[i].name := TypeDefault(fs[i].prop.kind)
  }

  lemma {:induction false} DefaultOf(p: Property)
    requires Constructible(p) && FieldsUnique(p) && EnumFree(p)
    ensures IsMember(TypeDefault(p.kind), p)
  {
    EnumFreeDefaultFits(p);
    TypeDefaultIsMember(p);
  }

  /** Replacing one attribute by another value of its type keeps the object a member. */
  lemma {:induction false} ObjectMember(source: Property, i: nat, w: Value)
    requires source.kind.ObjectK? && Constructible(source) && FieldsUnique(source) && EnumFree(source)
    requires i < |source.kind.fields| && IsMember(w, source.kind.fields[i].prop)
    ensures IsMember(ObjVal(Attributes(source.kind.fields)[source.kind.fields[i].name := w]), source)
  {
    var fs := source.kind.fields;
    var v := ObjVal(Attributes(fs)[fs[i].name := w]);
    forall j | 0 <= j < |fs| ensures HasMember(v, fs[j].name) && IsMember(MemberOf(v, fs[j].name), fs[j].prop) {
      DefaultOf(fs[j].prop);
    }
  }

  lemma {:induction false} DefaultObjectMember(source: Property)
    requires source.kind.ObjectK? && Constructible(source) && FieldsUnique(source) && EnumFree(source)
    ensures IsMember(ObjVal(Attributes(source.kind.fields)), source)
  {
    var fs := source.kind.fields;
    var v := ObjVal(Attributes(fs));
    forall j | 0 <= j < |fs| ensures HasMember(v, fs[j].name) && IsMember(MemberOf(v, fs[j].name), fs[j].prop) {
      DefaultOf(fs[j].prop);
    }
  }

  lemma {:induction false} FieldsFail(v: Value, fs: seq<Field>, j: nat, dumps: Value -> string)
    requires j < |fs|
    requires HasMember(v, fs[j].name) ==> Cast(MemberOf(v, fs[j].name), fs[j].prop, dumps).Raise?
    ensures CastFields(v, fs, dumps).Raise?
    decreases |fs|
  {
    if j < |fs| - 1 {
      FieldsFail(v, fs[..|fs| - 1], j, dumps);
    }
  }

  /** An object that lacks a name of the target, or holds a value there that cannot be cast, cannot be cast. */
  lemma {:induction false} ObjectCastFails(v: Value, t: Property, j: nat, dumps: Value -> string)
    requires t.kind.ObjectK? && t.enum.None? && FieldsUnique(t) && j < |t.kind.fields|
    requires var f := t.kind.fields[j]; HasMember(v, f.name) ==> Cast(MemberOf(v, f.name), f.prop, dumps).Raise?
    ensures Cast(v, t, dumps).Raise?
  {
    var f := t.kind.fields[j];
    FieldsFail(v, t.kind.fields, j, dumps);
    if HasMember(v, f.name) {
      CastIdempotent(MemberOf(v, f.name), f.prop, dumps);
    }
    assert !KindMember(v, t.kind);
  }

  /** A pair the static relation accepts without reason, and a member of the source whose cast raises. */
  lemma {:induction false} UnsafeCastFails(source: Property, target: Property, dumps: Value -> string)
    returns (v: Value)
    requires Constructible(source) && FieldsUnique(source) && EnumFree(source) && ScalarKeys(source)
    requires FieldsUnique(target) && EnumFree(target) && UnionFree(target)
    requires CanCast(source, target) && !CastSafe(source, target)
    ensures IsMember(v, source) && Cast(v, target, dumps).Raise?
    decreases target, 1
  {
    match target.kind {
      case ListK(item) =>
        var w := UnsafeCastFails(source.kind.item, item, dumps);
        v := ListVal([w]);
        ListCastFails(v, target, dumps);
      case DictK(_, _) => v := UnsafeDictFails(source, target, dumps);
      case ObjectK(fields) => v := UnsafeObjectFails(source, target, dumps);
    }
  }

  lemma {:induction false} UnsafeDictFails(source: Property, target: Property, dumps: Value -> string)
    returns (v: Value)
    requires Constructible(source) && FieldsUnique(source) && EnumFree(source) && ScalarKeys(source)
    requires FieldsUnique(target) && EnumFree(target) && UnionFree(target) && target.kind.DictK?
    requires CanCast(source, target) && !CastSafe(source, target)
    ensures IsMember(v, source) && Cast(v, target, dumps).Raise?
    decreases target, 0
  {
    if source.kind.ObjectK? {
      v := ObjVal(Attributes(source.kind.fields));
      DefaultObjectMember(source);
      OtherShapeFails(v, target, dumps);
    } else {
      assert CastSafe(source.kind.key, target.kind.key);
      var w := UnsafeCastFails(source.kind.value, target.kind.value, dumps);
      DefaultOf(source.kind.key);
      v := DictVal([Entry(TypeDefault(source.kind.key.kind).p, w)]);
      DictCastFails(v, target, dumps);
    }
  }

  /** Two fields of one name on which the relation accepts without reason. */
  lemma {:induction false} UnsafeField(source: Property, target: Property) returns (i: nat, j: nat)
    requires source.kind.ObjectK? && target.kind.ObjectK? && CanCast(source, target) && !CastSafe(source, target)
    requires forall j | 0 <= j < |target.kind.fields| :: HasField(source.kind.fields, target.kind.fields[j].name)
    ensures i < |source.kind.fields| && j < |target.kind.fields|
    ensures source.kind.fields[i].name == target.kind.fields[j].name
    ensures CanCast(source.kind.fields[i].prop, target.kind.fields[j].prop)
    ensures !CastSafe(source.kind.fields[i].prop, target.kind.fields[j].prop)
  {
    var fs, ts := source.kind.fields, target.kind.fields;
    i :| 0 <= i < |fs| && HasField(ts, fs[i].name) && !CastSafe(fs[i].prop, FieldOf(ts, fs[i].name));
    j :| 0 <= j < |ts| && ts[j].name == fs[i].name && ts[j].prop == FieldOf(ts, fs[i].name);
  }

  lemma {:induction false} UnsafeObjectFails(source: Property, target: Property, dumps: Value -> string)
    returns (v: Value)
    requires Constructible(source) && FieldsUnique(source) && EnumFree(source) && ScalarKeys(source)
    requires FieldsUnique(target) && EnumFree(target) && UnionFree(target) && target.kind.ObjectK?
    requires CanCast(source, target) && !CastSafe(source, target)
    ensures IsMember(v, source) && Cast(v, target, dumps).Raise?
    decreases target, 0
  {
    var fs, ts := source.kind.fields, target.kind.fields;
    if j :| 0 <= j < |ts| && !HasField(fs, ts[j].name) {
      v := ObjVal(Attributes(fs));
      DefaultObjectMember(source);
      ObjectCastFails(v, target, j, dumps);
    } else {
      var i, j := UnsafeField(source, target);
      var w := UnsafeCastFails(fs[i].prop, ts[j].prop, dumps);
      v := FieldCastFails(source, target, i, j, w, dumps);
    }
  }

  lemma {:induction false} FieldCastFails(source: Property, target: Property, i: nat, j: nat, w: Value,
    dumps: Value -> string)
    returns (v: Value)
    requires source.kind.ObjectK? && Constructible(source) && FieldsUnique(source) && EnumFree(source)
    requires target.kind.ObjectK? && target.enum.None? && FieldsUnique(target)
    requires i < |source.kind.fields| && j < |target.kind.fields|
    requires source.kind.fields[i].name == target.kind.fields[j].name
    requires IsMember(w, source.kind.fields[i].prop) && Cast(w, target.kind.fields[j].prop, dumps).Raise?
    ensures IsMember(v, source) && Cast(v, target, dumps).Raise?
  {
    v := ObjVal(Attributes(source.kind.fields)[source.kind.fields[i].name := w]);
    ObjectMember(source, i, w);
    ObjectCastFails(v, target, j, dumps);
  }

  /**
   * Without enumerations, and without unions in the target, a statically castable pair is safe exactly when every
   * member of the source is cast without an exception: `CastSafe` is the guard the relation lacks for objects.
   */
  lemma {:induction false} StaticCastExactly(source: Property, target: Property, dumps: Value -> string)
    requires Constructible(source) && FieldsUnique(source) && EnumFree(source) && ScalarKeys(source)
    requires Constructible(target) && FieldsUnique(target) && EnumFree(target) && UnionFree(target)
    requires CanCast(source, target)
    ensures CastSafe(source, target) <==> forall v | IsMember(v, source) :: Cast(v, target, dumps).Ok?
  {
    if CastSafe(source, target) {
      forall v | IsMember(v, source) ensures Cast(v, target, dumps).Ok? {
        StaticCastSucceeds(v, source, target, dumps);
      }
    } else {
      var v := UnsafeCastFails(source, target, dumps);
    }
  }

  // ---- Scalars into unions with enumerated and object alternatives ----

  /** An object has fields; a number may be enumerated where the source's values are not compared with it one by one. */
  predicate Considered(s: Kind, t: Property) {
    && !t.kind.UnionK?
    && (t.kind.ObjectK? ==> t.kind.fields != [])
    && (t.enum.Some? ==> (t.kind.IntK? || t.kind.FloatK?) && (s.FloatK? || s.StrK? || s.NullK?))
  }

  /** This alternative's exception escapes the union: a missing attribute, or a rounded float it does not list. */
  predicate Stops(s: Kind, t: Property) {
    t.kind.ObjectK? || (t.enum.Some? && t.kind.IntK? && s.FloatK?)
  }

  /** All values of the scalar type belong to the alternative already. */
  predicate Holds(s: Kind, t: Property) {
    t.enum.None? && (t.kind == s || t.kind.AnyK? || (s.BoolK? && t.kind.IntK?))
  }

  /** Some alternative takes the source before one stops the cast. */
  predicate FirstTakes(source: Property, ts: seq<Property>) {
    ts != [] && (CanCast(source, ts[0]) || (!Stops(source.kind, ts[0]) && FirstTakes(source, ts[1..])))
  }

  /** Every scalar of the source meets the same fate at an alternative it does not belong to. */
  lemma {:induction false} AlternativeVerdict(v: Value, source: Property, t: Property, dumps: Value -> string)
    requires source.enum.None? && source.kind.Simple() && Considered(source.kind, t)
    requires IsMember(v, source) && !IsMember(v, t)
    ensures CanCast(source, t) ==> Cast(v, t, dumps).Ok?
    ensures !CanCast(source, t) && !Stops(source.kind, t) ==> Cast(v, t, dumps) == Raise(ValueError)
  {
    assert v.Atom?;
  }

  /** A number above all that the alternatives list. */
  function Above(es: seq<Prim>): (n: nat)
    ensures forall i | 0 <= i < |es| && Number(es[i]).PFloat? :: Number(es[i]).r < n as real
  {
    if es == [] then 0
    else
      var n := Above(es[1..]);
      var p := Number(es[0]);
      var m := if p.PFloat? then p.r.Floor + 1 else 0;
      assert forall i | 0 < i < |es| :: es[i] == es[1..][i - 1];
      if m <= n then n else m
  }

  function AboveAll(ts: seq<Property>): (n: nat)
    ensures forall i | 0 <= i < |ts| && ts[i].enum.Some? :: Above(ts[i].enum.value) <= n
  {
    if ts == [] then 0
    else
      var n := AboveAll(ts[1..]);
      var m := if ts[0].enum.Some? then Above(ts[0].enum.value) else 0;
      assert forall i | 0 < i < |ts| :: ts[i] == ts[1..][i - 1];
      if m <= n then n else m
  }

  lemma {:induction false} AboveIsUnlisted(n: nat, es: seq<Prim>)
    requires Above(es) <= n
    ensures !InEnum(Atom(PFloat(n as real)), es) && !InEnum(Atom(PInt(n)), es)
  {
  }

  /** A value of the scalar type that belongs to no alternative but those that hold all of the type. */
  function Outsider(s: Kind, n: nat): Value
    requires s.Simple()
  {
    match s
    case BoolK => Atom(PBool(true))
    case IntK => Atom(PInt(2))
    case FloatK => Atom(PFloat(n as real))
    case StrK => Atom(PStr("x"))
    case NullK => NoneValue
  }

  lemma {:induction false} OutsiderFails(source: Property, t: Property, n: nat, dumps: Value -> string)
    requires source.enum.None? && source.kind.Simple() && Considered(source.kind, t) && !Holds(source.kind, t)
    requires t.enum.Some? ==> Above(t.enum.value) <= n
    ensures !IsMember(Outsider(source.kind, n), t)
    ensures !CanCast(source, t) ==> Cast(Outsider(source.kind, n), t, dumps).Raise?
    ensures Stops(source.kind, t) ==>
              var r := Cast(Outsider(source.kind, n), t, dumps); r == Raise(AttributeError) || r == Raise(TypeError)
  {
    var w := Outsider(source.kind, n);
    if t.enum.Some? {
      AboveIsUnlisted(n, t.enum.value);
    }
    if t.kind.ObjectK? {
      AtomHasNoAttribute(w, t.kind.fields, dumps);
    }
  }

  lemma {:induction false} AtomHasNoAttribute(v: Value, fs: seq<Field>, dumps: Value -> string)
    requires v.Atom? && fs != []
    ensures !KindMember(v, ObjectK(fs)) && CastFields(v, fs, dumps) == Raise(AttributeError)
    decreases fs
  {
    assert !HasMember(v, fs[0].name);
    if |fs| > 1 {
      AtomHasNoAttribute(v, fs[..|fs| - 1], dumps);
    }
  }

  lemma {:induction false} OutsiderStops(source: Property, ts: seq<Property>, n: nat, dumps: Value -> string)
    requires source.enum.None? && source.kind.Simple() && !FirstTakes(source, ts)
    requires forall i | 0 <= i < |ts| :: Considered(source.kind, ts[i]) && !Holds(source.kind, ts[i])
    requires forall i | 0 <= i < |ts| && ts[i].enum.Some? :: Above(ts[i].enum.value) <= n
    ensures forall i | 0 <= i < |ts| :: !IsMember(Outsider(source.kind, n), ts[i])
    ensures CastUnion(Outsider(source.kind, n), ts, dumps).Raise?
    decreases ts
  {
    forall i | 0 <= i < |ts| ensures !IsMember(Outsider(source.kind, n), ts[i]) {
      OutsiderFails(source, ts[i], n, dumps);
    }
    if ts != [] {
      OutsiderFails(source, ts[0], n, dumps);
      if !Stops(source.kind, ts[0]) {
        AlternativeVerdict(Outsider(source.kind, n), source, ts[0], dumps);
        OutsiderStops(source, ts[1..], n, dumps);
        assert forall i | 0 < i < |ts| :: ts[i] == ts[1..][i - 1];
      }
    }
  }

  lemma {:induction false} TakenAlong(v: Value, source: Property, ts: seq<Property>, dumps: Value -> string)
    requires source.enum.None? && source.kind.Simple() && IsMember(v, source) && FirstTakes(source, ts)
    requires forall i | 0 <= i < |ts| :: Considered(source.kind, ts[i])
    ensures CastUnion(v, ts, dumps).Ok?
    decreases ts
  {
    if IsMember(v, ts[0]) {
      assert Cast(v, ts[0], dumps) == Ok(v);
    } else {
      AlternativeVerdict(v, source, ts[0], dumps);
      if !CanCast(source, ts[0]) {
        TakenAlong(v, source, ts[1..], dumps);
      }
    }
  }

  lemma {:induction false} HeldByUnion(v: Value, source: Property, target: Property, i: nat)
    requires source.enum.None? && source.kind.Simple() && IsMember(v, source)
    requires target.enum.None? && target.kind.UnionK? && i < |target.kind.anyOf|
    requires Holds(source.kind, target.kind.anyOf[i])
    ensures IsMember(v, target)
  {
    assert IsMember(v, target.kind.anyOf[i]);
  }

  /**
   * A scalar type casts into a union with enumerated numbers and objects among its alternatives exactly when one of
   * them holds the type, or the first that does not merely pass the value on takes it.
   */
  lemma {:induction false} ScalarIntoUnionExactly(source: Property, target: Property, dumps: Value -> string)
    requires source.enum.None? && source.kind.Simple() && target.enum.None? && target.kind.UnionK?
    requires forall i | 0 <= i < |target.kind.anyOf| :: Considered(source.kind, target.kind.anyOf[i])
    ensures (forall v | IsMember(v, source) :: Cast(v, target, dumps).Ok?) <==>
              || (exists i :: 0 <= i < |target.kind.anyOf| && Holds(source.kind, target.kind.anyOf[i]))
              || FirstTakes(source, target.kind.anyOf)
  {
    var ts := target.kind.anyOf;
    if i :| 0 <= i < |ts| && Holds(source.kind, ts[i]) {
      forall v | IsMember(v, source) ensures Cast(v, target, dumps).Ok? {
        HeldByUnion(v, source, target, i);
      }
    } else if FirstTakes(source, ts) {
      forall v | IsMember(v, source) ensures Cast(v, target, dumps).Ok? {
        TakenAlong(v, source, ts, dumps);
      }
    } else {
      OutsiderStops(source, ts, AboveAll(ts), dumps);
      OutsiderIsNotCast(source, target, AboveAll(ts), dumps);
    }
  }

  lemma {:induction false} OutsiderIsNotCast(source: Property, target: Property, n: nat, dumps: Value -> string)
    requires source.enum.None? && source.kind.Simple() && target.enum.None? && target.kind.UnionK?
    requires forall i | 0 <= i < |target.kind.anyOf| :: !IsMember(Outsider(source.kind, n), target.kind.anyOf[i])
    requires CastUnion(Outsider(source.kind, n), target.kind.anyOf, dumps).Raise?
    ensures IsMember(Outsider(source.kind, n), source) && Cast(Outsider(source.kind, n), target, dumps).Raise?
  {
    var w := Outsider(source.kind, n);
    assert !KindMember(w, target.kind);
    assert TryCast(w, target, dumps) == CastUnion(w, target.kind.anyOf, dumps);
  }

  // ---- Objects into dictionaries ----

  /** A dictionary with exactly the names of the fields, each holding a value of its type. */
  ghost predicate Record(fs: seq<Field>, v: Value) {
    v.DictVal? && KeysUnique(v.entries) && ExactlyNamed(fs, v.entries) && KindMember(v, ObjectK(fs))
  }

  lemma {:induction false} PutKeepsUnique(es: seq<Entry>, k: Prim, v: Value)
    requires KeysUnique(es)
    ensures KeysUnique(Put(es, k, v))
  {
  }

  lemma {:induction false} PutAllUnique(fs: seq<Field>, values: Field -> Value)
    ensures KeysUnique(PutAll(fs, values))
    decreases |fs|
  {
    if fs != [] {
      var n := |fs| - 1;
      PutAllUnique(fs[..n], values);
      PutKeepsUnique(PutAll(fs[..n], values), PStr(fs[n].name), values(fs[n]));
    }
  }

  function Witnesses(fs: seq<Field>): Value {
    DictVal(PutAll(fs, (f: Field) => Witness(f.prop)))
  }

  lemma {:induction false} WitnessesAreRecord(fs: seq<Field>)
    requires NamesUnique(fs) && forall i | 0 <= i < |fs| :: PlainSource(fs[i].prop)
    ensures Record(fs, Witnesses(fs))
    ensures forall i | 0 <= i < |fs| :: Lookup(Witnesses(fs).entries, PStr(fs[i].name)) == Witness(fs[i].prop)
  {
    var values := (f: Field) => Witness(f.prop);
    PutAllUnique(fs, values);
    PutAllNamed(fs, values);
    var v := Witnesses(fs);
    forall i | 0 <= i < |fs|
      ensures HasMember(v, fs[i].name) && Lookup(v.entries, PStr(fs[i].name)) == Witness(fs[i].prop)
      ensures IsMember(MemberOf(v, fs[i].name), fs[i].prop)
    {
      PutAllHolds(fs, values, i);
      WitnessIsMember(fs[i].prop);
    }
  }

  /** The entry of a record that a field names. */
  lemma {:induction false} RecordEntry(fs: seq<Field>, v: Value, j: nat) returns (i: nat)
    requires Record(fs, v) && j < |v.entries|
    ensures i < |fs| && v.entries[j].key == PStr(fs[i].name) && v.entries[j].val == Lookup(v.entries, PStr(fs[i].name))
    ensures IsMember(v.entries[j].val, fs[i].prop)
  {
    var k := v.entries[j].key;
    IndexOfUnique(v.entries, k, j);
    assert HasKey(v.entries, k) && HasField(fs, k.s);
    i :| 0 <= i < |fs| && fs[i].name == k.s;
    assert HasMember(v, fs[i].name) && IsMember(MemberOf(v, fs[i].name), fs[i].prop);
  }

  lemma {:induction false} RecordCasts(source: Property, target: Property, v: Value, dumps: Value -> string)
    requires source.kind.ObjectK? && target.kind.DictK? && PlainTarget(target) && Record(source.kind.fields, v)
    requires forall i | 0 <= i < |source.kind.fields| :: PlainSource(source.kind.fields[i].prop)
    requires CanCast(source, target)
    ensures Cast(v, target, dumps).Ok?
  {
    var fs := source.kind.fields;
    forall j | 0 <= j < |v.entries| ensures EntryCasts(v.entries[j], target, dumps) {
      var i := RecordEntry(fs, v, j);
      CanCastExact(Plain(StrK), target.kind.key, dumps);
      assert IsMember(Atom(PStr(fs[i].name)), Plain(StrK));
      FreeRaisesOnlyValueError(Atom(PStr(fs[i].name)), target.kind.key, dumps);
      CanCastExact(fs[i].prop, target.kind.value, dumps);
    }
    DictCast(v, target, dumps);
  }

  lemma {:induction false} FieldThatFails(source: Property, target: Property, dumps: Value -> string) returns (i: nat)
    requires source.kind.ObjectK? && source.enum.None? && source.kind.fields != []
    requires forall i | 0 <= i < |source.kind.fields| :: PlainSource(source.kind.fields[i].prop)
    requires target.kind.DictK? && PlainTarget(target) && !CanCast(source, target)
    ensures i < |source.kind.fields|
    ensures var f := source.kind.fields[i];
      || Cast(Atom(PStr(f.name)), target.kind.key, dumps).Raise?
      || Cast(Witness(f.prop), target.kind.value, dumps).Raise?
  {
    var fs := source.kind.fields;
    i := 0;
    if CanCast(Plain(StrK), target.kind.key) {
      i :| 0 <= i < |fs| && !CanCast(fs[i].prop, target.kind.value);
      WitnessFails(fs[i].prop, target.kind.value, dumps);
    } else {
      StringKeyFails(fs[0].name, Plain(StrK), target.kind.key, dumps);
    }
  }

  lemma {:induction false} WitnessesFail(source: Property, target: Property, dumps: Value -> string)
    requires source.kind.ObjectK? && source.enum.None? && NamesUnique(source.kind.fields) && source.kind.fields != []
    requires forall i | 0 <= i < |source.kind.fields| :: PlainSource(source.kind.fields[i].prop)
    requires target.kind.DictK? && PlainTarget(target) && !CanCast(source, target)
    ensures Cast(Witnesses(source.kind.fields), target, dumps).Raise?
  {
    var fs := source.kind.fields;
    var v := Witnesses(fs);
    WitnessesAreRecord(fs);
    var i := FieldThatFails(source, target, dumps);
    var j := IndexOf(v.entries, PStr(fs[i].name));
    assert HasKey(v.entries, PStr(fs[i].name)) && v.entries[j].key == PStr(fs[i].name);
    assert !EntryCasts(v.entries[j], target, dumps);
    DictCast(v, target, dumps);
  }

  /** From an object with fields into a dictionary the relation says exactly that every such record can be cast. */
  lemma {:induction false} ObjectIntoDictExactly(source: Property, target: Property, dumps: Value -> string)
    requires source.kind.ObjectK? && source.enum.None? && NamesUnique(source.kind.fields) && source.kind.fields != []
    requires forall i | 0 <= i < |source.kind.fields| :: PlainSource(source.kind.fields[i].prop)
    requires target.kind.DictK? && PlainTarget(target)
    ensures CanCast(source, target) <==> forall v | Record(source.kind.fields, v) :: Cast(v, target, dumps).Ok?
  {
    if CanCast(source, target) {
      forall v | Record(source.kind.fields, v) ensures Cast(v, target, dumps).Ok? {
        RecordCasts(source, target, v, dumps);
      }
    } else {
      WitnessesAreRecord(source.kind.fields);
      WitnessesFail(source, target, dumps);
    }
  }

  // ---- Enumerations ----

  /** The conversions that keep the number: into the same kind, into floats, and from booleans. */
  predicate KeepsNumber(s: Kind, t: Kind) {
    Numeric(s) && Numeric(t) && (s == t || t.FloatK? || s.BoolK?) && (t.BoolK? ==> s.BoolK?)
  }

  lemma {:induction false} UnlistedFails(v: Value, source: Property, target: Property, dumps: Value -> string)
    requires KeepsNumber(source.kind, target.kind) && target.enum.Some? && EnumFits(target)
    requires KindMember(v, source.kind) && !InEnum(v, target.enum.value)
    ensures Cast(v, target, dumps).Raise?
  {
    EnumeratedCast(v, target, dumps);
    var bare := target.(enum := None);
    match target.kind
    case IntK => IntCast(v, bare, dumps);
    case FloatK => FloatCast(v, bare, dumps);
    case BoolK => BoolCast(v, bare, dumps);
  }

  /** Between enumerated numbers that the conversion keeps the relation is exactly that every member can be cast. */
  lemma {:induction false} EnumeratedExactly(source: Property, target: Property, dumps: Value -> string)
    requires KeepsNumber(source.kind, target.kind) && source.enum.Some? && target.enum.Some?
    requires EnumFits(source) && EnumFits(target)
    ensures CanCast(source, target) <==> forall v | IsMember(v, source) :: Cast(v, target, dumps).Ok?
  {
    if CanCast(source, target) {
      forall v | IsMember(v, source) ensures Cast(v, target, dumps).Ok? {
        StaticCastSucceeds(v, source, target, dumps);
      }
    } else {
      var i :| 0 <= i < |source.enum.value| && !InEnum(Atom(source.enum.value[i]), target.enum.value);
      var v := Atom(source.enum.value[i]);
      assert PyEq(v.p, source.enum.value[i]) && IsMember(v, source);
      UnlistedFails(v, source, target, dumps);
    }
  }

  /** Into a target without enumerations that of the source does not matter. */
  lemma {:induction false} SourceEnumIrrelevant(source: Property, target: Property)
    requires EnumFree(target) && !source.kind.UnionK?
    ensures CanCast(source, target) <==> CanCast(source.(enum := None), target)
    decreases target
  {
    var bare := source.(enum := None);
    if target.kind.UnionK? {
      var ts := target.kind.anyOf;
      forall j | 0 <= j < |ts| ensures CanCast(source, ts[j]) <==> CanCast(bare, ts[j]) {
        SourceEnumIrrelevant(source, ts[j]);
      }
      assert Alternatives(source)[0] == source && Alternatives(bare)[0] == bare;
      assert CanCast(source, target) <==> CastsIntoSome(source, ts);
      assert CanCast(bare, target) <==> CastsIntoSome(bare, ts);
    }
  }
}
