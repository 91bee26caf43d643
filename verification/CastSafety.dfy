/** What the dynamic cast returns, and when a static cast guarantees that it returns. */
module CastSafety {
  import opened Wrappers
  import opened Properties
  import opened Casting
  import opened CastRelation

  // ---- Soundness: a cast returns a member ----

  /** Whatever a cast returns belongs to the target, enumerations, objects and unions included. */
  lemma {:induction false} CastReturnsMember(v: Value, t: Property, dumps: Value -> string)
    requires Cast(v, t, dumps).Ok?
    requires FieldsUnique(t)
    ensures IsMember(Cast(v, t, dumps).value, t)
    decreases t, 2
  {
    var r := Cast(v, t, dumps).value;
    if !IsMember(v, t) {
      match t.kind
      case ListK(item) => CastItemsAreMembers(v.items, item, dumps);
      case DictK(_, _) => CastEntriesAreMembers(v.entries, t, dumps);
      case ObjectK(fields) => CastFieldsAreMembers(v, fields, dumps);
      case UnionK(anyOf) =>
        if !exists i | 0 <= i < |anyOf| :: IsMember(v, anyOf[i]) {
          CastUnionIsMember(v, anyOf, dumps);
        }
      case _ =>
    }
  }

  lemma {:induction false} CastItemsAreMembers(vs: seq<Value>, t: Property, dumps: Value -> string)
    requires CastItems(vs, t, dumps).Ok? && FieldsUnique(t)
    ensures forall i | 0 <= i < |vs| :: IsMember(CastItems(vs, t, dumps).value[i], t)
    decreases t, 3, |vs|
  {
    if vs != [] {
      CastReturnsMember(vs[0], t, dumps);
      CastItemsAreMembers(vs[1..], t, dumps);
    }
  }

  lemma {:induction false} CastEntriesAreMembers(es: seq<Entry>, t: Property, dumps: Value -> string)
    requires t.kind.DictK? && FieldsUnique(t)
    requires CastEntries(es, t, dumps).Ok?
    ensures var r := CastEntries(es, t, dumps).value;
      forall i | 0 <= i < |r| :: IsMember(Atom(r[i].key), t.kind.key) && IsMember(r[i].val, t.kind.value)
    decreases t, 0, |es|
  {
    if es != [] {
      var n := |es| - 1;
      CastEntriesAreMembers(es[..n], t, dumps);
      CastReturnsMember(Atom(es[n].key), t.kind.key, dumps);
      CastReturnsMember(es[n].val, t.kind.value, dumps);
    }
  }

  /** The entries give every field a value of its type. */
  predicate FieldsHold(es: seq<Entry>, fs: seq<Field>) {
    forall i | 0 <= i < |fs| ::
      HasKey(es, PStr(fs[i].name)) && IsMember(Lookup(es, PStr(fs[i].name)), fs[i].prop)
  }

  lemma {:induction false} PutFieldsHold(es: seq<Entry>, fs: seq<Field>, x: Value)
    requires fs != [] && NamesUnique(fs)
    requires FieldsHold(es, fs[..|fs| - 1]) && IsMember(x, fs[|fs| - 1].prop)
    ensures FieldsHold(Put(es, PStr(fs[|fs| - 1].name), x), fs)
  {
    var n := |fs| - 1;
    forall i | 0 <= i < |fs|
      ensures HasKey(Put(es, PStr(fs[n].name), x), PStr(fs[i].name))
      ensures IsMember(Lookup(Put(es, PStr(fs[n].name), x), PStr(fs[i].name)), fs[i].prop)
    {
      PutLookup(es, PStr(fs[n].name), x, PStr(fs[i].name));
      assert i < n ==> fs[..n][i] == fs[i];
    }
  }

  lemma {:induction false} CastFieldsAreMembers(v: Value, fs: seq<Field>, dumps: Value -> string)
    requires CastFields(v, fs, dumps).Ok? && NamesUnique(fs)
    requires forall i | 0 <= i < |fs| :: FieldsUnique(fs[i].prop)
    ensures FieldsHold(CastFields(v, fs, dumps).value, fs)
    decreases fs
  {
    if fs != [] {
      var n := |fs| - 1;
      CastFieldsAreMembers(v, fs[..n], dumps);
      CastReturnsMember(MemberOf(v, fs[n].name), fs[n].prop, dumps);
      PutFieldsHold(CastFields(v, fs[..n], dumps).value, fs,
                    Cast(MemberOf(v, fs[n].name), fs[n].prop, dumps).value);
    }
  }

  lemma {:induction false} CastUnionIsMember(v: Value, ts: seq<Property>, dumps: Value -> string)
    requires CastUnion(v, ts, dumps).Ok?
    requires forall i | 0 <= i < |ts| :: FieldsUnique(ts[i])
    ensures exists i | 0 <= i < |ts| :: IsMember(CastUnion(v, ts, dumps).value, ts[i])
    decreases ts
  {
    var first := Cast(v, ts[0], dumps);
    if first.Ok? {
      CastReturnsMember(v, ts[0], dumps);
      assert IsMember(first.value, ts[0]);
    } else {
      CastUnionIsMember(v, ts[1..], dumps);
      var i :| 0 <= i < |ts[1..]| && IsMember(CastUnion(v, ts[1..], dumps).value, ts[1..][i]);
      assert ts[i + 1] == ts[1..][i];
    }
  }

  /** A value of the target type passes through unchanged, so casting twice is casting once. */
  lemma {:induction false} CastIdempotent(v: Value, t: Property, dumps: Value -> string)
    requires FieldsUnique(t)
    ensures IsMember(v, t) ==> Cast(v, t, dumps) == Ok(v)
    ensures Cast(v, t, dumps).Ok? ==>
      Cast(Cast(v, t, dumps).value, t, dumps) == Cast(v, t, dumps)
  {
    if Cast(v, t, dumps).Ok? {
      CastReturnsMember(v, t, dumps);
    }
  }

  // ---- Static castability implies dynamic success ----

  predicate ObjectFree(p: Property)
    decreases p
  {
    match p.kind
    case ListK(item) => ObjectFree(item)
    case DictK(key, value) => ObjectFree(key) && ObjectFree(value)
    case ObjectK(_) => false
    case UnionK(anyOf) => forall i | 0 <= i < |anyOf| :: ObjectFree(anyOf[i])
    case _ => true
  }

  predicate EnumFree(p: Property)
    decreases p
  {
    && p.enum.None?
    && match p.kind
       case ListK(item) => EnumFree(item)
       case DictK(key, value) => EnumFree(key) && EnumFree(value)
       case ObjectK(fields) => forall i | 0 <= i < |fields| :: EnumFree(fields[i].prop)
       case UnionK(anyOf) => forall i | 0 <= i < |anyOf| :: EnumFree(anyOf[i])
       case _ => true
  }

  /**
   * The pairs on which the static relation can be trusted. A union only survives `ValueError`, so
   * neither enumerations nor objects may appear below one; an object target must be matched name by
   * name, because the cast reads every name of the target.
   */
  predicate CastSafe(source: Property, target: Property)
    decreases target
  {
    match target.kind
    case ListK(item) => source.kind.ListK? ==> CastSafe(source.kind.item, item)
    case DictK(key, value) =>
      && !source.kind.ObjectK?
      && (source.kind.DictK? ==> CastSafe(source.kind.key, key) && CastSafe(source.kind.value, value))
    case ObjectK(fields) =>
      source.kind.ObjectK? ==>
        && (forall j | 0 <= j < |fields| :: HasField(source.kind.fields, fields[j].name))
        && (forall i | 0 <= i < |source.kind.fields| ::
              HasField(fields, source.kind.fields[i].name) ==>
                CastSafe(source.kind.fields[i].prop, FieldOf(fields, source.kind.fields[i].name)))
    case UnionK(anyOf) =>
      && target.enum.None?
      && ObjectFree(source)
      && forall j | 0 <= j < |anyOf| :: ObjectFree(anyOf[j]) && EnumFree(anyOf[j])
    case _ => true
  }

  lemma {:induction false} FreeIsCastSafe(source: Property, target: Property)
    requires ObjectFree(source) && ObjectFree(target) && EnumFree(target)
    ensures CastSafe(source, target)
    decreases target
  {
    match target.kind
    case ListK(item) => if source.kind.ListK? { FreeIsCastSafe(source.kind.item, item); }
    case DictK(key, value) =>
      if source.kind.DictK? {
        FreeIsCastSafe(source.kind.key, key);
        FreeIsCastSafe(source.kind.value, value);
      }
    case _ =>
  }

  /** Without enumerations and objects the only exception is the one unions catch, and keys stay hashable. */
  lemma {:induction false} FreeRaisesOnlyValueError(v: Value, t: Property, dumps: Value -> string)
    requires ObjectFree(t) && EnumFree(t)
    ensures var r := Cast(v, t, dumps);
      (r.Ok? || r == Raise(ValueError)) && (v.Atom? && r.Ok? ==> r.value.Atom?)
    decreases t, 2
  {
    match t.kind
    case ListK(item) =>
      if v.ListVal? { FreeItemsRaiseOnlyValueError(v.items, item, dumps); }
    case DictK(_, _) =>
      if v.DictVal? { FreeEntriesRaiseOnlyValueError(v.entries, t, dumps); }
    case UnionK(anyOf) => FreeUnionRaisesOnlyValueError(v, anyOf, dumps);
    case _ =>
  }

  lemma {:induction false} FreeItemsRaiseOnlyValueError(vs: seq<Value>, t: Property, dumps: Value -> string)
    requires ObjectFree(t) && EnumFree(t)
    ensures var r := CastItems(vs, t, dumps); r.Ok? || r == Raise(ValueError)
    decreases t, 3, |vs|
  {
    if vs != [] {
      FreeRaisesOnlyValueError(vs[0], t, dumps);
      FreeItemsRaiseOnlyValueError(vs[1..], t, dumps);
    }
  }

  lemma {:induction false} FreeEntriesRaiseOnlyValueError(es: seq<Entry>, t: Property, dumps: Value -> string)
    requires t.kind.DictK? && ObjectFree(t) && EnumFree(t)
    ensures var r := CastEntries(es, t, dumps); r.Ok? || r == Raise(ValueError)
    decreases t, 0, |es|
  {
    if es != [] {
      var n := |es| - 1;
      FreeEntriesRaiseOnlyValueError(es[..n], t, dumps);
      FreeRaisesOnlyValueError(Atom(es[n].key), t.kind.key, dumps);
      FreeRaisesOnlyValueError(es[n].val, t.kind.value, dumps);
    }
  }

  lemma {:induction false} FreeUnionRaisesOnlyValueError(v: Value, ts: seq<Property>, dumps: Value -> string)
    requires forall i | 0 <= i < |ts| :: ObjectFree(ts[i]) && EnumFree(ts[i])
    ensures var r := CastUnion(v, ts, dumps);
      && (r.Ok? || r == Raise(ValueError))
      && (v.Atom? && r.Ok? ==> r.value.Atom?)
      && (r.Ok? <==> exists i | 0 <= i < |ts| :: Cast(v, ts[i], dumps).Ok?)
    decreases ts
  {
    if ts != [] {
      FreeRaisesOnlyValueError(v, ts[0], dumps);
      FreeUnionRaisesOnlyValueError(v, ts[1..], dumps);
      if i :| 0 <= i < |ts| && Cast(v, ts[i], dumps).Ok? && i > 0 {
        assert ts[1..][i - 1] == ts[i];
      }
      if i :| 0 <= i < |ts[1..]| && Cast(v, ts[1..][i], dumps).Ok? {
        assert ts[i + 1] == ts[1..][i];
      }
    }
  }

  /**
   * If the static relation holds, every value of the source type is cast without an exception,
   * whatever the order of union alternatives.
   */
  lemma {:induction false} StaticCastSucceeds(v: Value, source: Property, target: Property, dumps: Value -> string)
    requires IsMember(v, source) && CanCast(source, target)
    requires CastSafe(source, target) && Constructible(target) && FieldsUnique(target)
    ensures Cast(v, target, dumps).Ok?
    ensures v.Atom? ==> Cast(v, target, dumps).value.Atom?
    decreases target, 2
  {
    if !IsMember(v, target) {
      EnumOnlyOnScalars(v, source, target);
      match target.kind
      case ListK(item) => StaticCastItems(v.items, source.kind.item, item, dumps);
      case DictK(_, _) => StaticCastEntries(v.entries, source, target, dumps);
      case ObjectK(fields) =>
        StaticCastFields(v, source, target, fields, dumps);
        if v.Atom? {
          AtomHasNoField(v, source.kind.fields, fields);
          assert false;
        }
      case UnionK(anyOf) =>
        FreeUnionRaisesOnlyValueError(v, anyOf, dumps);
        StaticCastUnion(v, source, target, dumps);
      case _ => StaticCastScalar(v, source, target, dumps);
    }
  }

  /** A value that meets the enumeration of its source meets that of the target; only scalars have one. */
  lemma {:induction false} EnumOnlyOnScalars(v: Value, source: Property, target: Property)
    requires IsMember(v, source) && CanCast(source, target) && EnumFits(target)
    ensures target.enum.Some? ==> target.kind.Simple() && InEnum(v, target.enum.value)
  {
    if target.enum.Some? {
      var j :| 0 <= j < |source.enum.value| && PyEq(v.p, source.enum.value[j]);
      var k :| 0 <= k < |target.enum.value| && PyEq(source.enum.value[j], target.enum.value[k]);
      assert PyEq(v.p, target.enum.value[k]);
    }
  }

  /** A conversion between numbers keeps the value equal to the listed one it was equal to. */
  lemma {:induction false} StaticCastScalar(v: Value, source: Property, target: Property, dumps: Value -> string)
    requires IsMember(v, source) && !IsMember(v, target) && CanCast(source, target) && EnumFits(target)
    requires target.kind.Simple() || target.kind.AnyK?
    requires target.enum.Some? ==> target.kind.Simple() && InEnum(v, target.enum.value)
    ensures Cast(v, target, dumps).Ok?
    ensures v.Atom? ==> Cast(v, target, dumps).value.Atom?
  {
    if target.enum.Some? {
      var k :| 0 <= k < |target.enum.value| && PyEq(v.p, target.enum.value[k]);
      ConversionKeepsNumber(v, target.kind, target.enum.value[k]);
      var r := CastScalar(v, target.kind).value;
      assert PyEq(r.p, target.enum.value[k]);
    }
  }

  lemma {:induction false} ConversionKeepsNumber(v: Value, k: Kind, e: Prim)
    requires v.Atom? && PyEq(v.p, e) && k.Simple() && KindMember(Atom(e), k) && !KindMember(v, k)
    ensures Numeric(k)
    ensures var r := CastScalar(v, k); r.Ok? && r.value.Atom? && PyEq(r.value.p, e)
  {
    if k.IntK? {
      TruncateInt(if e.PInt? then e.i else if e.b then 1 else 0);
    }
  }

  lemma {:induction false} TruncateInt(n: int)
    ensures Truncate(n as real) == n
  {
    if n < 0 {
      assert -(n as real) == (-n) as real;
    }
  }

  /** A scalar is an object only of the property without fields. */
  lemma {:induction false} AtomHasNoField(v: Value, source: seq<Field>, target: seq<Field>)
    requires v.Atom? && KindMember(v, ObjectK(source))
    requires forall j | 0 <= j < |target| :: HasField(source, target[j].name)
    ensures KindMember(v, ObjectK(target))
  {
    assert source != [] ==> HasMember(v, source[0].name);
    assert target != [] ==> HasField(source, target[0].name);
  }

  lemma {:induction false} StaticCastItems(vs: seq<Value>, source: Property, target: Property, dumps: Value -> string)
    requires forall i | 0 <= i < |vs| :: IsMember(vs[i], source)
    requires CanCast(source, target) && CastSafe(source, target) && Constructible(target) && FieldsUnique(target)
    ensures CastItems(vs, target, dumps).Ok?
    decreases target, 3, |vs|
  {
    if vs != [] {
      StaticCastSucceeds(vs[0], source, target, dumps);
      StaticCastItems(vs[1..], source, target, dumps);
    }
  }

  lemma {:induction false} StaticCastEntries(es: seq<Entry>, source: Property, target: Property, dumps: Value -> string)
    requires source.kind.DictK? && target.kind.DictK?
    requires KindMember(DictVal(es), source.kind)
    requires CanCast(source, target) && CastSafe(source, target) && Constructible(target) && FieldsUnique(target)
    ensures CastEntries(es, target, dumps).Ok?
    decreases target, 0, |es|
  {
    if es != [] {
      var n := |es| - 1;
      StaticCastEntries(es[..n], source, target, dumps);
      StaticCastSucceeds(Atom(es[n].key), source.kind.key, target.kind.key, dumps);
      StaticCastSucceeds(es[n].val, source.kind.value, target.kind.value, dumps);
    }
  }

  /** The source property that feeds one field of the target. */
  lemma {:induction false} SourceOfField(v: Value, source: Property, target: Property, n: nat) returns (i: nat)
    requires source.kind.ObjectK? && target.kind.ObjectK? && n < |target.kind.fields|
    requires IsMember(v, source) && CanCast(source, target) && CastSafe(source, target)
    requires NamesUnique(target.kind.fields)
    ensures i < |source.kind.fields|
    ensures HasMember(v, target.kind.fields[n].name)
    ensures IsMember(MemberOf(v, target.kind.fields[n].name), source.kind.fields[i].prop)
    ensures CanCast(source.kind.fields[i].prop, target.kind.fields[n].prop)
    ensures CastSafe(source.kind.fields[i].prop, target.kind.fields[n].prop)
  {
    var f := target.kind.fields[n];
    assert HasField(source.kind.fields, f.name);
    i :| 0 <= i < |source.kind.fields| && source.kind.fields[i].name == f.name;
    assert FieldOf(target.kind.fields, f.name) == f.prop;
  }

  lemma {:induction false} StaticCastFields(
    v: Value, source: Property, target: Property, fs: seq<Field>, dumps: Value -> string)
    requires source.kind.ObjectK? && target.kind.ObjectK? && fs <= target.kind.fields
    requires IsMember(v, source)
    requires CanCast(source, target) && CastSafe(source, target) && Constructible(target) && FieldsUnique(target)
    ensures CastFields(v, fs, dumps).Ok?
    decreases target, 0, |fs|
  {
    if fs != [] {
      var n := |fs| - 1;
      StaticCastFields(v, source, target, fs[..n], dumps);
      var f := target.kind.fields[n];
      var i := SourceOfField(v, source, target, n);
      StaticCastSucceeds(MemberOf(v, f.name), source.kind.fields[i].prop, f.prop, dumps);
    }
  }

  lemma {:induction false} StaticCastUnion(v: Value, source: Property, target: Property, dumps: Value -> string)
    requires IsMember(v, source) && CanCast(source, target) && target.kind.UnionK?
    requires CastSafe(source, target) && Constructible(target) && FieldsUnique(target)
    ensures exists j | 0 <= j < |target.kind.anyOf| :: Cast(v, target.kind.anyOf[j], dumps).Ok?
    decreases target, 0
  {
    var i := 0;
    if source.kind.UnionK? {
      i :| 0 <= i < |source.kind.anyOf| && IsMember(v, source.kind.anyOf[i]);
    }
    var x := Alternatives(source)[i];
    assert CastsIntoSome(x, target.kind.anyOf);
    var j :| 0 <= j < |target.kind.anyOf| && CanCast(x, target.kind.anyOf[j]);
    var t := target.kind.anyOf[j];
    FreeIsCastSafe(x, t);
    StaticCastSucceeds(v, x, t, dumps);
  }

  // ---- Where the static relation promises too much ----

  /** An object target with one name more than the source is statically castable, yet its cast raises. */
  lemma {:induction false} ObjectTargetMayRaise(dumps: Value -> string)
    returns (v: Value, source: Property, target: Property)
    ensures Constructible(source) && Constructible(target)
    ensures IsMember(v, source) && CanCast(source, target) && Cast(v, target, dumps) == Raise(KeyError)
  {
    v := DictVal([]);
    source := Plain(ObjectK([]));
    target := Plain(ObjectK([Field("a", Plain(IntK))]));
    var fs := target.kind.fields;
    assert !HasMember(v, fs[0].name);
    assert fs[..0] == [] && CastFields(v, fs[..0], dumps).Ok?;
    assert !KindMember(v, target.kind);
  }

  /** A value of none of the alternatives is cast into the first that takes it. */
  lemma {:induction false} CastIntoUnion(v: Value, ts: seq<Property>, dumps: Value -> string)
    requires forall i | 0 <= i < |ts| :: !IsMember(v, ts[i])
    ensures Cast(v, Plain(UnionK(ts)), dumps) == CastUnion(v, ts, dumps)
  {
    var t := Plain(UnionK(ts));
    assert !IsMember(v, t);
    assert TryCast(v, t, dumps) == CastUnion(v, t.kind.anyOf, dumps);
  }

  /** An enumerated alternative tried first raises an exception the union does not catch. */
  lemma {:induction false} EnumAlternativeMayRaise(dumps: Value -> string)
    returns (v: Value, source: Property, target: Property)
    ensures Constructible(source) && Constructible(target)
    ensures IsMember(v, source) && CanCast(source, target) && Cast(v, target, dumps) == Raise(TypeError)
  {
    var narrow := Property("", "", None, Some([PInt(1)]), IntK);
    v := Atom(PFloat(5.0));
    source := Plain(FloatK);
    target := Plain(UnionK([narrow, Plain(StrK)]));
    var ts := [narrow, Plain(StrK)];
    assert CanCast(Alternatives(source)[0], ts[1]);
    assert CastsIntoSome(source, ts);
    assert !PyEq(PFloat(5.0), PInt(1));
    assert Cast(v, ts[0], dumps) == Raise(TypeError);
    assert CastUnion(v, ts, dumps) == Raise(TypeError);
    CastIntoUnion(v, ts, dumps);
    assert KindMember(Atom(narrow.enum.value[0]), IntK);
  }
}
