/** The static cast relation between properties and the cast of a value into a property. */
module Casting {
  import opened Wrappers
  import opened Properties

  // ---- Static relation ----

  /** A finite target only accepts finite sources whose every value it lists. */
  predicate EnumAccepts(source: Option<seq<Prim>>, target: Option<seq<Prim>>) {
    target.Some? ==>
      source.Some? && forall i | 0 <= i < |source.value| :: InEnum(Atom(source.value[i]), target.value)
  }

  predicate Numeric(k: Kind) {
    k.BoolK? || k.IntK? || k.FloatK?
  }

  /** What a union target has to accept one by one. */
  function Alternatives(p: Property): seq<Property> {
    if p.kind.UnionK? then p.kind.anyOf else [p]
  }

  /** `_property_can_be_casted_into_property` */
  predicate CanCast(source: Property, target: Property)
    decreases target
  {
    && EnumAccepts(source.enum, target.enum)
    && match target.kind
       case AnyK => true
       case StrK => true
       case BoolK => Numeric(source.kind)
       case IntK => Numeric(source.kind)
       case FloatK => Numeric(source.kind)
       case NullK => source.kind.NullK?
       case MessageK => false
       case VectorK(_, _) => false
       case ListK(item) => source.kind.ListK? && CanCast(source.kind.item, item)
       case DictK(key, value) =>
         || (source.kind.DictK? && CanCast(source.kind.key, key) && CanCast(source.kind.value, value))
         || (&& source.kind.ObjectK?
             && CanCast(Plain(StrK), key)
             && forall i | 0 <= i < |source.kind.fields| :: CanCast(source.kind.fields[i].prop, value))
       case ObjectK(fields) =>
         && source.kind.ObjectK?
         && forall i | 0 <= i < |source.kind.fields| ::
              var f := source.kind.fields[i];
              HasField(fields, f.name) && CanCast(f.prop, FieldOf(fields, f.name))
       case UnionK(anyOf) =>
         forall i | 0 <= i < |Alternatives(source)| :: CastsIntoSome(Alternatives(source)[i], anyOf)
  }

  predicate CastsIntoSome(source: Property, ts: seq<Property>)
    decreases ts
  {
    exists j | 0 <= j < |ts| :: CanCast(source, ts[j])
  }

  // ---- Dynamic cast ----

  /** The exceptions a cast raises: a union catches only the first of them. */
  datatype CastError = ValueError | TypeError | KeyError | AttributeError

  type CastResult = Result<Value, CastError>

  /** `int(value)` rounds toward zero. */
  function Truncate(r: real): int {
    if r >= 0.0 then r.Floor else -((-r).Floor)
  }

  function AsReal(v: Value): real
    requires IsNumber(v)
  {
    Number(v.p).r
  }

  /** `_cast_value_into`; `dumps` stands for JSON serialization. */
  function Cast(v: Value, t: Property, dumps: Value -> string): CastResult
    decreases t, 2
  {
    var r :- TryCast(v, t, dumps);
    if t.enum.Some? && !InEnum(r, t.enum.value) then Raise(TypeError) else Ok(r)
  }

  /** `_try_cast_value_into` */
  function TryCast(v: Value, t: Property, dumps: Value -> string): CastResult
    decreases t, 1
  {
    if IsMember(v, t) || t.kind.AnyK? then Ok(v)
    else
      match t.kind
      case StrK => Ok(Atom(PStr(if v == NoneValue then "" else dumps(v))))
      case FloatK => CastScalar(v, t.kind)
      case IntK => CastScalar(v, t.kind)
      case BoolK => CastScalar(v, t.kind)
      case ListK(item) =>
        if v.ListVal? then
          var items :- CastItems(v.items, item, dumps);
          Ok(ListVal(items))
        else Raise(ValueError)
      case DictK(_, _) =>
        if v.DictVal? then
          var entries :- CastEntries(v.entries, t, dumps);
          Ok(DictVal(entries))
        else Raise(ValueError)
      case ObjectK(fields) =>
        var entries :- CastFields(v, fields, dumps);
        Ok(DictVal(entries))
      case UnionK(anyOf) =>
        if exists i | 0 <= i < |anyOf| :: IsMember(v, anyOf[i]) then Ok(v)
        else CastUnion(v, anyOf, dumps)
      case _ => Raise(ValueError)
  }

  /** The conversions between numbers, in the order the code tries them. */
  function CastScalar(v: Value, k: Kind): CastResult {
    if IsInt(v) && k.FloatK? then Ok(Atom(PFloat(AsReal(v))))
    else if v.Atom? && v.p.PFloat? && k.IntK? then Ok(Atom(PInt(Truncate(v.p.r))))
    else if IsNumber(v) && k.BoolK? then Ok(Atom(PBool(AsReal(v) != 0.0)))
    else if v.Atom? && v.p.PBool? && k.IntK? then Ok(Atom(PInt(if v.p.b then 1 else 0)))
    else Raise(ValueError)
  }

  /** The list comprehension, left to right. */
  function CastItems(vs: seq<Value>, t: Property, dumps: Value -> string): (r: Result<seq<Value>, CastError>)
    ensures r.Ok? ==> |r.value| == |vs|
    decreases t, 3, |vs|
  {
    if vs == [] then Ok([])
    else
      var first :- Cast(vs[0], t, dumps);
      var rest :- CastItems(vs[1..], t, dumps);
      Ok([first] + rest)
  }

  /** The dictionary comprehension: later keys overwrite equal earlier ones. */
  function CastEntries(es: seq<Entry>, t: Property, dumps: Value -> string): Result<seq<Entry>, CastError>
    requires t.kind.DictK?
    decreases t, 0, |es|
  {
    if es == [] then Ok([])
    else
      var n := |es| - 1;
      var done :- CastEntries(es[..n], t, dumps);
      var k :- Cast(Atom(es[n].key), t.kind.key, dumps);
      var v :- Cast(es[n].val, t.kind.value, dumps);
      if k.Atom? then Ok(Put(done, k.p, v)) else Raise(TypeError)  // unhashable key
  }

  /** `{name: _cast_value_into(value[name] or getattr(value, name), property)}` */
  function CastFields(v: Value, fs: seq<Field>, dumps: Value -> string): Result<seq<Entry>, CastError>
    decreases fs
  {
    if fs == [] then Ok([])
    else
      var n := |fs| - 1;
      var done :- CastFields(v, fs[..n], dumps);
      if !HasMember(v, fs[n].name) then Raise(if v.DictVal? then KeyError else AttributeError)
      else
        var x :- Cast(MemberOf(v, fs[n].name), fs[n].prop, dumps);
        Ok(Put(done, PStr(fs[n].name), x))
  }

  /** The first alternative that does not raise `ValueError` decides. */
  function CastUnion(v: Value, ts: seq<Property>, dumps: Value -> string): CastResult
    decreases ts
  {
    if ts == [] then Raise(ValueError)
    else
      var r := Cast(v, ts[0], dumps);
      if r == Raise(ValueError) then CastUnion(v, ts[1..], dumps) else r
  }
}
