/** Properties printed as JSON schemas and read back. */
module JsonSchema {
  import opened Wrappers
  import opened Properties

  datatype TypeTag = OneType(t: string) | ManyTypes(ts: seq<string>)

  datatype Named = Named(name: string, schema: Schema)

  /** The value of `anyOf`, and that of `properties`, when present. */
  datatype Variants = NoVariants | Variants(list: seq<Schema>)

  datatype Members = NoMembers | Members(list: seq<Named>)

  datatype Additional = AdditionalSchema(schema: Schema) | AdditionalFlag(flag: bool)

  /** The keys of a JSON schema that the printer writes or the parser reads. */
  datatype Schema = Schema(
    title: Option<string>, description: Option<string>, default: Option<Value>, enum: Option<seq<Prim>>,
    typ: Option<TypeTag>, anyOf: Variants, items: Option<Schema>, vector: bool,
    properties: Members, keyType: Option<Schema>, additional: Option<Additional>)

  const EMPTY_SCHEMA := Schema(None, None, None, None, None, NoVariants, None, false, NoMembers, None, None)

  /** Printing a dictionary with typed keys, or building an invalid property, raises `ValueError`. */
  datatype SchemaError = SchemaError

  function Typed(t: string): Schema {
    EMPTY_SCHEMA.(typ := Some(OneType(t)))
  }

  // ---- Printing ----

  /** `to_json_schema` */
  function Print(p: Property): Result<Schema, SchemaError>
    decreases p
  {
    var s :- PrintKind(p.kind);
    Ok(Annotate(s, p))
  }

  function Annotate(s: Schema, p: Property): Schema {
    s.(title := if p.name != "" then Some(p.name) else None,
       description := if p.description != "" then Some(p.description) else None,
       default := p.default,
       enum := p.enum)
  }

  /** `_type_to_json_schema`, class by class */
  function PrintKind(k: Kind): Result<Schema, SchemaError>
    decreases k
  {
    match k
    case BoolK => Ok(Typed("boolean"))
    case IntK => Ok(Typed("integer"))
    case FloatK => Ok(Typed("number"))
    case StrK => Ok(Typed("string"))
    case NullK => Ok(Typed("null"))
    case AnyK => Ok(EMPTY_SCHEMA)
    case MessageK => Ok(Typed("object"))
    case VectorK(_, _) => Ok(Typed("array").(items := Some(Typed("number")), vector := true))
    case ListK(item) =>
      var s :- Print(item);
      Ok(Typed("array").(items := Some(s)))
    case DictK(key, value) =>
      if !key.kind.StrK? && !key.kind.AnyK? then Raise(SchemaError)
      else
        var v :- Print(value);
        var t := Typed("object").(additional := Some(AdditionalSchema(v)));
        if key == Plain(AnyK) then Ok(t)
        else
          var s :- Print(key);
          Ok(t.(keyType := Some(s)))
    case ObjectK(fields) =>
      var ss :- PrintFields(fields);
      Ok(Typed("object").(properties := Members(ss)))
    case UnionK(anyOf) =>
      var ss :- PrintAll(anyOf);
      Ok(EMPTY_SCHEMA.(anyOf := Variants(ss)))
  }

  function PrintAll(ps: seq<Property>): (r: Result<seq<Schema>, SchemaError>)
    ensures r.Ok? ==> |r.value| == |ps|
    decreases ps
  {
    if ps == [] then Ok([])
    else
      var s :- Print(ps[0]);
      var ss :- PrintAll(ps[1..]);
      Ok([s] + ss)
  }

  function PrintFields(fs: seq<Field>): (r: Result<seq<Named>, SchemaError>)
    ensures r.Ok? ==> |r.value| == |fs|
    decreases fs
  {
    if fs == [] then Ok([])
    else
      var s :- Print(fs[0].prop);
      var ss :- PrintFields(fs[1..]);
      Ok([Named(fs[0].name, s)] + ss)
  }

  // ---- Parsing ----

  function Lower(s: string): string {
    seq(|s|, i requires 0 <= i < |s| => if 'A' <= s[i] <= 'Z' then s[i] - 'A' + 'a' else s[i])
  }

  /** The first listed string that differs from the default by its casing only. */
  function MatchCasing(s: string, vals: seq<Prim>): Prim
    decreases vals
  {
    if vals == [] then PStr(s)
    else if vals[0].PStr? && Lower(vals[0].s) == Lower(s) then vals[0]
    else MatchCasing(s, vals[1..])
  }

  function NormalizeDefault(default: Option<Value>, enum: Option<seq<Prim>>): Option<Value> {
    if default.Some? && enum.Some? && default.value.Atom? && default.value.p.PStr?
       && !InEnum(default.value, enum.value)
    then Some(Atom(MatchCasing(default.value.p.s, enum.value)))
    else default
  }

  /** The constructors with `_validate_default_type` set; only a union skips the base `__post_init__`. */
  function Construct(p: Property): Result<Property, SchemaError> {
    if p.kind.UnionK? then if p.kind.anyOf == [] then Raise(SchemaError) else Ok(p)
    else
      var q := p.(default := NormalizeDefault(p.default, p.enum));
      if (q.default.Some? && !IsMember(q.default.value, q)) || !EnumFits(q) then Raise(SchemaError) else Ok(q)
  }

  function OrEmpty(s: Option<string>): string {
    if s.Some? then s.value else ""
  }

  /** `if default_value is None and not any(isinstance(p, NullProperty) for p in types)` */
  function WithNull(types: seq<Property>, default: Option<Value>): seq<Property> {
    if default == Some(NoneValue) && !exists i | 0 <= i < |types| :: types[i].kind.NullK?
    then types + [Plain(NullK)] else types
  }

  /** `from_json_schema` without overrides */
  function Parse(s: Schema): Result<Property, SchemaError>
    decreases s, 2
  {
    var top := Property(OrEmpty(s.title), OrEmpty(s.description), s.default, s.enum, AnyK);
    if s.typ.None? then
      if s.anyOf.Variants? then
        var types :- ParseAll(s.anyOf.list);
        Construct(top.(kind := UnionK(WithNull(types, s.default))))
      else Construct(top)
    else if s.typ.value.ManyTypes? then
      var types :- ParseEach(s, s.typ.value.ts);
      Construct(top.(kind := UnionK(WithNull(types, s.default))))
    else if s.default == Some(NoneValue) && s.typ.value.t != "null" then
      var bare :- ParseBare(s, s.typ.value.t);
      Construct(top.(kind := UnionK([bare, Plain(NullK)])))
    else
      var k :- ParseKind(s, s.typ.value.t);
      Construct(top.(kind := k))
  }

  /** The recursive call on the schema without title, description and default. */
  function ParseBare(s: Schema, t: string): Result<Property, SchemaError>
    decreases s, 1
  {
    var k :- ParseKind(s, t);
    Construct(Property("", "", None, s.enum, k))
  }

  /** A list of type names is a union of the schema read under each of them. */
  function ParseEach(s: Schema, ts: seq<string>): Result<seq<Property>, SchemaError>
    decreases s, 1, |ts|
  {
    if ts == [] then Ok([])
    else
      var k :- ParseKind(s, ts[0]);
      var p :- Construct(Property("", "", None, s.enum, k));
      var ps :- ParseEach(s, ts[1..]);
      Ok([p] + ps)
  }

  function ParseKind(s: Schema, t: string): Result<Kind, SchemaError>
    decreases s, 0
  {
    if t == "boolean" then Ok(BoolK)
    else if t == "integer" then Ok(IntK)
    else if t == "number" then Ok(FloatK)
    else if t == "string" then Ok(StrK)
    else if t == "null" then Ok(NullK)
    else if t == "array" then
      var item :- if s.items.Some? then Parse(s.items.value) else Ok(Plain(AnyK));
      Ok(if s.vector then VectorK(None, false) else ListK(item))
    else if t != "object" then Ok(AnyK)
    else if s.properties.Members? then
      var fields :- ParseFields(s.properties.list);
      Ok(ObjectK(fields))
    else if s.additional.Some? then
      var key :- if s.keyType.Some? then Parse(s.keyType.value) else Ok(Plain(AnyK));
      var value :- if s.additional.value.AdditionalSchema? then Parse(s.additional.value.schema) else Ok(Plain(AnyK));
      Ok(DictK(key, value))
    else Ok(AnyK)
  }

  function ParseAll(ss: seq<Schema>): (r: Result<seq<Property>, SchemaError>)
    ensures r.Ok? ==> |r.value| == |ss|
    decreases ss
  {
    if ss == [] then Ok([])
    else
      var p :- Parse(ss[0]);
      var ps :- ParseAll(ss[1..]);
      Ok([p] + ps)
  }

  function ParseFields(ns: seq<Named>): (r: Result<seq<Field>, SchemaError>)
    ensures r.Ok? ==> |r.value| == |ns|
    decreases ns
  {
    if ns == [] then Ok([])
    else
      var p :- Parse(ns[0].schema);
      var fs :- ParseFields(ns[1..]);
      Ok([Field(ns[0].name, p)] + fs)
  }

  // ---- Round trip ----

  function Reparse(p: Property): Result<Property, SchemaError> {
    var s :- Print(p);
    Parse(s)
  }

  function ReparseAll(ps: seq<Property>): Result<seq<Property>, SchemaError> {
    var ss :- PrintAll(ps);
    ParseAll(ss)
  }

  function ReparseFields(fs: seq<Field>): Result<seq<Field>, SchemaError> {
    var ss :- PrintFields(fs);
    ParseFields(ss)
  }

  /** `__post_init__` has already aligned the casing of every default with its enumeration. */
  predicate DefaultsNormalized(p: Property)
    decreases p
  {
    && (!p.kind.UnionK? ==> NormalizeDefault(p.default, p.enum) == p.default)
    && match p.kind
       case ListK(item) => DefaultsNormalized(item)
       case DictK(key, value) => DefaultsNormalized(key) && DefaultsNormalized(value)
       case ObjectK(fields) => forall i | 0 <= i < |fields| :: DefaultsNormalized(fields[i].prop)
       case UnionK(anyOf) => forall i | 0 <= i < |anyOf| :: DefaultsNormalized(anyOf[i])
       case _ => true
  }

  /** The default of one node survives: well typed, and `None` only where the parser leaves it alone. */
  predicate DefaultSurvives(p: Property) {
    p.default.Some? ==>
      if p.kind.UnionK? then
        p.default.value == NoneValue ==> exists i | 0 <= i < |p.kind.anyOf| :: p.kind.anyOf[i].kind.NullK?
      else
        && IsMember(p.default.value, p)
        && (p.default.value == NoneValue ==> p.kind.NullK? || p.kind.AnyK?)
  }

  /** What a JSON schema can carry. */
  predicate Survives(p: Property)
    decreases p
  {
    && DefaultSurvives(p)
    && match p.kind
       case MessageK => false
       case VectorK(dims, hidden) => dims.None? && !hidden
       case ListK(item) => Survives(item)
       case DictK(key, value) => (key.kind.StrK? || key.kind.AnyK?) && Survives(key) && Survives(value)
       case ObjectK(fields) => forall i | 0 <= i < |fields| :: Survives(fields[i].prop)
       case UnionK(anyOf) => forall i | 0 <= i < |anyOf| :: Survives(anyOf[i])
       case _ => true
  }

  /** One node with a type name: its kind is read back and its default survives. */
  lemma {:induction false} RoundTripTyped(p: Property, base: Schema, t: string)
    requires !p.kind.UnionK? && !p.kind.AnyK? && EnumFits(p)
    requires NormalizeDefault(p.default, p.enum) == p.default
    requires PrintKind(p.kind) == Ok(base) && base.typ == Some(OneType(t))
    requires t == "null" <==> p.kind.NullK?
    ensures Reparse(p) == Ok(p) <==>
              ParseKind(Annotate(base, p), t) == Ok(p.kind) && DefaultSurvives(p)
  {
    var s := Annotate(base, p);
    assert Print(p) == Ok(s);
    if p.default == Some(NoneValue) && !p.kind.NullK? {
      assert Parse(s).Raise? || Parse(s).value.kind.UnionK?;
    } else {
      var k := ParseKind(s, t);
      assert k.Ok? ==> Parse(s) == Construct(p.(kind := k.value));
    }
  }

  lemma {:induction false} RoundTripSimple(p: Property, t: string)
    requires p.kind.Simple() && EnumFits(p) && NormalizeDefault(p.default, p.enum) == p.default
    requires PrintKind(p.kind) == Ok(Typed(t))
    ensures Reparse(p) == Ok(p) <==> DefaultSurvives(p)
  {
    var c := t[0];
    RoundTripTyped(p, Typed(t), t);
    assert ParseKind(Annotate(Typed(t), p), t) == Ok(p.kind);
  }

  lemma {:induction false} RoundTripVector(p: Property)
    requires p.kind.VectorK? && EnumFits(p) && NormalizeDefault(p.default, p.enum) == p.default
    ensures Reparse(p) == Ok(p) <==> p.kind.dims.None? && !p.kind.hidden && DefaultSurvives(p)
  {
    var base := Typed("array").(items := Some(Typed("number")), vector := true);
    assert Parse(Typed("number")).Ok?;
    RoundTripTyped(p, base, "array");
    assert ParseKind(Annotate(base, p), "array") == Ok(VectorK(None, false));
  }

  lemma {:induction false} RoundTripMessage(p: Property)
    requires p.kind.MessageK? && EnumFits(p) && NormalizeDefault(p.default, p.enum) == p.default
    ensures Reparse(p) != Ok(p)
  {
    RoundTripTyped(p, Typed("object"), "object");
    assert ParseKind(Annotate(Typed("object"), p), "object") == Ok(AnyK);
  }

  lemma {:induction false} RoundTripList(p: Property)
    requires p.kind.ListK? && EnumFits(p) && NormalizeDefault(p.default, p.enum) == p.default
    ensures Reparse(p) == Ok(p) <==> Reparse(p.kind.item) == Ok(p.kind.item) && DefaultSurvives(p)
  {
    var item := Print(p.kind.item);
    if item.Ok? {
      var base := Typed("array").(items := Some(item.value));
      assert PrintKind(p.kind) == Ok(base);
      RoundTripTyped(p, base, "array");
      var back := Parse(item.value);
      assert back.Ok? ==> ParseKind(Annotate(base, p), "array") == Ok(ListK(back.value));
    } else {
      assert PrintKind(p.kind).Raise?;
    }
  }

  lemma {:induction false} RoundTripDict(p: Property)
    requires p.kind.DictK? && EnumFits(p) && NormalizeDefault(p.default, p.enum) == p.default
    requires Reparse(Plain(AnyK)) == Ok(Plain(AnyK))
    ensures Reparse(p) == Ok(p) <==>
              && (p.kind.key.kind.StrK? || p.kind.key.kind.AnyK?)
              && Reparse(p.kind.key) == Ok(p.kind.key) && Reparse(p.kind.value) == Ok(p.kind.value)
              && DefaultSurvives(p)
  {
    var key, value := p.kind.key, p.kind.value;
    var v, k := Print(value), Print(key);
    if v.Ok? && k.Ok? && (key.kind.StrK? || key.kind.AnyK?) {
      var base := Typed("object").(additional := Some(AdditionalSchema(v.value)));
      if key != Plain(AnyK) {
        base := base.(keyType := Some(k.value));
      }
      assert PrintKind(p.kind) == Ok(base);
      RoundTripTyped(p, base, "object");
      var value', key' := Parse(v.value), Parse(k.value);
      assert value'.Ok? && key'.Ok? ==>
          ParseKind(Annotate(base, p), "object") == Ok(DictK(key'.value, value'.value));
    } else {
      assert PrintKind(p.kind).Raise?;
    }
  }

  lemma {:induction false} RoundTripObject(p: Property)
    requires p.kind.ObjectK? && EnumFits(p) && NormalizeDefault(p.default, p.enum) == p.default
    ensures Reparse(p) == Ok(p) <==>
              ReparseFields(p.kind.fields) == Ok(p.kind.fields) && DefaultSurvives(p)
  {
    var ns := PrintFields(p.kind.fields);
    if ns.Ok? {
      var base := Typed("object").(properties := Members(ns.value));
      assert PrintKind(p.kind) == Ok(base);
      RoundTripTyped(p, base, "object");
      var back := ParseFields(ns.value);
      assert back.Ok? ==> ParseKind(Annotate(base, p), "object") == Ok(ObjectK(back.value));
    } else {
      assert PrintKind(p.kind).Raise?;
    }
  }

  /** The parser may only append `Null` to the alternatives, which never restores a union. */
  lemma {:induction false} RoundTripUnion(p: Property)
    requires p.kind.UnionK? && p.kind.anyOf != []
    ensures Reparse(p) == Ok(p) <==> ReparseAll(p.kind.anyOf) == Ok(p.kind.anyOf) && DefaultSurvives(p)
  {
    var ss := PrintAll(p.kind.anyOf);
    if ss.Ok? {
      var base := EMPTY_SCHEMA.(anyOf := Variants(ss.value));
      assert PrintKind(p.kind) == Ok(base);
      var s := Annotate(base, p);
      assert Print(p) == Ok(s);
      var back := ParseAll(ss.value);
      if back.Ok? {
        var types := WithNull(back.value, p.default);
        assert types != [] && Parse(s) == Construct(p.(kind := UnionK(types)));
        assert types != back.value ==> |types| == |p.kind.anyOf| + 1;
      }
    } else {
      assert PrintKind(p.kind).Raise?;
    }
  }

  lemma {:induction false} RoundTripAny(p: Property)
    requires p.kind.AnyK? && EnumFits(p) && NormalizeDefault(p.default, p.enum) == p.default
    ensures Reparse(p) == Ok(p) <==> DefaultSurvives(p)
  {
    assert Print(p) == Ok(Annotate(EMPTY_SCHEMA, p));
    assert Reparse(p) == Construct(p);
  }

  /** Reading back what was printed restores a property exactly when every node of it survives. */
  lemma {:induction false} RoundTrip(p: Property)
    requires Constructible(p) && DefaultsNormalized(p)
    ensures Reparse(p) == Ok(p) <==> Survives(p)
    decreases p
  {
    match p.kind
    case BoolK => RoundTripSimple(p, "boolean");
    case IntK => RoundTripSimple(p, "integer");
    case FloatK => RoundTripSimple(p, "number");
    case StrK => RoundTripSimple(p, "string");
    case NullK => RoundTripSimple(p, "null");
    case AnyK => RoundTripAny(p);
    case MessageK => RoundTripMessage(p);
    case VectorK(_, _) => RoundTripVector(p);
    case ListK(item) => RoundTrip(item); RoundTripList(p);
    case DictK(key, value) =>
      RoundTripAny(Plain(AnyK));
      RoundTrip(key);
      RoundTrip(value);
      RoundTripDict(p);
    case ObjectK(fields) => RoundTripFields(fields); RoundTripObject(p);
    case UnionK(anyOf) => RoundTripAll(anyOf); RoundTripUnion(p);
  }

  lemma {:induction false} RoundTripAll(ps: seq<Property>)
    requires forall i | 0 <= i < |ps| :: Constructible(ps[i]) && DefaultsNormalized(ps[i])
    ensures ReparseAll(ps) == Ok(ps) <==> forall i | 0 <= i < |ps| :: Survives(ps[i])
    decreases ps
  {
    if ps != [] {
      RoundTrip(ps[0]);
      RoundTripAll(ps[1..]);
      assert ps == [ps[0]] + ps[1..];
    }
  }

  lemma {:induction false} RoundTripFields(fs: seq<Field>)
    requires forall i | 0 <= i < |fs| :: Constructible(fs[i].prop) && DefaultsNormalized(fs[i].prop)
    ensures ReparseFields(fs) == Ok(fs) <==> forall i | 0 <= i < |fs| :: Survives(fs[i].prop)
    decreases fs
  {
    if fs != [] {
      RoundTrip(fs[0].prop);
      RoundTripFields(fs[1..]);
      assert fs == [fs[0]] + fs[1..];
    }
  }
}
