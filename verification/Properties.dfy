/** Python values and the property (type descriptor) trees that describe them. */
module Properties {
  import opened Wrappers

  /** The hashable scalars: what an enumeration or a dictionary key may hold. */
  datatype Prim = PNull | PBool(b: bool) | PInt(i: int) | PFloat(r: real) | PStr(s: string)

  /** Python compares booleans, integers and floats by their number. */
  function Number(p: Prim): Prim {
    match p
    case PBool(b) => PFloat(if b then 1.0 else 0.0)
    case PInt(i) => PFloat(i as real)
    case _ => p
  }

  predicate PyEq(a: Prim, b: Prim) {
    Number(a) == Number(b)
  }

  /** Python's `==` between scalars: booleans, integers and floats by their number, all else by being the same. */
  lemma {:induction false} EqualScalars(a: Prim, b: Prim)
    ensures a.PInt? && b.PFloat? ==> (PyEq(a, b) <==> a.i as real == b.r)
    ensures a.PBool? && b.PInt? ==> (PyEq(a, b) <==> b.i == if a.b then 1 else 0)
    ensures a.PBool? && b.PFloat? ==> (PyEq(a, b) <==> b.r == if a.b then 1.0 else 0.0)
    ensures a.PNull? || a.PStr? ==> (PyEq(a, b) <==> a == b)
    ensures PyEq(a, b) <==> PyEq(b, a)
  {
  }

  datatype Entry = Entry(key: Prim, val: Value)

  /** A dictionary keeps its entries in insertion order; an object has named attributes. */
  datatype Value =
    | Atom(p: Prim)
    | ListVal(items: seq<Value>)
    | DictVal(entries: seq<Entry>)
    | ObjVal(attrs: map<string, Value>)
    | MessageVal(text: string)

  const NoneValue := Atom(PNull)

  datatype Field = Field(name: string, prop: Property)

  datatype Kind =
    | BoolK
    | IntK
    | FloatK
    | StrK
    | NullK
    | AnyK
    | MessageK
    | VectorK(dims: Option<nat>, hidden: bool)
    | ListK(item: Property)
    | DictK(key: Property, value: Property)
    | ObjectK(fields: seq<Field>)
    | UnionK(anyOf: seq<Property>)
  {
    /** The members of `_SIMPLE_PROPERTY_CLASSES`. */
    predicate Simple() {
      BoolK? || IntK? || FloatK? || StrK? || NullK?
    }
  }

  datatype Property = Property(
    name: string, description: string, default: Option<Value>, enum: Option<seq<Prim>>, kind: Kind)

  /** A property with nothing but its type, as in `StringProperty()`. */
  function Plain(k: Kind): Property {
    Property("", "", None, None, k)
  }

  /** `bool(v)`. */
  predicate Truthy(v: Value) {
    match v
    case Atom(PNull) => false
    case Atom(PBool(b)) => b
    case Atom(PInt(i)) => i != 0
    case Atom(PFloat(r)) => r != 0.0
    case Atom(PStr(s)) => s != ""
    case ListVal(items) => items != []
    case DictVal(entries) => entries != []
    case _ => true
  }

  /** What Python counts as false: nothing, zero of either kind, and empty texts, lists and dictionaries. */
  lemma {:induction false} FalseValues(v: Value)
    ensures Truthy(v) <==>
              && v != NoneValue && v != Atom(PBool(false)) && v != Atom(PInt(0)) && v != Atom(PFloat(0.0))
              && v != Atom(PStr("")) && v != ListVal([]) && v != DictVal([])
  {
  }

  // ---- Dictionaries and objects ----

  /** The position of a key, or the length when it is absent. */
  function IndexOf(es: seq<Entry>, k: Prim): (n: nat)
    ensures n <= |es|
    ensures n < |es| ==> PyEq(es[n].key, k)
    ensures forall i | 0 <= i < n :: !PyEq(es[i].key, k)
  {
    if es == [] || PyEq(es[0].key, k) then 0 else 1 + IndexOf(es[1..], k)
  }

  predicate HasKey(es: seq<Entry>, k: Prim) {
    IndexOf(es, k) < |es|
  }

  function Lookup(es: seq<Entry>, k: Prim): Value
    requires HasKey(es, k)
  {
    es[IndexOf(es, k)].val
  }

  /** `d[k] = v`: an equal key keeps its place and its first spelling. */
  function Put(es: seq<Entry>, k: Prim, v: Value): seq<Entry> {
    var n := IndexOf(es, k);
    if n < |es| then es[n := Entry(es[n].key, v)] else es + [Entry(k, v)]
  }

  /** A dictionary answers with the last value put under a key, and otherwise as before. */
  lemma {:induction false} PutLookup(es: seq<Entry>, k: Prim, v: Value, q: Prim)
    ensures HasKey(Put(es, k, v), q) <==> PyEq(k, q) || HasKey(es, q)
    ensures HasKey(Put(es, k, v), q) ==>
      Lookup(Put(es, k, v), q) == if PyEq(k, q) then v else Lookup(es, q)
  {
    var n, m, r := IndexOf(es, k), IndexOf(es, q), Put(es, k, v);
    assert forall i | 0 <= i < |es| :: r[i].key == es[i].key;
    assert PyEq(r[n].key, k);
    assert m < |es| ==> PyEq(r[m].key, q);
    var j := IndexOf(r, q);
    assert j < |r| && !PyEq(k, q) ==> j < |es| && j == m;
  }

  predicate HasField(fs: seq<Field>, n: string) {
    exists i | 0 <= i < |fs| :: fs[i].name == n
  }

  function FieldOf(fs: seq<Field>, n: string): (p: Property)
    requires HasField(fs, n)
    ensures exists i | 0 <= i < |fs| :: fs[i].name == n && fs[i].prop == p
    decreases fs
  {
    if fs[0].name == n then fs[0].prop
    else
      assert forall i | 0 < i < |fs| :: fs[i] == fs[1..][i - 1];
      FieldOf(fs[1..], n)
  }

  // ---- Membership ----

  predicate InEnum(v: Value, vals: seq<Prim>) {
    v.Atom? && exists i | 0 <= i < |vals| :: PyEq(v.p, vals[i])
  }

  predicate IsInt(v: Value) {
    v.Atom? && (v.p.PInt? || v.p.PBool?)
  }

  predicate IsNumber(v: Value) {
    IsInt(v) || (v.Atom? && v.p.PFloat?)
  }

  /** `value[name]` of a dictionary or `getattr(value, name)` of anything else. */
  predicate HasMember(v: Value, n: string) {
    match v
    case DictVal(es) => HasKey(es, PStr(n))
    case ObjVal(attrs) => n in attrs
    case _ => false
  }

  function MemberOf(v: Value, n: string): Value
    requires HasMember(v, n)
  {
    if v.DictVal? then Lookup(v.entries, PStr(n)) else v.attrs[n]
  }

  /** `is_value_of_expected_type` */
  predicate IsMember(v: Value, p: Property)
    decreases p
  {
    (p.enum.Some? ==> InEnum(v, p.enum.value)) && KindMember(v, p.kind)
  }

  /** `_is_value_of_expected_type`, class by class */
  predicate KindMember(v: Value, k: Kind)
    decreases k
  {
    match k
    case BoolK => v.Atom? && v.p.PBool?
    case IntK => IsInt(v)
    case FloatK => v.Atom? && v.p.PFloat?
    case StrK => v.Atom? && v.p.PStr?
    case NullK => v == NoneValue
    case AnyK => true
    case MessageK => v.MessageVal?
    case VectorK(dims, _) =>
      && v.ListVal?
      && (forall i | 0 <= i < |v.items| :: IsNumber(v.items[i]))
      && (dims.Some? ==> |v.items| == dims.value)
    case ListK(item) => v.ListVal? && forall i | 0 <= i < |v.items| :: IsMember(v.items[i], item)
    case DictK(key, value) =>
      && v.DictVal?
      && (forall i | 0 <= i < |v.entries| :: IsMember(Atom(v.entries[i].key), key))
      && (forall i | 0 <= i < |v.entries| :: IsMember(v.entries[i].val, value))
    case ObjectK(fields) =>
      forall i | 0 <= i < |fields| ::
        HasMember(v, fields[i].name) && IsMember(MemberOf(v, fields[i].name), fields[i].prop)
    case UnionK(anyOf) => exists i | 0 <= i < |anyOf| :: IsMember(v, anyOf[i])
  }

  /** What `__post_init__` demands of the enumeration of a property that is not a union. */
  predicate EnumFits(p: Property) {
    p.enum.Some? ==>
      && (p.enum.value != [] ==> p.kind.Simple())
      && forall i | 0 <= i < |p.enum.value| :: KindMember(Atom(p.enum.value[i]), p.kind)
  }

  /** Properties the constructors accept: `__post_init__` runs on every node. */
  predicate Constructible(p: Property)
    decreases p
  {
    && (!p.kind.UnionK? ==> EnumFits(p))
    && match p.kind
       case VectorK(dims, _) => dims.Some? ==> dims.value > 0
       case ListK(item) => Constructible(item)
       case DictK(key, value) => Constructible(key) && Constructible(value)
       case ObjectK(fields) => forall i | 0 <= i < |fields| :: Constructible(fields[i].prop)
       case UnionK(anyOf) => anyOf != [] && forall i | 0 <= i < |anyOf| :: Constructible(anyOf[i])
       case _ => true
  }
}
