/** What a printed schema means by JSON Schema's own rules, and what is read from schemas the printer never writes. */
module SchemaMeaning {
  import opened Wrappers
  import opened Properties
  import opened CastRelation
  import opened CastSafety
  import opened CastValues
  import opened JsonSchema

  // ---- JSON values ----

  /** Null, booleans, numbers, strings, arrays, and objects with string keys. */
  predicate IsJson(v: Value)
    decreases v
  {
    match v
    case Atom(_) => true
    case ListVal(items) => forall i | 0 <= i < |items| :: IsJson(items[i])
    case DictVal(es) => KeysUnique(es) && forall i | 0 <= i < |es| :: es[i].key.PStr? && IsJson(es[i].val)
    case _ => false
  }

  /** JSON compares numbers by their value, and keeps booleans apart from them. */
  predicate JsonEq(p: Prim, q: Prim) {
    if p.PBool? || q.PBool? then p == q else Number(p) == Number(q)
  }

  /** Two Python values that are written as the same JSON value: 1 and 1.0 are one number. */
  predicate SameJson(v: Value, w: Value)
    decreases v
  {
    match v
    case Atom(p) => w.Atom? && JsonEq(p, w.p)
    case ListVal(vs) => w.ListVal? && |w.items| == |vs| && forall i | 0 <= i < |vs| :: SameJson(vs[i], w.items[i])
    case DictVal(es) =>
      && w.DictVal? && |w.entries| == |es|
      && forall i | 0 <= i < |es| :: w.entries[i].key == es[i].key && SameJson(es[i].val, w.entries[i].val)
    case _ => v == w
  }

  lemma {:induction false} SameAsItself(v: Value)
    ensures SameJson(v, v)
    decreases v
  {
    match v
    case ListVal(vs) => forall i | 0 <= i < |vs| ensures SameJson(vs[i], vs[i]) { SameAsItself(vs[i]); }
    case DictVal(es) => forall i | 0 <= i < |es| ensures SameJson(es[i].val, es[i].val) { SameAsItself(es[i].val); }
    case _ =>
  }

  // ---- Validation ----

  /** The type names of JSON Schema; a whole number is an integer however it is written. */
  predicate HasType(v: Value, t: string) {
    match v
    case Atom(PNull) => t == "null"
    case Atom(PBool(_)) => t == "boolean"
    case Atom(PInt(_)) => t == "integer" || t == "number"
    case Atom(PFloat(r)) => t == "number" || (t == "integer" && r == r.Floor as real)
    case Atom(PStr(_)) => t == "string"
    case ListVal(_) => t == "array"
    case DictVal(_) => t == "object"
    case _ => false
  }

  predicate Typed(v: Value, typ: Option<TypeTag>) {
    match typ
    case None => true
    case Some(OneType(t)) => HasType(v, t)
    case Some(ManyTypes(ts)) => exists i | 0 <= i < |ts| :: HasType(v, ts[i])
  }

  predicate ListedIn(v: Value, enum: Option<seq<Prim>>) {
    enum.Some? ==> v.Atom? && exists i | 0 <= i < |enum.value| :: JsonEq(v.p, enum.value[i])
  }

  predicate NamedIn(members: Members, k: Prim) {
    members.Members? && exists i | 0 <= i < |members.list| :: PStr(members.list[i].name) == k
  }

  /**
   * The value is valid against the schema: type, enumeration, alternatives, items, properties and additional
   * properties; all else is annotation. With `complete`, every property the schema lists must be there.
   */
  predicate Satisfies(v: Value, s: Schema, complete: bool)
    decreases s
  {
    && Typed(v, s.typ)
    && ListedIn(v, s.enum)
    && (s.anyOf.Variants? ==> exists i | 0 <= i < |s.anyOf.list| :: Satisfies(v, s.anyOf.list[i], complete))
    && (v.ListVal? && s.items.Some? ==> forall i | 0 <= i < |v.items| :: Satisfies(v.items[i], s.items.value, complete))
    && (v.DictVal? ==> HasMembers(v.entries, s.properties, complete) && OnlyAllowed(v.entries, s, complete))
  }

  predicate HasMembers(es: seq<Entry>, members: Members, complete: bool)
    decreases members
  {
    members.Members? ==> forall i | 0 <= i < |members.list| ::
      var m := members.list[i];
      && (complete ==> HasKey(es, PStr(m.name)))
      && (HasKey(es, PStr(m.name)) ==> Satisfies(Lookup(es, PStr(m.name)), m.schema, complete))
  }

  predicate OnlyAllowed(es: seq<Entry>, s: Schema, complete: bool)
    decreases s, 0
  {
    s.additional.Some? ==> forall i | 0 <= i < |es| && !NamedIn(s.properties, es[i].key) ::
      match s.additional.value
      case AdditionalSchema(t) => Satisfies(es[i].val, t, complete)
      case AdditionalFlag(allowed) => allowed
  }

  /** Where no property is listed, additional ones are all there are. */
  lemma {:induction false} AllAdditional(v: Value, s: Schema, complete: bool)
    requires v.DictVal? && s.properties.NoMembers? && s.additional.Some? && s.additional.value.AdditionalSchema?
    ensures OnlyAllowed(v.entries, s, complete) <==>
              forall i | 0 <= i < |v.entries| :: Satisfies(v.entries[i].val, s.additional.value.schema, complete)
  {
    forall i | 0 <= i < |v.entries| ensures !NamedIn(s.properties, v.entries[i].key) {
    }
  }

  // ---- The properties whose members a schema can tell ----

  /** No message, vector length, enumerated key, or object without fields: these print as something wider. */
  predicate Describable(p: Property)
    decreases p
  {
    match p.kind
    case MessageK => false
    case VectorK(dims, _) => dims.None?
    case ListK(item) => Describable(item)
    case DictK(key, value) => (key.kind.StrK? || key.kind.AnyK?) && key.enum.None? && Describable(value)
    case ObjectK(fields) => fields != [] && forall i | 0 <= i < |fields| :: Describable(fields[i].prop)
    case UnionK(anyOf) => forall i | 0 <= i < |anyOf| :: Describable(anyOf[i])
    case _ => true
  }

  predicate NoBooleans(v: Value)
    decreases v
  {
    match v
    case Atom(p) => !p.PBool?
    case ListVal(items) => forall i | 0 <= i < |items| :: NoBooleans(items[i])
    case DictVal(es) => forall i | 0 <= i < |es| :: NoBooleans(es[i].val)
    case _ => true
  }

  /** Only a property of booleans lists booleans. */
  predicate ListsNoBooleans(p: Property)
    decreases p
  {
    && (p.enum.Some? && !p.kind.BoolK? ==> forall i | 0 <= i < |p.enum.value| :: !p.enum.value[i].PBool?)
    && match p.kind
       case ListK(item) => ListsNoBooleans(item)
       case DictK(_, value) => ListsNoBooleans(value)
       case ObjectK(fields) => forall i | 0 <= i < |fields| :: ListsNoBooleans(fields[i].prop)
       case UnionK(anyOf) => forall i | 0 <= i < |anyOf| :: ListsNoBooleans(anyOf[i])
       case _ => true
  }

  /** Nowhere does Python take a boolean for a number: no integer, no vector, no enumerated union. */
  predicate NumbersApart(p: Property)
    decreases p
  {
    match p.kind
    case IntK => false
    case VectorK(_, _) => false
    case ListK(item) => NumbersApart(item)
    case DictK(_, value) => NumbersApart(value)
    case ObjectK(fields) => forall i | 0 <= i < |fields| :: NumbersApart(fields[i].prop)
    case UnionK(anyOf) => p.enum.None? && forall i | 0 <= i < |anyOf| :: NumbersApart(anyOf[i])
    case _ => true
  }

  predicate Apart(v: Value, p: Property) {
    NumbersApart(p) || (NoBooleans(v) && ListsNoBooleans(p))
  }

  // ---- Printing, piece by piece ----

  /** What validation reads of a printed schema. */
  lemma {:induction false} Printed(p: Property, s: Schema)
    requires Print(p) == Ok(s)
    ensures s.enum == p.enum
    ensures p.kind.BoolK? ==> s.typ == Some(OneType("boolean"))
    ensures p.kind.IntK? ==> s.typ == Some(OneType("integer"))
    ensures p.kind.FloatK? ==> s.typ == Some(OneType("number"))
    ensures p.kind.StrK? ==> s.typ == Some(OneType("string"))
    ensures p.kind.NullK? ==> s.typ == Some(OneType("null"))
    ensures p.kind.AnyK? || p.kind.UnionK? ==> s.typ == None
    ensures p.kind.VectorK? ==> s.typ == Some(OneType("array")) && s.items == Some(JsonSchema.Typed("number"))
    ensures p.kind.ListK? ==>
              s.typ == Some(OneType("array")) && s.items.Some? && Print(p.kind.item) == Ok(s.items.value)
    ensures p.kind.DictK? ==>
              && s.typ == Some(OneType("object")) && s.properties.NoMembers?
              && s.additional.Some? && s.additional.value.AdditionalSchema?
              && Print(p.kind.value) == Ok(s.additional.value.schema)
    ensures p.kind.ObjectK? ==>
              && s.typ == Some(OneType("object")) && s.additional.None?
              && s.properties.Members? && PrintFields(p.kind.fields) == Ok(s.properties.list)
    ensures p.kind.UnionK? ==> s.anyOf.Variants? && PrintAll(p.kind.anyOf) == Ok(s.anyOf.list)
    ensures !p.kind.UnionK? ==> s.anyOf.NoVariants?
  {
    match p.kind
    case _ =>
  }

  lemma {:induction false} PrintAllAt(ps: seq<Property>, i: nat)
    requires PrintAll(ps).Ok? && i < |ps|
    ensures Print(ps[i]) == Ok(PrintAll(ps).value[i])
    decreases |ps|
  {
    if i > 0 {
      PrintAllAt(ps[1..], i - 1);
    }
  }

  lemma {:induction false} PrintFieldsAt(fs: seq<Field>, i: nat)
    requires PrintFields(fs).Ok? && i < |fs|
    ensures var m := PrintFields(fs).value[i]; m.name == fs[i].name && Print(fs[i].prop) == Ok(m.schema)
    decreases |fs|
  {
    if i > 0 {
      PrintFieldsAt(fs[1..], i - 1);
    }
  }

  // ---- Members satisfy ----

  lemma {:induction false} SameKeys(es: seq<Entry>, fs: seq<Entry>, k: Prim)
    requires |es| == |fs| && forall i | 0 <= i < |es| :: fs[i].key == es[i].key
    ensures IndexOf(es, k) == IndexOf(fs, k)
    decreases |es|
  {
    if es != [] && !PyEq(es[0].key, k) {
      SameKeys(es[1..], fs[1..], k);
    }
  }

  /** What Python finds in the enumeration JSON finds too. */
  lemma {:induction false} EnumSatisfied(p: Property, v: Value, w: Value)
    requires Constructible(p) && Apart(v, p) && SameJson(v, w) && IsMember(w, p)
    ensures ListedIn(v, p.enum)
  {
    if p.enum.Some? {
      var i :| 0 <= i < |p.enum.value| && PyEq(w.p, p.enum.value[i]);
      var e := p.enum.value[i];
      assert !p.kind.UnionK? ==> p.kind.Simple() && KindMember(Atom(e), p.kind) && KindMember(w, p.kind);
      assert v.Atom? && JsonEq(v.p, w.p);
      assert JsonEq(v.p, e);
    }
  }

  lemma {:induction false} ListSatisfies(p: Property, s: Schema, v: Value, w: Value, complete: bool)
    requires p.kind.ListK? && Constructible(p) && Describable(p) && Print(p) == Ok(s) && IsJson(v) && Apart(v, p)
    requires SameJson(v, w) && IsMember(w, p)
    ensures Satisfies(v, s, complete)
    decreases p, 0
  {
    Printed(p, s);
    EnumSatisfied(p, v, w);
    forall i | 0 <= i < |v.items| ensures Satisfies(v.items[i], s.items.value, complete) {
      MemberSatisfies(p.kind.item, s.items.value, v.items[i], w.items[i], complete);
    }
  }

  lemma {:induction false} DictSatisfies(p: Property, s: Schema, v: Value, w: Value, complete: bool)
    requires p.kind.DictK? && Constructible(p) && Describable(p) && Print(p) == Ok(s) && IsJson(v) && Apart(v, p)
    requires SameJson(v, w) && IsMember(w, p)
    ensures Satisfies(v, s, complete)
    decreases p, 0
  {
    Printed(p, s);
    EnumSatisfied(p, v, w);
    var t := s.additional.value.schema;
    forall i | 0 <= i < |v.entries| ensures Satisfies(v.entries[i].val, t, complete) {
      MemberSatisfies(p.kind.value, t, v.entries[i].val, w.entries[i].val, complete);
    }
    AllAdditional(v, s, complete);
  }

  lemma {:induction false} UnionSatisfies(p: Property, s: Schema, v: Value, w: Value, complete: bool)
    requires p.kind.UnionK? && Constructible(p) && Describable(p) && Print(p) == Ok(s) && IsJson(v) && Apart(v, p)
    requires SameJson(v, w) && IsMember(w, p)
    ensures Satisfies(v, s, complete)
    decreases p, 0
  {
    var anyOf := p.kind.anyOf;
    Printed(p, s);
    EnumSatisfied(p, v, w);
    assert KindMember(w, p.kind);
    var i :| 0 <= i < |anyOf| && IsMember(w, anyOf[i]);
    PrintAllAt(anyOf, i);
    MemberSatisfies(anyOf[i], s.anyOf.list[i], v, w, complete);
  }

  lemma {:induction false} OtherSatisfies(p: Property, s: Schema, v: Value, w: Value, complete: bool)
    requires p.kind.Simple() || p.kind.AnyK? || p.kind.VectorK?
    requires Constructible(p) && Describable(p) && Print(p) == Ok(s) && IsJson(v) && Apart(v, p)
    requires SameJson(v, w) && IsMember(w, p)
    ensures Satisfies(v, s, complete)
  {
    Printed(p, s);
    EnumSatisfied(p, v, w);
    assert KindMember(w, p.kind);
    if p.kind.VectorK? {
      forall i | 0 <= i < |v.items| ensures Satisfies(v.items[i], s.items.value, complete) {
        assert IsNumber(w.items[i]) && SameJson(v.items[i], w.items[i]) && NoBooleans(v.items[i]);
      }
    }
  }

  /** A member of the property is written as a value that satisfies its schema. */
  lemma {:induction false} MemberSatisfies(p: Property, s: Schema, v: Value, w: Value, complete: bool)
    requires Constructible(p) && Describable(p) && Print(p) == Ok(s) && IsJson(v) && Apart(v, p)
    requires SameJson(v, w) && IsMember(w, p)
    ensures Satisfies(v, s, complete)
    decreases p, 1
  {
    match p.kind
    case ListK(_) => ListSatisfies(p, s, v, w, complete);
    case DictK(_, _) => DictSatisfies(p, s, v, w, complete);
    case ObjectK(_) => ObjectSatisfies(p, s, v, w, complete);
    case UnionK(_) => UnionSatisfies(p, s, v, w, complete);
    case _ => OtherSatisfies(p, s, v, w, complete);
  }

  lemma {:induction false} ObjectSatisfies(p: Property, s: Schema, v: Value, w: Value, complete: bool)
    requires p.kind.ObjectK? && Constructible(p) && Describable(p) && Print(p) == Ok(s) && IsJson(v) && Apart(v, p)
    requires SameJson(v, w) && IsMember(w, p)
    ensures Satisfies(v, s, complete)
    decreases p, 0
  {
    Printed(p, s);
    var fields := p.kind.fields;
    EnumSatisfied(p, v, w);
    assert HasMember(w, fields[0].name);
    forall i | 0 <= i < |fields|
      ensures s.properties.list[i].name == fields[i].name && HasKey(v.entries, PStr(fields[i].name))
      ensures Satisfies(Lookup(v.entries, PStr(fields[i].name)), s.properties.list[i].schema, complete)
    {
      var k := PStr(fields[i].name);
      assert HasMember(w, fields[i].name) && IsMember(MemberOf(w, fields[i].name), fields[i].prop);
      PrintFieldsAt(fields, i);
      SameKeys(v.entries, w.entries, k);
      var t := s.properties.list[i].schema;
      MemberSatisfies(fields[i].prop, t, Lookup(v.entries, k), Lookup(w.entries, k), complete);
    }
  }

  // ---- What satisfies belongs ----

  /** The number that Python's whole numbers, or floats, have for this one. */
  function NumberFor(v: Value, k: Kind): Value
    requires v.Atom?
  {
    if k.IntK? && v.p.PFloat? then Atom(PInt(v.p.r.Floor))
    else if k.FloatK? && v.p.PInt? then Atom(PFloat(v.p.i as real))
    else v
  }

  lemma {:induction false} EnumFound(v: Value, w: Value, enum: Option<seq<Prim>>)
    requires ListedIn(v, enum) && SameJson(v, w)
    ensures enum.Some? ==> InEnum(w, enum.value)
  {
    if enum.Some? {
      var i :| 0 <= i < |enum.value| && JsonEq(v.p, enum.value[i]);
      assert PyEq(w.p, enum.value[i]);
    }
  }

  lemma {:induction false} SatisfiedItems(
    item: Property, s: Schema, vs: seq<Value>, complete: bool) returns (ws: seq<Value>)
    requires Constructible(item) && FieldsUnique(item) && Describable(item) && Print(item) == Ok(s)
    requires complete || ObjectFree(item)
    requires forall i | 0 <= i < |vs| :: IsJson(vs[i]) && Satisfies(vs[i], s, complete)
    ensures |ws| == |vs| && forall i | 0 <= i < |vs| :: SameJson(vs[i], ws[i]) && IsMember(ws[i], item)
    decreases item, 3, |vs|
  {
    ws := [];
    if vs != [] {
      var w := SatisfiedHasMember(item, s, vs[0], complete);
      var rest := SatisfiedItems(item, s, vs[1..], complete);
      ws := [w] + rest;
    }
  }

  lemma {:induction false} SatisfiedEntries(
    value: Property, s: Schema, es: seq<Entry>, complete: bool) returns (fs: seq<Entry>)
    requires Constructible(value) && FieldsUnique(value) && Describable(value) && Print(value) == Ok(s)
    requires complete || ObjectFree(value)
    requires forall i | 0 <= i < |es| :: IsJson(es[i].val) && Satisfies(es[i].val, s, complete)
    ensures |fs| == |es| && forall i | 0 <= i < |es| ::
              fs[i].key == es[i].key && SameJson(es[i].val, fs[i].val) && IsMember(fs[i].val, value)
    decreases value, 3, |es|
  {
    fs := [];
    if es != [] {
      var w := SatisfiedHasMember(value, s, es[0].val, complete);
      var rest := SatisfiedEntries(value, s, es[1..], complete);
      fs := [Entry(es[0].key, w)] + rest;
    }
  }

  /** Each entry a field names is exchanged for a value of the field; the others stay. */
  lemma {:induction false} SatisfiedFields(
    fields: seq<Field>, members: seq<Named>, es: seq<Entry>, complete: bool) returns (fs: seq<Entry>)
    requires forall i | 0 <= i < |fields| ::
               Constructible(fields[i].prop) && FieldsUnique(fields[i].prop) && Describable(fields[i].prop)
    requires complete && PrintFields(fields) == Ok(members)
    requires forall j | 0 <= j < |es| :: es[j].key.PStr? && IsJson(es[j].val)
    requires forall i, j | 0 <= i < |fields| && 0 <= j < |es| && es[j].key == PStr(fields[i].name) ::
               Satisfies(es[j].val, members[i].schema, complete)
    requires NamesUnique(fields)
    ensures |fs| == |es| && forall j | 0 <= j < |es| :: fs[j].key == es[j].key && SameJson(es[j].val, fs[j].val)
    ensures forall i, j | 0 <= i < |fields| && 0 <= j < |es| && es[j].key == PStr(fields[i].name) ::
              IsMember(fs[j].val, fields[i].prop)
    decreases fields, 1, |es|
  {
    fs := [];
    if es != [] {
      var rest := SatisfiedFields(fields, members, es[1..], complete);
      var w := SatisfiedField(fields, members, es[0], complete);
      fs := [Entry(es[0].key, w)] + rest;
    }
  }

  lemma {:induction false} SatisfiedField(fields: seq<Field>, members: seq<Named>, e: Entry, complete: bool)
    returns (w: Value)
    requires forall i | 0 <= i < |fields| ::
               Constructible(fields[i].prop) && FieldsUnique(fields[i].prop) && Describable(fields[i].prop)
    requires complete && PrintFields(fields) == Ok(members) && IsJson(e.val) && NamesUnique(fields)
    requires forall i | 0 <= i < |fields| && e.key == PStr(fields[i].name) ::
               Satisfies(e.val, members[i].schema, complete)
    ensures SameJson(e.val, w)
    ensures forall i | 0 <= i < |fields| && e.key == PStr(fields[i].name) :: IsMember(w, fields[i].prop)
    decreases fields, 0
  {
    w := e.val;
    SameAsItself(w);
    if i :| 0 <= i < |fields| && e.key == PStr(fields[i].name) {
      PrintFieldsAt(fields, i);
      w := SatisfiedHasMember(fields[i].prop, members[i].schema, e.val, complete);
    }
  }

  lemma {:induction false} ObjectHasMember(p: Property, s: Schema, v: Value, complete: bool) returns (w: Value)
    requires p.kind.ObjectK? && Constructible(p) && FieldsUnique(p) && Describable(p) && Print(p) == Ok(s)
    requires complete && IsJson(v) && Satisfies(v, s, complete)
    ensures SameJson(v, w) && IsMember(w, p)
    decreases p, 0
  {
    Printed(p, s);
    var fields, es, members := p.kind.fields, v.entries, s.properties.list;
    forall i, j | 0 <= i < |fields| && 0 <= j < |es| && es[j].key == PStr(fields[i].name)
      ensures Satisfies(es[j].val, members[i].schema, complete)
    {
      PrintFieldsAt(fields, i);
      IndexOfUnique(es, es[j].key, j);
      assert HasKey(es, PStr(members[i].name));
    }
    var fs := SatisfiedFields(fields, members, es, complete);
    w := DictVal(fs);
    forall i | 0 <= i < |fields|
      ensures HasMember(w, fields[i].name) && IsMember(MemberOf(w, fields[i].name), fields[i].prop)
    {
      var k := PStr(fields[i].name);
      PrintFieldsAt(fields, i);
      assert HasKey(es, PStr(members[i].name));
      SameKeys(es, fs, k);
      var j := IndexOf(es, k);
      assert PyEq(es[j].key, k) && es[j].key == k;
    }
    EnumFound(v, w, p.enum);
    assert KindMember(w, p.kind);
  }

  /** What is assumed of the property, its schema and a value that satisfies it. */
  ghost predicate Given(p: Property, s: Schema, v: Value, complete: bool) {
    && Constructible(p) && FieldsUnique(p) && Describable(p) && Print(p) == Ok(s)
    && (complete || ObjectFree(p)) && IsJson(v) && Satisfies(v, s, complete)
  }

  lemma {:induction false} ListHasMember(p: Property, s: Schema, v: Value, complete: bool) returns (w: Value)
    requires p.kind.ListK? && Given(p, s, v, complete)
    ensures SameJson(v, w) && IsMember(w, p)
    decreases p, 0
  {
    Printed(p, s);
    var ws := SatisfiedItems(p.kind.item, s.items.value, v.items, complete);
    w := ListVal(ws);
    EnumFound(v, w, p.enum);
    assert KindMember(w, p.kind);
  }

  lemma {:induction false} DictHasMember(p: Property, s: Schema, v: Value, complete: bool) returns (w: Value)
    requires p.kind.DictK? && Given(p, s, v, complete)
    ensures SameJson(v, w) && IsMember(w, p)
    decreases p, 0
  {
    Printed(p, s);
    var t := s.additional.value.schema;
    AllAdditional(v, s, complete);
    var fs := SatisfiedEntries(p.kind.value, t, v.entries, complete);
    w := DictVal(fs);
    forall i | 0 <= i < |fs| ensures IsMember(Atom(fs[i].key), p.kind.key) {
      assert v.entries[i].key.PStr?;
    }
    EnumFound(v, w, p.enum);
    assert KindMember(w, p.kind);
  }

  lemma {:induction false} UnionHasMember(p: Property, s: Schema, v: Value, complete: bool) returns (w: Value)
    requires p.kind.UnionK? && Given(p, s, v, complete)
    ensures SameJson(v, w) && IsMember(w, p)
    decreases p, 0
  {
    Printed(p, s);
    var anyOf := p.kind.anyOf;
    var i :| 0 <= i < |anyOf| && Satisfies(v, s.anyOf.list[i], complete);
    PrintAllAt(anyOf, i);
    w := SatisfiedHasMember(anyOf[i], s.anyOf.list[i], v, complete);
    EnumFound(v, w, p.enum);
    assert KindMember(w, p.kind);
  }

  lemma {:induction false} OtherHasMember(p: Property, s: Schema, v: Value, complete: bool) returns (w: Value)
    requires p.kind.Simple() || p.kind.AnyK? || p.kind.VectorK?
    requires Given(p, s, v, complete)
    ensures SameJson(v, w) && IsMember(w, p)
  {
    Printed(p, s);
    w := if v.Atom? then NumberFor(v, p.kind) else v;
    SameAsItself(v);
    EnumFound(v, w, p.enum);
    if p.kind.VectorK? {
      forall i | 0 <= i < |v.items| ensures IsNumber(v.items[i]) {
        assert Satisfies(v.items[i], s.items.value, complete) && HasType(v.items[i], "number");
      }
    }
    assert KindMember(w, p.kind);
  }

  lemma {:induction false} SatisfiedHasMember(p: Property, s: Schema, v: Value, complete: bool) returns (w: Value)
    requires Given(p, s, v, complete)
    ensures SameJson(v, w) && IsMember(w, p)
    decreases p, 2
  {
    match p.kind {
      case ListK(_) => w := ListHasMember(p, s, v, complete);
      case DictK(_, _) => w := DictHasMember(p, s, v, complete);
      case ObjectK(_) => w := ObjectHasMember(p, s, v, complete);
      case UnionK(_) => w := UnionHasMember(p, s, v, complete);
      case _ => w := OtherHasMember(p, s, v, complete);
    }
  }

  /** The JSON value v is how some member of the property is written. */
  ghost predicate WrittenFor(v: Value, p: Property) {
    exists w :: SameJson(v, w) && IsMember(w, p)
  }

  lemma {:induction false} WrittenSatisfies(p: Property, s: Schema, v: Value, complete: bool)
    requires Constructible(p) && Describable(p) && Print(p) == Ok(s) && IsJson(v) && Apart(v, p) && WrittenFor(v, p)
    ensures Satisfies(v, s, complete)
  {
    var w :| SameJson(v, w) && IsMember(w, p);
    MemberSatisfies(p, s, v, w, complete);
  }

  /**
   * By JSON Schema's rules, with listed properties required, the JSON values that satisfy a printed schema are exactly
   * those written for a member of the property, wherever Python does not take a boolean for a number. Without objects
   * nothing needs to be required.
   */
  lemma {:induction false} PrintedMeaning(p: Property, s: Schema, v: Value)
    requires Constructible(p) && FieldsUnique(p) && Describable(p) && Print(p) == Ok(s) && IsJson(v) && Apart(v, p)
    ensures Satisfies(v, s, true) <==> WrittenFor(v, p)
    ensures WrittenFor(v, p) ==> Satisfies(v, s, false)
    ensures ObjectFree(p) ==> (Satisfies(v, s, false) <==> WrittenFor(v, p))
  {
    if WrittenFor(v, p) {
      WrittenSatisfies(p, s, v, true);
      WrittenSatisfies(p, s, v, false);
    }
    if Satisfies(v, s, true) {
      var w := SatisfiedHasMember(p, s, v, true);
    }
    if ObjectFree(p) && Satisfies(v, s, false) {
      var w := SatisfiedHasMember(p, s, v, false);
    }
  }

  /** Booleans are integers to Python only: `true` is written for a member that the printed schema excludes. */
  lemma {:induction false} BooleanIsNoInteger() returns (p: Property, v: Value)
    ensures Constructible(p) && Describable(p) && IsJson(v) && IsMember(v, p)
    ensures Print(p).Ok? && !Satisfies(v, Print(p).value, true)
  {
    p, v := Plain(IntK), Atom(PBool(true));
  }

  /** The printer requires no property: an empty object satisfies, and belongs to no such property. */
  lemma {:induction false} EmptyObjectSatisfies() returns (p: Property, v: Value)
    ensures Constructible(p) && FieldsUnique(p) && Describable(p) && IsJson(v)
    ensures Print(p).Ok? && Satisfies(v, Print(p).value, false)
    ensures forall w | SameJson(v, w) :: !IsMember(w, p)
  {
    p, v := Plain(ObjectK([Field("a", Plain(StrK))])), DictVal([]);
    var fs := p.kind.fields;
    assert PrintFields(fs[1..]) == Ok([]) && Print(fs[0].prop).Ok?;
    assert PrintFields(fs).Ok?;
    forall w | SameJson(v, w) ensures !IsMember(w, p) {
      assert w == DictVal([]) && !HasMember(w, fs[0].name);
    }
  }

  // ---- Annotations ----

  /** Name, description and default are printed as title, description and default; keys and vectors are marked. */
  lemma {:induction false} AnnotationsPrinted(p: Property, s: Schema)
    requires Print(p) == Ok(s)
    ensures s.title == if p.name == "" then None else Some(p.name)
    ensures s.description == if p.description == "" then None else Some(p.description)
    ensures s.default == p.default && s.enum == p.enum
    ensures s.vector <==> p.kind.VectorK?
    ensures p.kind.DictK? && p.kind.key != Plain(AnyK) ==> s.keyType.Some? && Print(p.kind.key) == Ok(s.keyType.value)
    ensures p.kind.DictK? && p.kind.key == Plain(AnyK) ==> s.keyType.None?
  {
    match p.kind
    case _ =>
  }

  /** They are read back as such; only a string default may change, to the listed string it differs from by casing. */
  lemma {:induction false} AnnotationsRead(s: Schema)
    requires Parse(s).Ok?
    ensures var p := Parse(s).value;
      && p.name == (if s.title.Some? then s.title.value else "")
      && p.description == (if s.description.Some? then s.description.value else "")
      && p.enum == s.enum
      && p.default == if p.kind.UnionK? then s.default else NormalizeDefault(s.default, s.enum)
  {
  }

  /** One letter, or its other case. */
  predicate SameLetter(c: char, d: char) {
    c == d || ('A' <= c <= 'Z' && d == c - 'A' + 'a') || ('A' <= d <= 'Z' && c == d - 'A' + 'a')
  }

  /** Texts are compared letter by letter without regard to case. */
  lemma {:induction false} CasingOnly(a: string, b: string)
    ensures Lower(a) == Lower(b) <==> |a| == |b| && forall i | 0 <= i < |a| :: SameLetter(a[i], b[i])
  {
    assert |Lower(a)| == |a| && |Lower(b)| == |b|;
    if |a| == |b| {
      forall i | 0 <= i < |a| ensures Lower(a)[i] == Lower(b)[i] <==> SameLetter(a[i], b[i]) {
        LowerOne(a, i);
        LowerOne(b, i);
      }
    }
  }

  lemma {:induction false} LowerOne(s: string, i: nat)
    requires i < |s|
    ensures Lower(s)[i] == if 'A' <= s[i] <= 'Z' then s[i] - 'A' + 'a' else s[i]
  {
  }

  /** The first listed string that equals the default up to casing replaces a default that is not listed. */
  lemma {:induction false} DefaultsNormalize(text: string, vals: seq<Prim>, i: nat)
    requires !InEnum(Atom(PStr(text)), vals)
    requires i < |vals| && vals[i].PStr? && Lower(vals[i].s) == Lower(text)
    requires forall j | 0 <= j < i :: !(vals[j].PStr? && Lower(vals[j].s) == Lower(text))
    ensures NormalizeDefault(Some(Atom(PStr(text))), Some(vals)) == Some(Atom(vals[i]))
  {
    CasingFound(text, vals, i);
  }

  lemma {:induction false} CasingFound(text: string, vals: seq<Prim>, i: nat)
    requires i < |vals| && vals[i].PStr? && Lower(vals[i].s) == Lower(text)
    requires forall j | 0 <= j < i :: !(vals[j].PStr? && Lower(vals[j].s) == Lower(text))
    ensures MatchCasing(text, vals) == vals[i]
    decreases i
  {
    if i > 0 {
      CasingFound(text, vals[1..], i - 1);
    }
  }

  // ---- Reading what the printer never writes ----

  /** The schema under one type name, without title, description and default. */
  function Under(s: Schema, t: string): Schema {
    s.(typ := Some(OneType(t)), title := None, description := None, default := None)
  }

  lemma {:induction false} KindUnder(s: Schema, t: string, u: string)
    ensures ParseKind(Under(s, u), t) == ParseKind(s, t)
  {
  }

  lemma {:induction false} ParseUnder(s: Schema, t: string)
    ensures Parse(Under(s, t)) ==
            var k := ParseKind(s, t);
            if k.Raise? then Raise(k.error) else Construct(Property("", "", None, s.enum, k.value))
  {
    KindUnder(s, t, t);
  }

  lemma {:induction false} ParseEachAre(s: Schema, ts: seq<string>)
    ensures ParseEach(s, ts).Ok? <==> forall i | 0 <= i < |ts| :: Parse(Under(s, ts[i])).Ok?
    ensures ParseEach(s, ts).Ok? ==> |ParseEach(s, ts).value| == |ts|
    ensures ParseEach(s, ts).Ok? ==> forall i | 0 <= i < |ts| :: Parse(Under(s, ts[i])) == Ok(ParseEach(s, ts).value[i])
    decreases |ts|
  {
    if ts != [] {
      ParseEachAre(s, ts[1..]);
      ParseUnder(s, ts[0]);
      assert forall i | 0 < i < |ts| :: ts[i] == ts[1..][i - 1];
    }
  }

  /** A union with these alternatives, and null behind them if the default is `None` and none of them is null. */
  ghost predicate UnionOf(s: Schema, types: seq<Property>, p: Property) {
    && p.kind.UnionK? && p.name == OrEmpty(s.title) && p.description == OrEmpty(s.description)
    && p.default == s.default && p.enum == s.enum
    && types <= p.kind.anyOf
    && if s.default == Some(NoneValue) && forall i | 0 <= i < |types| :: !types[i].kind.NullK?
       then p.kind.anyOf == types + [Plain(NullK)] else p.kind.anyOf == types
  }

  /** A list of type names is read as the union of what the schema is under each of them. */
  lemma {:induction false} TypeListRead(s: Schema, ts: seq<string>)
    requires s.typ == Some(ManyTypes(ts))
    ensures Parse(s).Ok? <==>
              && (forall i | 0 <= i < |ts| :: Parse(Under(s, ts[i])).Ok?)
              && (ts != [] || s.default == Some(NoneValue))
    ensures Parse(s).Ok? ==> exists types ::
              && |types| == |ts| && (forall i | 0 <= i < |ts| :: Parse(Under(s, ts[i])) == Ok(types[i]))
              && UnionOf(s, types, Parse(s).value)
  {
    ParseEachAre(s, ts);
    if Parse(s).Ok? {
      assert UnionOf(s, ParseEach(s, ts).value, Parse(s).value);
    }
  }

  /** A default `None` makes any typed schema but null's a union with null. */
  lemma {:induction false} NoneDefaultRead(s: Schema, t: string)
    requires s.typ == Some(OneType(t)) && s.default == Some(NoneValue) && t != "null"
    ensures Parse(s).Ok? <==> Parse(Under(s, t)).Ok?
    ensures Parse(s).Ok? ==>
              && Parse(s).value.kind == UnionK([Parse(Under(s, t)).value, Plain(NullK)])
              && Parse(s).value.name == OrEmpty(s.title) && Parse(s).value.description == OrEmpty(s.description)
              && Parse(s).value.default == s.default && Parse(s).value.enum == s.enum
  {
    ParseUnder(s, t);
  }

  /** What the type names are read as; `additionalProperties` as a flag says nothing, not even when it is false. */
  lemma {:induction false} TypeNamesRead(s: Schema, t: string)
    ensures t == "boolean" ==> ParseKind(s, t) == Ok(BoolK)
    ensures t == "integer" ==> ParseKind(s, t) == Ok(IntK)
    ensures t == "number" ==> ParseKind(s, t) == Ok(FloatK)
    ensures t == "string" ==> ParseKind(s, t) == Ok(StrK)
    ensures t == "null" ==> ParseKind(s, t) == Ok(NullK)
    ensures t == "array" && s.items.None? && !s.vector ==> ParseKind(s, t) == Ok(ListK(Plain(AnyK)))
    ensures t == "array" && s.items.None? && s.vector ==> ParseKind(s, t) == Ok(VectorK(None, false))
    ensures t == "object" && s.properties.NoMembers? && s.additional.None? ==> ParseKind(s, t) == Ok(AnyK)
    ensures t == "object" && s.properties.NoMembers? && s.keyType.None?
            && s.additional.Some? && s.additional.value.AdditionalFlag? ==>
              ParseKind(s, t) == Ok(DictK(Plain(AnyK), Plain(AnyK)))
    ensures t !in {"boolean", "integer", "number", "string", "null", "array", "object"} ==> ParseKind(s, t) == Ok(AnyK)
  {
  }
}
