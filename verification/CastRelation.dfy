/** The static cast relation is a preorder, up to the exact exceptions shown here. */
module CastRelation {
  import opened Wrappers
  import opened Properties
  import opened Casting

  // ---- Transitivity ----

  predicate Texts(vals: seq<Prim>) {
    forall i | 0 <= i < |vals| :: vals[i].PStr?
  }

  /**
   * Every alternative of a union with an enumeration is as finite as the union says. Properties a constructor accepts
   * only ever compare enumerations of strings with a union's; `every` is for comparing with any property whatsoever.
   */
  predicate EnumInherited(p: Property, every: bool)
    decreases p
  {
    match p.kind
    case ListK(item) => EnumInherited(item, every)
    case DictK(key, value) => EnumInherited(key, every) && EnumInherited(value, every)
    case ObjectK(fields) => forall i | 0 <= i < |fields| :: EnumInherited(fields[i].prop, every)
    case UnionK(anyOf) =>
      forall i | 0 <= i < |anyOf| ::
        && EnumInherited(anyOf[i], every)
        && (p.enum.Some? && (every || Texts(p.enum.value)) ==> EnumAccepts(anyOf[i].enum, p.enum))
    case _ => true
  }

  lemma {:induction false} EnumAcceptsTransitive(a: Option<seq<Prim>>, b: Option<seq<Prim>>, c: Option<seq<Prim>>)
    requires EnumAccepts(a, b) && EnumAccepts(b, c)
    ensures EnumAccepts(a, c)
  {
    if c.Some? {
      forall i | 0 <= i < |a.value|
        ensures InEnum(Atom(a.value[i]), c.value)
      {
        var j :| 0 <= j < |b.value| && PyEq(a.value[i], b.value[j]);
        var k :| 0 <= k < |c.value| && PyEq(b.value[j], c.value[k]);
        assert PyEq(a.value[i], c.value[k]);
      }
    }
  }

  lemma {:induction false} EnumAcceptsReflexive(e: Option<seq<Prim>>)
    ensures EnumAccepts(e, e)
  {
    if e.Some? {
      forall i | 0 <= i < |e.value| ensures InEnum(Atom(e.value[i]), e.value) {
        assert PyEq(e.value[i], e.value[i]);
      }
    }
  }

  /** What takes a whole union without being one takes each of its alternatives. */
  lemma {:induction false} AlternativeIntoPlain(a: Property, i: nat, b: Property, every: bool)
    requires i < |Alternatives(a)| && !b.kind.UnionK? && CanCast(a, b)
    requires EnumInherited(a, every) && (every || Constructible(b))
    ensures CanCast(Alternatives(a)[i], b)
  {
    if a.kind.UnionK? && b.enum.Some? {
      var x := a.kind.anyOf[i];
      assert every || Texts(a.enum.value) by {
        if !every {
          forall j | 0 <= j < |a.enum.value| ensures a.enum.value[j].PStr? {
            assert InEnum(Atom(a.enum.value[j]), b.enum.value);
          }
        }
      }
      EnumAcceptsTransitive(x.enum, a.enum, b.enum);
    }
  }

  /** Casting is transitive from any source whose unions' enumerations are those of their alternatives. */
  lemma {:induction false} CanCastTransitive(a: Property, b: Property, c: Property, every: bool)
    requires EnumInherited(a, every) && (every || Constructible(b))
    requires CanCast(a, b) && CanCast(b, c)
    ensures CanCast(a, c)
    decreases c, 1
  {
    EnumAcceptsTransitive(a.enum, b.enum, c.enum);
    match c.kind
    case ListK(item) => CanCastTransitive(a.kind.item, b.kind.item, item, every);
    case DictK(key, value) => TransitiveDict(a, b, c, every);
    case ObjectK(_) => TransitiveObject(a, b, c, every);
    case UnionK(_) => TransitiveUnion(a, b, c, every);
    case _ =>
  }

  lemma {:induction false} TransitiveObject(a: Property, b: Property, c: Property, every: bool)
    requires c.kind.ObjectK? && EnumInherited(a, every) && (every || Constructible(b))
    requires CanCast(a, b) && CanCast(b, c) && EnumAccepts(a.enum, c.enum)
    ensures CanCast(a, c)
    decreases c, 0
  {
    var fields := c.kind.fields;
    forall i | 0 <= i < |a.kind.fields|
      ensures HasField(fields, a.kind.fields[i].name)
      ensures CanCast(a.kind.fields[i].prop, FieldOf(fields, a.kind.fields[i].name))
    {
      var f := a.kind.fields[i];
      var g := FieldOf(b.kind.fields, f.name);
      var j :| 0 <= j < |b.kind.fields| && b.kind.fields[j].name == f.name && b.kind.fields[j].prop == g;
      CanCastTransitive(f.prop, g, FieldOf(fields, f.name), every);
    }
  }

  lemma {:induction false} TransitiveDict(a: Property, b: Property, c: Property, every: bool)
    requires c.kind.DictK? && EnumInherited(a, every) && (every || Constructible(b))
    requires CanCast(a, b) && CanCast(b, c) && EnumAccepts(a.enum, c.enum)
    ensures CanCast(a, c)
    decreases c, 0
  {
    var key, value := c.kind.key, c.kind.value;
    if a.kind.DictK? {
      CanCastTransitive(a.kind.key, b.kind.key, key, every);
      CanCastTransitive(a.kind.value, b.kind.value, value, every);
    } else if b.kind.DictK? {
      CanCastTransitive(Plain(StrK), b.kind.key, key, every);
      forall i | 0 <= i < |a.kind.fields|
        ensures CanCast(a.kind.fields[i].prop, value)
      {
        CanCastTransitive(a.kind.fields[i].prop, b.kind.value, value, every);
      }
    } else {
      forall i | 0 <= i < |a.kind.fields|
        ensures CanCast(a.kind.fields[i].prop, value)
      {
        var f := a.kind.fields[i];
        var g := FieldOf(b.kind.fields, f.name);
        var j :| 0 <= j < |b.kind.fields| && b.kind.fields[j].name == f.name && b.kind.fields[j].prop == g;
        CanCastTransitive(f.prop, g, value, every);
      }
    }
  }

  lemma {:induction false} TransitiveUnion(a: Property, b: Property, c: Property, every: bool)
    requires c.kind.UnionK? && EnumInherited(a, every) && (every || Constructible(b))
    requires CanCast(a, b) && CanCast(b, c) && EnumAccepts(a.enum, c.enum)
    ensures CanCast(a, c)
    decreases c, 0
  {
    var targets := c.kind.anyOf;
    forall i | 0 <= i < |Alternatives(a)|
      ensures CastsIntoSome(Alternatives(a)[i], targets)
    {
      var x := Alternatives(a)[i];
      // x itself casts into some alternative y of b
      var y: Property;
      if b.kind.UnionK? {
        assert CastsIntoSome(x, b.kind.anyOf);
        var j :| 0 <= j < |b.kind.anyOf| && CanCast(x, b.kind.anyOf[j]);
        y := b.kind.anyOf[j];
        assert Alternatives(b)[j] == y;
      } else {
        y := b;
        assert Alternatives(b)[0] == y;
        AlternativeIntoPlain(a, i, b, every);
      }
      assert CastsIntoSome(y, targets);
      var k :| 0 <= k < |targets| && CanCast(y, targets[k]);
      CanCastTransitive(x, y, targets[k], every);
    }
  }

  // ---- The exact condition ----

  /** No union below p carries an enumeration of its own. */
  predicate UnionsEnumFree(p: Property)
    decreases p
  {
    match p.kind
    case ListK(item) => UnionsEnumFree(item)
    case DictK(key, value) => UnionsEnumFree(key) && UnionsEnumFree(value)
    case ObjectK(fields) => forall i | 0 <= i < |fields| :: UnionsEnumFree(fields[i].prop)
    case UnionK(anyOf) => p.enum.None? && forall i | 0 <= i < |anyOf| :: UnionsEnumFree(anyOf[i])
    case _ => true
  }

  /** An alternative with enumerated unions below it, beside siblings that cast into themselves and do not take it. */
  predicate StandsAlone(anyOf: seq<Property>, i: nat, every: bool)
    requires i < |anyOf|
  {
    forall j | 0 <= j < |anyOf| && j != i ::
      && !CanCast(anyOf[i], anyOf[j])
      && VectorAndMessageFree(anyOf[j]) && FieldsUnique(anyOf[j])
      && (every || Constructible(anyOf[j]))
  }

  /** A union with an enumeration lies below another union only where no sibling could stand in for it. */
  predicate SeparateUnions(p: Property, every: bool)
    decreases p
  {
    match p.kind
    case ListK(item) => SeparateUnions(item, every)
    case DictK(key, value) => SeparateUnions(key, every) && SeparateUnions(value, every)
    case ObjectK(fields) => forall i | 0 <= i < |fields| :: SeparateUnions(fields[i].prop, every)
    case UnionK(anyOf) =>
      forall i | 0 <= i < |anyOf| ::
        UnionsEnumFree(anyOf[i]) || (SeparateUnions(anyOf[i], every) && StandsAlone(anyOf, i, every))
    case _ => true
  }

  lemma {:induction false} EnumFreeIsInherited(p: Property, every: bool)
    requires UnionsEnumFree(p)
    ensures EnumInherited(p, every)
    decreases p
  {
    match p.kind
    case ListK(item) => EnumFreeIsInherited(item, every);
    case DictK(key, value) => EnumFreeIsInherited(key, every); EnumFreeIsInherited(value, every);
    case ObjectK(fields) =>
      forall i | 0 <= i < |fields| ensures EnumInherited(fields[i].prop, every) {
        EnumFreeIsInherited(fields[i].prop, every);
      }
    case UnionK(anyOf) =>
      forall i | 0 <= i < |anyOf| ensures EnumInherited(anyOf[i], every) {
        EnumFreeIsInherited(anyOf[i], every);
      }
    case _ =>
  }

  /** Two casts that do not compose, between properties constructors accept unless `every`. */
  predicate Breaks(a: Property, b: Property, c: Property, every: bool) {
    && CanCast(a, b) && CanCast(b, c) && !CanCast(a, c)
    && (every || (Constructible(b) && Constructible(c)))
  }

  /** A sequence of fields that takes anything but for one field. */
  function OnlyField(fs: seq<Field>, i: nat, p: Property): (r: seq<Field>)
    ensures |r| == |fs|
    ensures forall j | 0 <= j < |fs| :: r[j] == Field(fs[j].name, if j == i then p else Plain(AnyK))
  {
    seq(|fs|, j requires 0 <= j < |fs| => Field(fs[j].name, if j == i then p else Plain(AnyK)))
  }

  lemma {:induction false} FieldOfUnique(fs: seq<Field>, i: nat)
    requires NamesUnique(fs) && i < |fs|
    ensures HasField(fs, fs[i].name) && FieldOf(fs, fs[i].name) == fs[i].prop
  {
    var j :| 0 <= j < |fs| && fs[j].name == fs[i].name && fs[j].prop == FieldOf(fs, fs[i].name);
  }

  /** Casting into those fields is casting into that one field. */
  lemma {:induction false} OnlyFieldDecides(a: Property, i: nat, p: Property)
    requires a.kind.ObjectK? && NamesUnique(a.kind.fields) && i < |a.kind.fields|
    ensures CanCast(a, Plain(ObjectK(OnlyField(a.kind.fields, i, p)))) <==> CanCast(a.kind.fields[i].prop, p)
  {
    var fs := a.kind.fields;
    var ts := OnlyField(fs, i, p);
    forall j | 0 <= j < |fs|
      ensures HasField(ts, fs[j].name) && FieldOf(ts, fs[j].name) == if j == i then p else Plain(AnyK)
    {
      FieldOfUnique(ts, j);
    }
  }

  lemma {:induction false} OnlyFieldConstructible(fs: seq<Field>, i: nat, p: Property)
    requires Constructible(p)
    ensures Constructible(Plain(ObjectK(OnlyField(fs, i, p))))
  {
    assert Constructible(Plain(AnyK));
  }

  lemma {:induction false} OnlyFieldTwice(fs: seq<Field>, i: nat, p: Property, q: Property)
    requires i < |fs| && NamesUnique(fs)
    ensures NamesUnique(OnlyField(fs, i, p)) && OnlyField(OnlyField(fs, i, p), i, q) == OnlyField(fs, i, q)
  {
  }

  lemma {:induction false} BreaksField(a: Property, i: nat, b: Property, c: Property, every: bool)
    returns (x: Property, y: Property)
    requires a.kind.ObjectK? && NamesUnique(a.kind.fields) && i < |a.kind.fields|
    requires Breaks(a.kind.fields[i].prop, b, c, every)
    ensures Breaks(a, x, y, every)
  {
    var fs := a.kind.fields;
    x, y := Plain(ObjectK(OnlyField(fs, i, b))), Plain(ObjectK(OnlyField(fs, i, c)));
    assert CanCast(a, x) && !CanCast(a, y) by {
      OnlyFieldDecides(a, i, b);
      OnlyFieldDecides(a, i, c);
    }
    assert CanCast(x, y) by {
      OnlyFieldTwice(fs, i, b, c);
      OnlyFieldDecides(x, i, c);
    }
    if !every {
      OnlyFieldConstructible(fs, i, b);
      OnlyFieldConstructible(fs, i, c);
    }
  }

  lemma {:induction false} BreaksUnion(a: Property, i: nat, every: bool) returns (b: Property, c: Property)
    requires a.kind.UnionK? && i < |a.kind.anyOf| && a.enum.Some? && (every || Texts(a.enum.value))
    requires !EnumAccepts(a.kind.anyOf[i].enum, a.enum)
    ensures Breaks(a, b, c, every)
  {
    b := Property("", "", None, a.enum, StrK);
    c := Plain(UnionK([b]));
    EnumAcceptsReflexive(a.enum);
    assert Alternatives(b)[0] == b && CanCast(b, c.kind.anyOf[0]);
    assert !CanCast(Alternatives(a)[i], b) && !CastsIntoSome(Alternatives(a)[i], c.kind.anyOf);
  }

  lemma {:induction false} PairwiseTakes(ss: seq<Property>, ts: seq<Property>)
    requires |ss| == |ts| && forall j | 0 <= j < |ss| :: CanCast(ss[j], ts[j])
    ensures forall j | 0 <= j < |ss| :: CastsIntoSome(ss[j], ts)
  {
  }

  /** Into a union without enumeration a union casts alternative by alternative. */
  lemma {:induction false} UnionIntoUnion(a: Property, ts: seq<Property>)
    requires a.kind.UnionK?
    ensures CanCast(a, Plain(UnionK(ts))) <==> forall j | 0 <= j < |a.kind.anyOf| :: CastsIntoSome(a.kind.anyOf[j], ts)
  {
    assert Alternatives(a) == a.kind.anyOf;
  }

  lemma {:induction false} BreaksAlternative(a: Property, i: nat, x: Property, y: Property, every: bool)
    returns (b: Property, c: Property)
    requires a.kind.UnionK? && i < |a.kind.anyOf| && StandsAlone(a.kind.anyOf, i, every)
    requires Breaks(a.kind.anyOf[i], x, y, every)
    ensures Breaks(a, b, c, every)
  {
    var anyOf := a.kind.anyOf;
    var xs, ys := anyOf[i := x], anyOf[i := y];
    b, c := Plain(UnionK(xs)), Plain(UnionK(ys));
    forall j | 0 <= j < |anyOf| && j != i ensures CanCast(anyOf[j], anyOf[j]) && xs[j] == ys[j] == anyOf[j] {
      CanCastReflexive(anyOf[j]);
    }
    assert CanCast(a, b) by {
      PairwiseTakes(anyOf, xs);
      UnionIntoUnion(a, xs);
    }
    assert CanCast(b, c) by {
      PairwiseTakes(xs, ys);
      UnionIntoUnion(b, ys);
    }
    assert !CanCast(a, c) by {
      assert !CastsIntoSome(anyOf[i], ys);
      UnionIntoUnion(a, ys);
    }
    assert every || (Constructible(b) && Constructible(c));
  }

  lemma {:induction false} NotInheritedBreaks(a: Property, every: bool) returns (b: Property, c: Property)
    requires SeparateUnions(a, every) && FieldsUnique(a) && !EnumInherited(a, every)
    ensures Breaks(a, b, c, every)
    decreases a, 1
  {
    match a.kind {
      case ListK(item) =>
        var x, y := NotInheritedBreaks(item, every);
        b, c := Plain(ListK(x)), Plain(ListK(y));
      case DictK(key, value) =>
        b, c := NotInheritedDictBreaks(a, every);
      case ObjectK(fields) =>
        var i :| 0 <= i < |fields| && !EnumInherited(fields[i].prop, every);
        var x, y := NotInheritedBreaks(fields[i].prop, every);
        b, c := BreaksField(a, i, x, y, every);
      case UnionK(anyOf) =>
        b, c := NotInheritedUnionBreaks(a, every);
    }
  }

  lemma {:induction false} NotInheritedDictBreaks(a: Property, every: bool) returns (b: Property, c: Property)
    requires a.kind.DictK? && SeparateUnions(a, every) && FieldsUnique(a) && !EnumInherited(a, every)
    ensures Breaks(a, b, c, every)
    decreases a, 0
  {
    if EnumInherited(a.kind.key, every) {
      var x, y := NotInheritedBreaks(a.kind.value, every);
      b, c := Plain(DictK(Plain(AnyK), x)), Plain(DictK(Plain(AnyK), y));
      DictIntoDict(a, Plain(AnyK), x);
      DictIntoDict(b, Plain(AnyK), y);
      DictIntoDict(a, Plain(AnyK), y);
    } else {
      var x, y := NotInheritedBreaks(a.kind.key, every);
      b, c := Plain(DictK(x, Plain(AnyK))), Plain(DictK(y, Plain(AnyK)));
      DictIntoDict(a, x, Plain(AnyK));
      DictIntoDict(b, y, Plain(AnyK));
      DictIntoDict(a, y, Plain(AnyK));
    }
  }

  lemma {:induction false} DictIntoDict(a: Property, key: Property, value: Property)
    requires a.kind.DictK?
    ensures CanCast(a, Plain(DictK(key, value))) <==> CanCast(a.kind.key, key) && CanCast(a.kind.value, value)
    ensures Constructible(key) && Constructible(value) ==> Constructible(Plain(DictK(key, value)))
  {
  }

  lemma {:induction false} NotInheritedUnionBreaks(a: Property, every: bool) returns (b: Property, c: Property)
    requires a.kind.UnionK? && SeparateUnions(a, every) && FieldsUnique(a) && !EnumInherited(a, every)
    ensures Breaks(a, b, c, every)
    decreases a, 0
  {
    var anyOf := a.kind.anyOf;
    if i :| 0 <= i < |anyOf| && !EnumInherited(anyOf[i], every) {
      if UnionsEnumFree(anyOf[i]) {
        EnumFreeIsInherited(anyOf[i], every);
      }
      var x, y := NotInheritedBreaks(anyOf[i], every);
      b, c := BreaksAlternative(a, i, x, y, every);
    } else {
      var i :| 0 <= i < |anyOf| && !EnumAccepts(anyOf[i].enum, a.enum);
      b, c := BreaksUnion(a, i, every);
    }
  }

  /** From a source whose enumerated unions stand alone in the unions above them, casts compose exactly then. */
  lemma {:induction false} TransitiveExactly(a: Property, every: bool)
    requires SeparateUnions(a, every) && FieldsUnique(a)
    ensures EnumInherited(a, every) <==> forall b, c :: !Breaks(a, b, c, every)
  {
    if EnumInherited(a, every) {
      forall b, c ensures !Breaks(a, b, c, every) {
        if Breaks(a, b, c, every) {
          CanCastTransitive(a, b, c, every);
        }
      }
    } else {
      var b, c := NotInheritedBreaks(a, every);
    }
  }

  /** A union's own enumeration breaks transitivity: its alternatives do not inherit it. */
  lemma {:induction false} UnionEnumBreaksTransitivity() returns (a: Property, b: Property, c: Property)
    ensures Constructible(a) && Constructible(b) && Constructible(c)
    ensures CanCast(a, b) && CanCast(b, c) && !CanCast(a, c)
  {
    var words := Some([PStr("x")]);
    b := Property("", "", None, words, StrK);
    a := Property("", "", None, words, UnionK([Plain(StrK)]));
    c := Plain(UnionK([b]));
    assert InEnum(Atom(PStr("x")), words.value) by {
      assert PyEq(PStr("x"), words.value[0]);
    }
    assert CanCast(b, c.kind.anyOf[0]) && Alternatives(b)[0] == b;
    assert !CanCast(Alternatives(a)[0], b);
    assert !CanCast(a, c);
    assert Constructible(a.kind.anyOf[0]) && Constructible(b);
  }

  // ---- Reflexivity ----

  predicate VectorAndMessageFree(p: Property)
    decreases p
  {
    match p.kind
    case VectorK(_, _) => false
    case MessageK => false
    case ListK(item) => VectorAndMessageFree(item)
    case DictK(key, value) => VectorAndMessageFree(key) && VectorAndMessageFree(value)
    case ObjectK(fields) => forall i | 0 <= i < |fields| :: VectorAndMessageFree(fields[i].prop)
    case UnionK(anyOf) => forall i | 0 <= i < |anyOf| :: VectorAndMessageFree(anyOf[i])
    case _ => true
  }

  /** Field names are the keys of a dictionary in the source. */
  predicate NamesUnique(fs: seq<Field>) {
    forall i, j | 0 <= i < j < |fs| :: fs[i].name != fs[j].name
  }

  predicate FieldsUnique(p: Property)
    decreases p
  {
    match p.kind
    case ListK(item) => FieldsUnique(item)
    case DictK(key, value) => FieldsUnique(key) && FieldsUnique(value)
    case ObjectK(fields) => NamesUnique(fields) && forall i | 0 <= i < |fields| :: FieldsUnique(fields[i].prop)
    case UnionK(anyOf) => forall i | 0 <= i < |anyOf| :: FieldsUnique(anyOf[i])
    case _ => true
  }

  /** A union shields a vector or message alternative behind a sibling that takes anything. */
  predicate UnionFree(p: Property)
    decreases p
  {
    match p.kind
    case ListK(item) => UnionFree(item)
    case DictK(key, value) => UnionFree(key) && UnionFree(value)
    case ObjectK(fields) => forall i | 0 <= i < |fields| :: UnionFree(fields[i].prop)
    case UnionK(_) => false
    case _ => true
  }

  /** Every property casts into itself when it holds no vector or message, and without unions only then. */
  lemma {:induction false} CanCastReflexive(p: Property)
    requires FieldsUnique(p)
    ensures VectorAndMessageFree(p) ==> CanCast(p, p)
    ensures UnionFree(p) ==> (CanCast(p, p) <==> VectorAndMessageFree(p))
    decreases p
  {
    EnumAcceptsReflexive(p.enum);
    match p.kind
    case ListK(item) => CanCastReflexive(item);
    case DictK(key, value) => CanCastReflexive(key); CanCastReflexive(value);
    case ObjectK(fields) =>
      forall i | 0 <= i < |fields|
        ensures HasField(fields, fields[i].name) && FieldOf(fields, fields[i].name) == fields[i].prop
        ensures VectorAndMessageFree(fields[i].prop) ==> CanCast(fields[i].prop, fields[i].prop)
        ensures UnionFree(fields[i].prop) ==>
          (CanCast(fields[i].prop, fields[i].prop) <==> VectorAndMessageFree(fields[i].prop))
      {
        CanCastReflexive(fields[i].prop);
      }
    case UnionK(anyOf) =>
      forall i | 0 <= i < |anyOf|
        ensures VectorAndMessageFree(anyOf[i]) ==> CastsIntoSome(anyOf[i], anyOf)
      {
        CanCastReflexive(anyOf[i]);
      }
    case _ =>
  }
}
