/** What a cast returns: the value itself, kind by kind. */
module CastValues {
  import opened Wrappers
  import opened Properties
  import opened Casting
  import opened CastRelation
  import opened Defaults

  // ---- Scalars ----

  /** The whole number next to r on the side of zero. */
  predicate TowardZero(r: real, n: int) {
    if r >= 0.0 then n >= 0 && n as real <= r < n as real + 1.0
    else n <= 0 && n as real - 1.0 < r <= n as real
  }

  /** Every cast into a whole number: integers and booleans pass, floats are rounded toward zero. */
  lemma {:induction false} IntCast(v: Value, t: Property, dumps: Value -> string)
    requires t.kind.IntK? && t.enum.None?
    ensures IsInt(v) ==> Cast(v, t, dumps) == Ok(v)
    ensures v.Atom? && v.p.PFloat? ==>
              Cast(v, t, dumps).Ok? && Cast(v, t, dumps).value.Atom? && Cast(v, t, dumps).value.p.PInt?
              && TowardZero(v.p.r, Cast(v, t, dumps).value.p.i)
    ensures !IsNumber(v) ==> Cast(v, t, dumps) == Raise(ValueError)
  {
    assert KindMember(v, t.kind) <==> IsInt(v);
  }

  lemma {:induction false} FloatCast(v: Value, t: Property, dumps: Value -> string)
    requires t.kind.FloatK? && t.enum.None?
    ensures v.Atom? && v.p.PFloat? ==> Cast(v, t, dumps) == Ok(v)
    ensures v.Atom? && v.p.PInt? ==> Cast(v, t, dumps) == Ok(Atom(PFloat(v.p.i as real)))
    ensures v.Atom? && v.p.PBool? ==> Cast(v, t, dumps) == Ok(Atom(PFloat(if v.p.b then 1.0 else 0.0)))
    ensures !IsNumber(v) ==> Cast(v, t, dumps) == Raise(ValueError)
  {
    assert KindMember(v, t.kind) <==> v.Atom? && v.p.PFloat?;
  }

  /** Zero is false, every other number true. */
  lemma {:induction false} BoolCast(v: Value, t: Property, dumps: Value -> string)
    requires t.kind.BoolK? && t.enum.None?
    ensures v.Atom? && v.p.PBool? ==> Cast(v, t, dumps) == Ok(v)
    ensures v.Atom? && v.p.PInt? ==> Cast(v, t, dumps) == Ok(Atom(PBool(v.p.i != 0)))
    ensures v.Atom? && v.p.PFloat? ==> Cast(v, t, dumps) == Ok(Atom(PBool(v.p.r != 0.0)))
    ensures !IsNumber(v) ==> Cast(v, t, dumps) == Raise(ValueError)
  {
    assert KindMember(v, t.kind) <==> v.Atom? && v.p.PBool?;
  }

  lemma {:induction false} TextCast(v: Value, t: Property, dumps: Value -> string)
    requires t.kind.StrK? && t.enum.None?
    ensures v.Atom? && v.p.PStr? ==> Cast(v, t, dumps) == Ok(v)
    ensures v == NoneValue ==> Cast(v, t, dumps) == Ok(Atom(PStr("")))
    ensures v != NoneValue && !(v.Atom? && v.p.PStr?) ==> Cast(v, t, dumps) == Ok(Atom(PStr(dumps(v))))
  {
    assert KindMember(v, t.kind) <==> v.Atom? && v.p.PStr?;
  }

  /** What is never converted: nothing becomes null, a message or a vector, and everything is Any. */
  lemma {:induction false} FixedCast(v: Value, t: Property, dumps: Value -> string)
    requires t.enum.None? && (t.kind.NullK? || t.kind.MessageK? || t.kind.VectorK? || t.kind.AnyK?)
    ensures Cast(v, t, dumps) == if IsMember(v, t) then Ok(v) else Raise(ValueError)
    ensures t.kind.AnyK? ==> Cast(v, t, dumps) == Ok(v)
    ensures t.kind.NullK? ==> (Cast(v, t, dumps).Ok? <==> v == NoneValue)
  {
    assert IsMember(v, t) <==> KindMember(v, t.kind);
  }

  /** An enumerated scalar: what is listed passes; the rest is cast as without the list, and must then be listed. */
  lemma {:induction false} EnumeratedCast(v: Value, t: Property, dumps: Value -> string)
    requires t.kind.Simple() && t.enum.Some?
    ensures IsMember(v, t) ==> Cast(v, t, dumps) == Ok(v)
    ensures !KindMember(v, t.kind) ==>
              var r := Cast(v, t.(enum := None), dumps);
              Cast(v, t, dumps) == if r.Ok? && !InEnum(r.value, t.enum.value) then Raise(TypeError) else r
    ensures KindMember(v, t.kind) && !InEnum(v, t.enum.value) && !t.kind.StrK? ==> Cast(v, t, dumps).Raise?
    ensures KindMember(v, t.kind) && !InEnum(v, t.enum.value) && t.kind.StrK? ==>
              var w := Atom(PStr(dumps(v)));
              Cast(v, t, dumps) == if InEnum(w, t.enum.value) then Ok(w) else Raise(TypeError)
  {
    assert IsMember(v, t) <==> KindMember(v, t.kind) && InEnum(v, t.enum.value);
  }

  lemma {:induction false} MemberPasses(v: Value, t: Property, dumps: Value -> string)
    requires IsMember(v, t)
    ensures Cast(v, t, dumps) == Ok(v)
  {
  }

  // ---- Lists ----

  /** The items before i are cast, and i is the first that raises. */
  predicate FirstToRaise(vs: seq<Value>, t: Property, dumps: Value -> string, i: nat) {
    i < |vs| && Cast(vs[i], t, dumps).Raise? && forall j | 0 <= j < i :: Cast(vs[j], t, dumps).Ok?
  }

  lemma {:induction false} CastItemsAre(vs: seq<Value>, t: Property, dumps: Value -> string)
    ensures var r := CastItems(vs, t, dumps);
      && (r.Ok? ==> |r.value| == |vs| && forall i | 0 <= i < |vs| :: Cast(vs[i], t, dumps) == Ok(r.value[i]))
      && (r.Raise? ==> exists i: nat :: FirstToRaise(vs, t, dumps, i) && Cast(vs[i], t, dumps) == Raise(r.error))
    decreases |vs|
  {
    if vs != [] {
      CastItemsAre(vs[1..], t, dumps);
      var r := CastItems(vs, t, dumps);
      if r.Raise? && Cast(vs[0], t, dumps).Ok? {
        var i: nat :| FirstToRaise(vs[1..], t, dumps, i) && Cast(vs[1..][i], t, dumps) == Raise(r.error);
        assert forall j | 0 < j < |vs| :: vs[j] == vs[1..][j - 1];
        assert FirstToRaise(vs, t, dumps, i + 1);
      } else if r.Raise? {
        assert FirstToRaise(vs, t, dumps, 0);
      }
    }
  }

  /** A list is cast item by item, in order, and raises what its first failing item raises. */
  lemma {:induction false} ListCast(v: Value, t: Property, dumps: Value -> string)
    requires t.kind.ListK? && t.enum.None? && v.ListVal?
    ensures var r := Cast(v, t, dumps);
      && (r.Ok? ==> r.value.ListVal? && |r.value.items| == |v.items|)
      && (r.Ok? ==> forall i | 0 <= i < |v.items| :: Cast(v.items[i], t.kind.item, dumps) == Ok(r.value.items[i]))
      && (r.Raise? ==> exists i: nat ::
            FirstToRaise(v.items, t.kind.item, dumps, i) && Cast(v.items[i], t.kind.item, dumps) == Raise(r.error))
  {
    if KindMember(v, t.kind) {
      forall i | 0 <= i < |v.items| ensures Cast(v.items[i], t.kind.item, dumps) == Ok(v.items[i]) {
        MemberPasses(v.items[i], t.kind.item, dumps);
      }
    } else {
      CastItemsAre(v.items, t.kind.item, dumps);
    }
  }

  // ---- Dictionaries ----

  function KeyOf(e: Entry, t: Property, dumps: Value -> string): Result<Value, CastError>
    requires t.kind.DictK?
  {
    Cast(Atom(e.key), t.kind.key, dumps)
  }

  /** Both parts of the entry are cast, the key to a scalar. */
  predicate EntryCasts(e: Entry, t: Property, dumps: Value -> string)
    requires t.kind.DictK?
  {
    KeyOf(e, t, dumps).Ok? && KeyOf(e, t, dumps).value.Atom? && Cast(e.val, t.kind.value, dumps).Ok?
  }

  /** The entry's key is cast to one that equals k. */
  predicate CastsTo(e: Entry, t: Property, dumps: Value -> string, k: Prim)
    requires t.kind.DictK?
  {
    EntryCasts(e, t, dumps) && PyEq(KeyOf(e, t, dumps).value.p, k)
  }

  predicate LastFor(es: seq<Entry>, t: Property, dumps: Value -> string, k: Prim, i: nat)
    requires t.kind.DictK?
  {
    && i < |es| && CastsTo(es[i], t, dumps, k)
    && forall j | i < j < |es| :: !CastsTo(es[j], t, dumps, k)
  }

  /** r answers under each key with the cast of the last entry whose key is cast to it, and has no other key. */
  ghost predicate AnswersAsCast(es: seq<Entry>, t: Property, dumps: Value -> string, r: seq<Entry>)
    requires t.kind.DictK?
  {
    && (forall i | 0 <= i < |es| :: EntryCasts(es[i], t, dumps))
    && (forall k :: HasKey(r, k) ==> exists i: nat :: LastFor(es, t, dumps, k, i))
    && forall k, i: nat | LastFor(es, t, dumps, k, i) ::
         HasKey(r, k) && Ok(Lookup(r, k)) == Cast(es[i].val, t.kind.value, dumps)
  }

  lemma {:induction false} OneMoreEntry(
    es: seq<Entry>, n: nat, t: Property, dumps: Value -> string, r: seq<Entry>, k: Prim, x: Value)
    requires t.kind.DictK? && |es| == n + 1 && AnswersAsCast(es[..n], t, dumps, r)
    requires KeyOf(es[n], t, dumps) == Ok(Atom(k)) && Cast(es[n].val, t.kind.value, dumps) == Ok(x)
    ensures AnswersAsCast(es, t, dumps, Put(r, k, x))
  {
    var s := Put(r, k, x);
    forall q | HasKey(s, q) ensures exists i: nat :: LastFor(es, t, dumps, q, i) {
      PutLookup(r, k, x, q);
      if PyEq(k, q) {
        assert LastFor(es, t, dumps, q, n);
      } else {
        var i: nat :| LastFor(es[..n], t, dumps, q, i);
        assert LastFor(es, t, dumps, q, i);
      }
    }
    forall q, i: nat | LastFor(es, t, dumps, q, i)
      ensures HasKey(s, q) && Ok(Lookup(s, q)) == Cast(es[i].val, t.kind.value, dumps)
    {
      PutLookup(r, k, x, q);
      if i < n {
        assert !CastsTo(es[n], t, dumps, q);
        assert LastFor(es[..n], t, dumps, q, i);
      }
    }
    assert forall i | 0 <= i < n :: es[..n][i] == es[i];
  }

  lemma {:induction false} CastEntriesAre(es: seq<Entry>, t: Property, dumps: Value -> string)
    requires t.kind.DictK?
    ensures var r := CastEntries(es, t, dumps); r.Ok? ==> AnswersAsCast(es, t, dumps, r.value)
    ensures CastEntries(es, t, dumps).Ok? <==> forall i | 0 <= i < |es| :: EntryCasts(es[i], t, dumps)
    decreases |es|
  {
    if es != [] {
      var n := |es| - 1;
      CastEntriesAre(es[..n], t, dumps);
      assert forall i | 0 <= i < n :: es[..n][i] == es[i];
      if CastEntries(es, t, dumps).Ok? {
        var k, x := KeyOf(es[n], t, dumps).value.p, Cast(es[n].val, t.kind.value, dumps).value;
        OneMoreEntry(es, n, t, dumps, CastEntries(es[..n], t, dumps).value, k, x);
      }
    }
  }

  /** No two entries of a dictionary have equal keys. */
  predicate KeysUnique(es: seq<Entry>) {
    forall i, j | 0 <= i < j < |es| :: !PyEq(es[i].key, es[j].key)
  }

  lemma {:induction false} MemberAnswers(es: seq<Entry>, t: Property, dumps: Value -> string)
    requires t.kind.DictK? && KeysUnique(es) && KindMember(DictVal(es), t.kind)
    ensures AnswersAsCast(es, t, dumps, es)
  {
    forall i | 0 <= i < |es|
      ensures KeyOf(es[i], t, dumps) == Ok(Atom(es[i].key)) && Cast(es[i].val, t.kind.value, dumps) == Ok(es[i].val)
    {
      MemberPasses(Atom(es[i].key), t.kind.key, dumps);
      MemberPasses(es[i].val, t.kind.value, dumps);
    }
    forall k | HasKey(es, k) ensures exists i: nat :: LastFor(es, t, dumps, k, i) {
      var n := IndexOf(es, k);
      assert LastFor(es, t, dumps, k, n);
    }
    forall k, i: nat | LastFor(es, t, dumps, k, i)
      ensures HasKey(es, k) && Ok(Lookup(es, k)) == Cast(es[i].val, t.kind.value, dumps)
    {
      IndexOfUnique(es, k, i);
    }
  }

  lemma {:induction false} IndexOfUnique(es: seq<Entry>, k: Prim, i: nat)
    requires KeysUnique(es) && i < |es| && PyEq(es[i].key, k)
    ensures IndexOf(es, k) == i
  {
    var n := IndexOf(es, k);
    assert n <= i;
    assert n < i ==> PyEq(es[n].key, es[i].key);
  }

  /** A dictionary is cast entry by entry; where keys become equal the last entry decides. */
  lemma {:induction false} DictCast(v: Value, t: Property, dumps: Value -> string)
    requires t.kind.DictK? && t.enum.None? && v.DictVal? && KeysUnique(v.entries)
    ensures var r := Cast(v, t, dumps);
      && (r.Ok? <==> forall i | 0 <= i < |v.entries| :: EntryCasts(v.entries[i], t, dumps))
      && (r.Ok? ==> r.value.DictVal? && AnswersAsCast(v.entries, t, dumps, r.value.entries))
  {
    if KindMember(v, t.kind) {
      MemberAnswers(v.entries, t, dumps);
    } else {
      CastEntriesAre(v.entries, t, dumps);
    }
  }

  // ---- Objects ----

  predicate FieldCasts(v: Value, f: Field, dumps: Value -> string) {
    HasMember(v, f.name) && Cast(MemberOf(v, f.name), f.prop, dumps).Ok?
  }

  /** The last field of the loop. */
  lemma {:induction false} CastFieldsLast(v: Value, fs: seq<Field>, n: nat, dumps: Value -> string)
    requires |fs| == n + 1
    ensures CastFields(v, fs, dumps).Ok? <==> CastFields(v, fs[..n], dumps).Ok? && FieldCasts(v, fs[n], dumps)
    ensures CastFields(v, fs, dumps).Ok? ==>
              CastFields(v, fs, dumps).value ==
              Put(CastFields(v, fs[..n], dumps).value, PStr(fs[n].name),
                  Cast(MemberOf(v, fs[n].name), fs[n].prop, dumps).value)
  {
  }

  predicate AllCast(v: Value, fs: seq<Field>, dumps: Value -> string) {
    forall i | 0 <= i < |fs| :: FieldCasts(v, fs[i], dumps)
  }

  lemma {:induction false} AllCastLast(v: Value, fs: seq<Field>, n: nat, dumps: Value -> string)
    requires |fs| == n + 1
    ensures AllCast(v, fs, dumps) <==> AllCast(v, fs[..n], dumps) && FieldCasts(v, fs[n], dumps)
  {
    assert forall i | 0 <= i < n :: fs[..n][i] == fs[i];
  }

  lemma {:induction false} CastFieldsPutAll(v: Value, fs: seq<Field>, dumps: Value -> string, values: Field -> Value)
    requires forall f | f in fs && FieldCasts(v, f, dumps) ::
               values(f) == Cast(MemberOf(v, f.name), f.prop, dumps).value
    ensures CastFields(v, fs, dumps).Ok? <==> AllCast(v, fs, dumps)
    ensures CastFields(v, fs, dumps).Ok? ==> CastFields(v, fs, dumps).value == PutAll(fs, values)
    decreases |fs|
  {
    if fs != [] {
      var n := |fs| - 1;
      CastFieldsPutAll(v, fs[..n], dumps, values);
      CastFieldsLast(v, fs, n, dumps);
      AllCastLast(v, fs, n, dumps);
      assert fs[n] in fs;
    }
  }

  /** The entries have exactly the names of the fields, each with the cast of what v holds under it. */
  ghost predicate HoldsCasts(v: Value, fs: seq<Field>, dumps: Value -> string, es: seq<Entry>) {
    && ExactlyNamed(fs, es)
    && forall i | 0 <= i < |fs| ::
         HasMember(v, fs[i].name) &&
         Ok(Lookup(es, PStr(fs[i].name))) == Cast(MemberOf(v, fs[i].name), fs[i].prop, dumps)
  }

  /** An object is cast to a dictionary with exactly the names of the target, each with the cast of that member. */
  lemma {:induction false} ObjectCast(v: Value, t: Property, dumps: Value -> string)
    requires t.kind.ObjectK? && t.enum.None? && NamesUnique(t.kind.fields)
    ensures var r, fs := Cast(v, t, dumps), t.kind.fields;
      && (IsMember(v, t) ==> r == Ok(v))
      && (r.Ok? <==> IsMember(v, t) || AllCast(v, fs, dumps))
      && (r.Ok? && !IsMember(v, t) ==> r.value.DictVal? && HoldsCasts(v, fs, dumps, r.value.entries))
  {
    if !KindMember(v, t.kind) {
      var fs := t.kind.fields;
      var values := (f: Field) =>
        if FieldCasts(v, f, dumps) then Cast(MemberOf(v, f.name), f.prop, dumps).value else NoneValue;
      CastFieldsPutAll(v, fs, dumps, values);
      PutAllNamed(fs, values);
      forall i | 0 <= i < |fs| ensures Lookup(PutAll(fs, values), PStr(fs[i].name)) == values(fs[i]) {
        PutAllHolds(fs, values, i);
      }
    }
  }

  /** A missing name raises `KeyError` on a dictionary, and `AttributeError` on anything else. */
  lemma {:induction false} FieldRaises(v: Value, fs: seq<Field>, i: nat, dumps: Value -> string)
    requires i < |fs| && AllCast(v, fs[..i], dumps) && !FieldCasts(v, fs[i], dumps)
    ensures CastFields(v, fs, dumps) ==
            if HasMember(v, fs[i].name) then Raise(Cast(MemberOf(v, fs[i].name), fs[i].prop, dumps).error)
            else Raise(if v.DictVal? then KeyError else AttributeError)
    decreases |fs|
  {
    var n := |fs| - 1;
    if i < n {
      assert fs[..n][..i] == fs[..i];
      FieldRaises(v, fs[..n], i, dumps);
    } else {
      var values := (f: Field) =>
        if FieldCasts(v, f, dumps) then Cast(MemberOf(v, f.name), f.prop, dumps).value else NoneValue;
      CastFieldsPutAll(v, fs[..n], dumps, values);
    }
  }

  // ---- Unions ----

  /** The alternative that decides: the first whose cast does anything but raise `ValueError`. */
  predicate Decides(v: Value, ts: seq<Property>, dumps: Value -> string, i: nat) {
    && i < |ts| && Cast(v, ts[i], dumps) != Raise(ValueError)
    && forall j | 0 <= j < i :: Cast(v, ts[j], dumps) == Raise(ValueError)
  }

  lemma {:induction false} CastUnionDecides(v: Value, ts: seq<Property>, dumps: Value -> string)
    ensures forall i: nat | Decides(v, ts, dumps, i) :: CastUnion(v, ts, dumps) == Cast(v, ts[i], dumps)
    ensures (forall i: nat :: !Decides(v, ts, dumps, i)) ==> CastUnion(v, ts, dumps) == Raise(ValueError)
    decreases |ts|
  {
    if ts != [] {
      CastUnionDecides(v, ts[1..], dumps);
      assert forall i: nat | 0 < i < |ts| :: ts[i] == ts[1..][i - 1];
      if Cast(v, ts[0], dumps) == Raise(ValueError) {
        forall i: nat | Decides(v, ts[1..], dumps, i) ensures Decides(v, ts, dumps, i + 1) {
        }
      } else {
        assert Decides(v, ts, dumps, 0);
      }
      forall i: nat | Decides(v, ts, dumps, i) ensures CastUnion(v, ts, dumps) == Cast(v, ts[i], dumps) {
        if i > 0 {
          assert Cast(v, ts[0], dumps) == Raise(ValueError);
          assert Decides(v, ts[1..], dumps, i - 1);
        }
      }
    }
  }

  /** A value of an alternative passes; any other is cast by the first alternative that decides. */
  lemma {:induction false} UnionCast(v: Value, t: Property, dumps: Value -> string)
    requires t.kind.UnionK? && t.enum.None?
    ensures IsMember(v, t) ==> Cast(v, t, dumps) == Ok(v)
    ensures forall i: nat | !IsMember(v, t) && Decides(v, t.kind.anyOf, dumps, i) ::
              Cast(v, t, dumps) == Cast(v, t.kind.anyOf[i], dumps)
    ensures !IsMember(v, t) && (forall i: nat :: !Decides(v, t.kind.anyOf, dumps, i)) ==>
              Cast(v, t, dumps) == Raise(ValueError)
  {
    if !KindMember(v, t.kind) {
      CastUnionDecides(v, t.kind.anyOf, dumps);
      assert TryCast(v, t, dumps) == CastUnion(v, t.kind.anyOf, dumps);
    }
  }
}
