/** Naming the generated classes: schema names may clash once separators are dropped, class names may not. */
module ClassNames {

  /** `to_python_class_name`. */
  function ClassName(name: string): (r: string)
    ensures '_' !in r
  {
    if name == "" then ""
    else (if name[0] == '_' || name[0] == '-' then "" else [name[0]]) + ClassName(name[1..])
  }

  lemma {:induction false} ClassNameAppends(a: string, b: string)
    ensures ClassName(a + b) == ClassName(a) + ClassName(b)
    decreases |a|
  {
    if a == "" {
      assert a + b == b;
    } else {
      assert (a + b)[1..] == a[1..] + b;
      ClassNameAppends(a[1..], b);
    }
  }

  lemma {:induction false} ClassNameKeeps(a: string)
    requires '_' !in a && '-' !in a
    ensures ClassName(a) == a
    decreases |a|
  {
    if a != "" {
      ClassNameKeeps(a[1..]);
    }
  }

  /** A class name is the name without its underscores and hyphens: what stands between them stays, in order. */
  lemma {:induction false} ClassNameOfParts(a: string, c: char, b: string)
    requires '_' !in a && '-' !in a && (c == '_' || c == '-')
    ensures ClassName(a) == a && ClassName(a + ([c] + b)) == a + ClassName(b)
  {
    ClassNameKeeps(a);
    ClassNameAppends(a, [c] + b);
    SeparatorDropped(c, b);
  }

  lemma {:induction false} SeparatorDropped(c: char, b: string)
    requires c == '_' || c == '-'
    ensures ClassName([c] + b) == ClassName(b)
  {
    assert ([c] + b)[1..] == b;
  }

  function Underscores(n: nat): (r: string)
    ensures |r| == n && forall i | 0 <= i < n :: r[i] == '_'
  {
    seq(n, _ => '_')
  }

  /** How many of the names have this class name. */
  function Count(names: seq<string>, base: string): nat {
    if names == [] then 0
    else Count(names[..|names| - 1], base) + if ClassName(names[|names| - 1]) == base then 1 else 0
  }

  /** The name's class name, and an underscore for every earlier name that has the same one. */
  function PythonName(names: seq<string>, i: nat): string
    requires i < |names|
  {
    ClassName(names[i]) + Underscores(Count(names[..i], ClassName(names[i])))
  }

  /** Some name before position `n` is called `s`. */
  ghost predicate Used(names: seq<string>, n: nat, s: string)
    requires n <= |names|
  {
    exists j | 0 <= j < n :: PythonName(names, j) == s
  }

  // ---- Why the names differ ----

  function Lead(s: string): nat {
    if s == "" || s[0] == '_' then 0 else 1 + Lead(s[1..])
  }

  lemma {:induction false} LeadStops(a: string, n: nat)
    requires '_' !in a
    ensures Lead(a + Underscores(n)) == |a|
    decreases |a|
  {
    if a != "" {
      assert (a + Underscores(n))[1..] == a[1..] + Underscores(n);
      LeadStops(a[1..], n);
    }
  }

  lemma {:induction false} UnderscoresParse(a: string, n: nat, b: string, m: nat)
    requires '_' !in a && '_' !in b && a + Underscores(n) == b + Underscores(m)
    ensures a == b && n == m
  {
    LeadStops(a, n);
    LeadStops(b, m);
    var s := a + Underscores(n);
    assert a == s[..|a|] && b == s[..|b|];
  }

  lemma {:induction false} CountGrows(names: seq<string>, i: nat, n: nat)
    requires i < n <= |names|
    ensures Count(names[..i], ClassName(names[i])) < Count(names[..n], ClassName(names[i]))
    decreases n
  {
    assert names[..n][..n - 1] == names[..n - 1];
    if i < n - 1 {
      CountGrows(names, i, n - 1);
    }
  }

  lemma {:induction false} CountWitness(names: seq<string>, base: string, k: nat) returns (j: nat)
    requires k < Count(names, base)
    ensures j < |names| && ClassName(names[j]) == base && Count(names[..j], base) == k
    decreases |names|
  {
    var n := |names| - 1;
    if k < Count(names[..n], base) {
      j := CountWitness(names[..n], base, k);
      assert names[..n][..j] == names[..j];
    } else {
      j := n;
    }
  }

  /** Of the candidates for a class name, the used ones are those with fewer underscores than names so far. */
  lemma {:induction false} UsedExactly(names: seq<string>, n: nat, base: string, k: nat)
    requires n <= |names| && '_' !in base
    ensures Used(names, n, base + Underscores(k)) <==> k < Count(names[..n], base)
  {
    if k < Count(names[..n], base) {
      var j := CountWitness(names[..n], base, k);
      assert names[..n][..j] == names[..j];
      assert PythonName(names, j) == base + Underscores(k);
    }
    if Used(names, n, base + Underscores(k)) {
      var j :| 0 <= j < n && PythonName(names, j) == base + Underscores(k);
      UnderscoresParse(base, k, ClassName(names[j]), Count(names[..j], ClassName(names[j])));
      CountGrows(names, j, n);
    }
  }

  /** No two schemas get the same class name. */
  lemma {:induction false} NamesDiffer(names: seq<string>, i: nat, j: nat)
    requires i < j < |names|
    ensures PythonName(names, i) != PythonName(names, j)
  {
    if PythonName(names, i) == PythonName(names, j) {
      UnderscoresParse(ClassName(names[i]), Count(names[..i], ClassName(names[i])),
                       ClassName(names[j]), Count(names[..j], ClassName(names[j])));
      CountGrows(names, i, j);
    }
  }

  // ---- The loop ----

  /** The names given, in the order of the schemas. */
  function PythonNames(names: seq<string>): (r: seq<string>)
    ensures |r| == |names| && forall i | 0 <= i < |r| :: r[i] == PythonName(names, i)
  {
    seq(|names|, i requires 0 <= i < |names| => PythonName(names, i))
  }

  ghost predicate Distinct(s: seq<string>) {
    forall i, j | 0 <= i < j < |s| :: s[i] != s[j]
  }

  lemma {:induction false} PythonNamesDistinct(names: seq<string>)
    ensures Distinct(PythonNames(names))
  {
    forall i, j | 0 <= i < j < |names| ensures PythonNames(names)[i] != PythonNames(names)[j] {
      NamesDiffer(names, i, j);
    }
  }

  /** What both dictionaries hold once the first `n` schemas are named. */
  ghost predicate Named(names: seq<string>, py: seq<string>, n: nat, toPython: map<string, string>,
                        toOriginal: map<string, string>)
    requires n <= |names| == |py|
  {
    && (forall x :: x in toPython <==> x in names[..n])
    && (forall s :: s in toOriginal <==> s in py[..n])
    && (forall i | 0 <= i < n :: py[i] in toOriginal && toOriginal[py[i]] == names[i])
    && (forall x | x in toPython :: toPython[x] in toOriginal && toOriginal[toPython[x]] == x)
  }

  lemma {:induction false} NamedNext(names: seq<string>, py: seq<string>, n: nat, toPython: map<string, string>,
                  toOriginal: map<string, string>)
    requires n < |names| == |py| && Distinct(py) && Named(names, py, n, toPython, toOriginal)
    ensures py[n] !in toOriginal
    ensures Named(names, py, n + 1, toPython[names[n] := py[n]], toOriginal[py[n] := names[n]])
  {
    assert names[..n + 1] == names[..n] + [names[n]] && py[..n + 1] == py[..n] + [py[n]];
    assert forall i | 0 <= i < n :: py[..n][i] != py[n];
  }

  /** The naming loop of `ModelBuilder.__init__`; a class name always leads back to its schema. */
  method AssignNames(names: seq<string>) returns (toPython: map<string, string>, toOriginal: map<string, string>)
    ensures Distinct(PythonNames(names))
    ensures Named(names, PythonNames(names), |names|, toPython, toOriginal)
  {
    toPython, toOriginal := map[], map[];
    var used := {};
    ghost var py := PythonNames(names);
    PythonNamesDistinct(names);
    for i := 0 to |names|
      invariant used == toOriginal.Keys && Named(names, py, i, toPython, toOriginal)
    {
      UsedIsNamed(names, i);
      var python := FreeName(names, i, used);
      NamedNext(names, py, i, toPython, toOriginal);
      toPython := toPython[names[i] := python];
      toOriginal := toOriginal[python := names[i]];
      used := used + {python};
    }
  }

  lemma {:induction false} UsedIsNamed(names: seq<string>, n: nat)
    requires n <= |names|
    ensures forall s :: Used(names, n, s) <==> s in PythonNames(names)[..n]
  {
    var py := PythonNames(names);
    forall s | Used(names, n, s) ensures s in py[..n] {
      var j :| 0 <= j < n && PythonName(names, j) == s;
      assert py[..n][j] == s;
    }
  }

  /** The inner loop: underscores until the name is free. */
  method FreeName(names: seq<string>, i: nat, used: set<string>) returns (python: string)
    requires i < |names| && forall s :: s in used <==> Used(names, i, s)
    ensures python == PythonName(names, i) && python !in used
  {
    var base := ClassName(names[i]);
    python := base;
    ghost var k := 0;
    assert python == base + Underscores(0);
    UsedExactly(names, i, base, 0);
    while python in used
      invariant python == base + Underscores(k)
      invariant k <= Count(names[..i], base)
      invariant python in used <==> k < Count(names[..i], base)
      decreases Count(names[..i], base) - k
    {
      python := python + "_";
      k := k + 1;
      assert python == base + Underscores(k);
      UsedExactly(names, i, base, k);
    }
  }
}
