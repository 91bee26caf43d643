/** Splitting a type expression at its top-level bars, and joining the parts again. */
module UnionText {

  /** The white space that `str.strip` removes. */
  predicate IsSpace(c: char) {
    var n := c as int;
    || 9 <= n <= 13 || 28 <= n <= 32 || n == 0x85 || n == 0xA0 || n == 0x1680
    || 0x2000 <= n <= 0x200A || n == 0x2028 || n == 0x2029 || n == 0x202F || n == 0x205F || n == 0x3000
  }

  function StripLeft(s: string): string {
    if s != [] && IsSpace(s[0]) then StripLeft(s[1..]) else s
  }

  function StripRight(s: string): string {
    if s != [] && IsSpace(s[|s| - 1]) then StripRight(s[..|s| - 1]) else s
  }

  function Strip(s: string): string {
    StripRight(StripLeft(s))
  }

  /** A bracket changes the depth, which never falls below zero. */
  function Deeper(d: nat, c: char): nat {
    if c == '[' then d + 1 else if c == ']' && d > 0 then d - 1 else d
  }

  /** The stripped text of a part, unless nothing is left of it. */
  function Flush(current: string): seq<string> {
    if Strip(current) == "" then [] else [Strip(current)]
  }

  /** The parts still to come, after `current` has been read since the last bar. */
  function Scan(s: string, d: nat, current: string): seq<string>
    decreases |s|
  {
    if s == [] then Flush(current)
    else
      var e := Deeper(d, s[0]);
      if s[0] == '|' && e == 0 then Flush(current) + Scan(s[1..], e, "")
      else Scan(s[1..], e, current + [s[0]])
  }

  function Split(s: string): seq<string> {
    Scan(s, 0, "")
  }

  method SplitUnion(s: string) returns (parts: seq<string>)
    ensures parts == Split(s)
  {
    parts := [];
    var depth: nat := 0;
    var current: string := [];
    for i := 0 to |s|
      invariant parts + Scan(s[i..], depth, current) == Split(s)
    {
      var c := s[i];
      assert s[i..][0] == c && s[i..][1..] == s[i + 1..];
      if c == '[' {
        depth := depth + 1;
      } else if c == ']' {
        depth := if depth > 0 then depth - 1 else 0;
      }
      if c == '|' && depth == 0 {
        var part := Strip(current);
        if part != "" {
          parts := parts + [part];
        }
        current := [];
        continue;
      }
      current := current + [c];
    }
    if current != [] {
      var part := Strip(current);
      if part != "" {
        parts := parts + [part];
      }
    }
  }

  /** Stripped, non-empty, and the first of its kind. */
  function Unique(parts: seq<string>): seq<string> {
    if parts == [] then []
    else
      var before := Unique(parts[..|parts| - 1]);
      var part := Strip(parts[|parts| - 1]);
      if part != "" && part !in before then before + [part] else before
  }

  function JoinText(parts: seq<string>): string {
    if parts == [] then ""
    else if |parts| == 1 then parts[0]
    else parts[0] + " | " + JoinText(parts[1..])
  }

  function Join(parts: seq<string>): string {
    JoinText(Unique(parts))
  }

  method JoinUnion(parts: seq<string>) returns (r: string)
    ensures r == Join(parts)
  {
    var unique: seq<string> := [];
    for i := 0 to |parts|
      invariant unique == Unique(parts[..i])
    {
      assert parts[..i + 1][..i] == parts[..i];
      var part := Strip(parts[i]);
      if part != "" && part !in unique {
        unique := unique + [part];
      }
    }
    assert parts[..|parts|] == parts;
    r := JoinText(unique);
  }

  /** `add_union_member` */
  method AddUnionMember(s: string, member: string) returns (r: string)
    ensures r == Join(if member in Split(s) then Split(s) else Split(s) + [member])
  {
    var parts := SplitUnion(s);
    if member !in parts {
      parts := parts + [member];
    }
    r := JoinUnion(parts);
  }

  // ---- The shape of a part ----

  /** The depth after reading s. */
  function Depth(s: string, d: nat): nat {
    if s == [] then d else Depth(s[1..], Deeper(d, s[0]))
  }

  function Occurrences(c: char, s: string): nat {
    if s == [] then 0 else (if s[0] == c then 1 else 0) + Occurrences(c, s[1..])
  }

  /** Opening less closing square brackets. */
  function Balance(s: string): int {
    Occurrences('[', s) - Occurrences(']', s)
  }

  /** How many brackets are open at the end: the largest surplus of opening ones over all ends of the text. */
  lemma {:induction false} DepthIsSurplus(s: string, d: nat)
    ensures Depth(s, d) >= d + Balance(s)
    ensures forall k | 0 <= k <= |s| :: Balance(s[k..]) <= Depth(s, d)
    ensures Depth(s, d) == d + Balance(s) || exists k :: 0 <= k <= |s| && Balance(s[k..]) == Depth(s, d)
    decreases |s|
  {
    assert s[|s|..] == [] && s[0..] == s;
    if s != [] {
      var e := Deeper(d, s[0]);
      DepthIsSurplus(s[1..], e);
      forall k | 0 < k <= |s| ensures Balance(s[k..]) <= Depth(s, d) {
        assert s[1..][k - 1..] == s[k..];
      }
      if k :| 0 <= k <= |s[1..]| && Balance(s[1..][k..]) == Depth(s[1..], e) {
        assert s[1..][k..] == s[k + 1..];
      } else {
        assert s[1..] == s[1..][0..];
      }
    }
  }

  /** No bar of s is at depth zero. */
  predicate Quiet(s: string, d: nat) {
    s != [] ==> !(s[0] == '|' && d == 0) && Quiet(s[1..], Deeper(d, s[0]))
  }

  predicate Spaces(s: string) {
    forall i | 0 <= i < |s| :: IsSpace(s[i])
  }

  predicate Stripped(s: string) {
    s != [] ==> !IsSpace(s[0]) && !IsSpace(s[|s| - 1])
  }

  /** What a part looks like: trimmed text without a bar at its top level. */
  predicate IsPart(s: string) {
    s != [] && Stripped(s) && Quiet(s, 0)
  }

  /** Parts in a row: only the last may leave a bracket open. */
  predicate PartsInRow(ps: seq<string>) {
    && (forall i | 0 <= i < |ps| :: IsPart(ps[i]))
    && forall i | 0 <= i < |ps| - 1 :: Depth(ps[i], 0) == 0
  }

  lemma {:induction false} ReadAppends(a: string, b: string, d: nat)
    ensures Depth(a + b, d) == Depth(b, Depth(a, d))
    ensures Quiet(a + b, d) <==> Quiet(a, d) && Quiet(b, Depth(a, d))
    decreases |a|
  {
    if a == [] {
      assert a + b == b;
    } else {
      assert (a + b)[1..] == a[1..] + b;
      ReadAppends(a[1..], b, Deeper(d, a[0]));
    }
  }

  lemma {:induction false} SpacesReadNothing(s: string, d: nat)
    requires Spaces(s)
    ensures Depth(s, d) == d && Quiet(s, d)
    decreases |s|
  {
    if s != [] {
      assert Spaces(s[1..]);
      SpacesReadNothing(s[1..], d);
    }
  }

  lemma {:induction false} SpacesCons(s: string, b: string, t: string)
    requires s != [] && IsSpace(s[0]) && Spaces(b) && s[1..] == b + t
    ensures Spaces([s[0]] + b) && s == [s[0]] + b + t
  {
    assert s == [s[0]] + s[1..];
  }

  lemma {:induction false} StripLeftSplits(s: string) returns (a: string)
    ensures Spaces(a) && s == a + StripLeft(s)
    ensures StripLeft(s) != [] ==> !IsSpace(StripLeft(s)[0])
    decreases |s|
  {
    if s != [] && IsSpace(s[0]) {
      var b := StripLeftSplits(s[1..]);
      a := [s[0]] + b;
      SpacesCons(s, b, StripLeft(s[1..]));
    } else {
      a := [];
    }
  }

  lemma {:induction false} StripRightSplits(s: string) returns (b: string)
    ensures Spaces(b) && s == StripRight(s) + b
    ensures StripRight(s) != [] ==> !IsSpace(StripRight(s)[|StripRight(s)| - 1])
    decreases |s|
  {
    if s != [] && IsSpace(s[|s| - 1]) {
      var c := StripRightSplits(s[..|s| - 1]);
      b := c + [s[|s| - 1]];
      assert s == s[..|s| - 1] + [s[|s| - 1]];
    } else {
      b := [];
    }
  }

  lemma {:induction false} StripSplits(s: string) returns (a: string, b: string)
    ensures Spaces(a) && Spaces(b) && s == a + Strip(s) + b && Stripped(Strip(s))
  {
    a := StripLeftSplits(s);
    b := StripRightSplits(StripLeft(s));
    assert Strip(s) != [] ==> Strip(s)[0] == StripLeft(s)[0];
  }

  /** Stripping changes neither the final depth nor the bars at depth zero. */
  lemma {:induction false} StripReadsTheSame(s: string)
    ensures Depth(Strip(s), 0) == Depth(s, 0) && (Quiet(Strip(s), 0) <==> Quiet(s, 0))
  {
    var a, b := StripSplits(s);
    var m := Strip(s);
    ReadAppends(a + m, b, 0);
    ReadAppends(a, m, 0);
    SpacesReadNothing(a, 0);
    SpacesReadNothing(b, Depth(m, 0));
  }

  lemma {:induction false} StripLeftSkips(a: string, s: string)
    requires Spaces(a) && (s != [] ==> !IsSpace(s[0]))
    ensures StripLeft(a + s) == s
    decreases |a|
  {
    if a == [] {
      assert a + s == s;
    } else {
      assert (a + s)[1..] == a[1..] + s;
      assert Spaces(a[1..]);
      StripLeftSkips(a[1..], s);
    }
  }

  lemma {:induction false} StripRightSkips(s: string, b: string)
    requires Spaces(b) && (s != [] ==> !IsSpace(s[|s| - 1]))
    ensures StripRight(s + b) == s
    decreases |b|
  {
    if b == [] {
      assert s + b == s;
    } else {
      var n := |b| - 1;
      assert (s + b)[..|s + b| - 1] == s + b[..n];
      assert Spaces(b[..n]);
      StripRightSkips(s, b[..n]);
    }
  }

  lemma {:induction false} StripPadded(a: string, s: string, b: string)
    requires Spaces(a) && Spaces(b) && s != [] && Stripped(s)
    ensures Strip(a + s + b) == s
  {
    assert a + s + b == a + (s + b);
    StripLeftSkips(a, s + b);
    StripRightSkips(s, b);
  }

  lemma {:induction false} StripSpaces(a: string)
    requires Spaces(a)
    ensures Strip(a) == ""
  {
    assert a + [] == a;
    StripLeftSkips(a, []);
  }

  // ---- Splitting yields parts in a row ----

  lemma {:induction false} FlushIsPart(current: string)
    requires Quiet(current, 0)
    ensures PartsInRow(Flush(current))
    ensures Flush(current) != [] ==> Depth(Flush(current)[0], 0) == Depth(current, 0)
  {
    StripReadsTheSame(current);
    var a, b := StripSplits(current);
  }

  lemma {:induction false} ScanYieldsParts(s: string, d: nat, current: string)
    requires Quiet(current, 0) && Depth(current, 0) == d
    ensures PartsInRow(Scan(s, d, current))
    decreases |s|
  {
    if s == [] {
      FlushIsPart(current);
    } else {
      var e := Deeper(d, s[0]);
      if s[0] == '|' && e == 0 {
        FlushIsPart(current);
        ScanYieldsParts(s[1..], e, "");
      } else {
        ReadAppends(current, [s[0]], 0);
        ScanYieldsParts(s[1..], e, current + [s[0]]);
      }
    }
  }

  lemma {:induction false} StripPart(s: string)
    requires IsPart(s)
    ensures Strip(s) == s
  {
    assert [] + s + [] == s;
    StripPadded([], s, []);
  }

  /** Dropping duplicates keeps a row of parts: an open bracket at the end stays at the end. */
  lemma {:induction false} UniqueInRow(ps: seq<string>)
    requires PartsInRow(ps)
    ensures PartsInRow(Unique(ps))
    ensures forall p :: p in Unique(ps) <==> p in ps
    decreases |ps|
  {
    if ps != [] {
      var n := |ps| - 1;
      UniqueInRow(ps[..n]);
      StripPart(ps[n]);
      assert ps == ps[..n] + [ps[n]];
      var before := Unique(ps[..n]);
      forall i | 0 <= i < |before| ensures Depth(before[i], 0) == 0 {
        assert before[i] in ps[..n];
      }
    }
  }

  // ---- Joining and splitting again ----

  /** Reading a part extends the current text by it. */
  lemma {:induction false} ScanReadsPart(q: string, rest: string, d: nat, current: string)
    requires Quiet(q, d)
    ensures Scan(q + rest, d, current) == Scan(rest, Depth(q, d), current + q)
    decreases |q|
  {
    if q == [] {
      assert q + rest == rest && current + q == current;
    } else {
      assert (q + rest)[1..] == q[1..] + rest;
      assert current + [q[0]] + q[1..] == current + q;
      ScanReadsPart(q[1..], rest, Deeper(d, q[0]), current + [q[0]]);
    }
  }

  lemma {:induction false} ScanReadsBar(rest: string, q: string)
    ensures Scan(" | " + rest, 0, q) == Flush(q + " ") + Scan(rest, 0, " ")
  {
    var s := " | " + rest;
    var s1, s2, s3 := s[1..], s[2..], s[3..];
    assert s1[1..] == s2 && s2[1..] == s3 && s3 == rest;
    assert Scan(s, 0, q) == Scan(s1, 0, q + " ");
    assert Scan(s1, 0, q + " ") == Flush(q + " ") + Scan(s2, 0, "");
    assert "" + [' '] == " ";
    assert Scan(s2, 0, "") == Scan(s3, 0, " ");
  }

  lemma {:induction false} SplitJoined(ps: seq<string>, pad: string)
    requires PartsInRow(ps) && Spaces(pad)
    ensures Scan(JoinText(ps), 0, pad) == ps
    decreases |ps|
  {
    if ps == [] {
      StripSpaces(pad);
    } else {
      var q := ps[0];
      if |ps| == 1 {
        assert q + [] == q && pad + q + [] == pad + q;
        ScanReadsPart(q, [], 0, pad);
        StripPadded(pad, q, []);
      } else {
        var rest := JoinText(ps[1..]);
        assert JoinText(ps) == q + (" | " + rest);
        ScanReadsPart(q, " | " + rest, 0, pad);
        ScanReadsBar(rest, pad + q);
        StripPadded(pad, q, " ");
        SplitJoined(ps[1..], " ");
        assert ps == [q] + ps[1..];
      }
    }
  }

  /** First occurrences, in order. */
  function FirstOccurrences(ps: seq<string>): (r: seq<string>)
    ensures forall p :: p in r <==> p in ps
    ensures forall i, j | 0 <= i < j < |r| :: r[i] != r[j]
  {
    if ps == [] then []
    else
      var n := |ps| - 1;
      var before := FirstOccurrences(ps[..n]);
      assert ps == ps[..n] + [ps[n]];
      if ps[n] in before then before else before + [ps[n]]
  }

  lemma {:induction false} UniqueIsFirstOccurrences(ps: seq<string>)
    requires forall i | 0 <= i < |ps| :: IsPart(ps[i])
    ensures Unique(ps) == FirstOccurrences(ps)
    decreases |ps|
  {
    if ps != [] {
      UniqueIsFirstOccurrences(ps[..|ps| - 1]);
      StripPart(ps[|ps| - 1]);
    }
  }

  /** Splitting the joined parts gives the parts back, with later duplicates removed, whatever the brackets. */
  lemma {:induction false} NormalForm(s: string)
    ensures Split(Join(Split(s))) == FirstOccurrences(Split(s))
    ensures Split(Join(Split(Join(Split(s))))) == Split(Join(Split(s)))
  {
    var ps := Split(s);
    ScanYieldsParts(s, 0, "");
    UniqueInRow(ps);
    SplitJoined(Unique(ps), "");
    UniqueIsFirstOccurrences(ps);
    var us := Unique(ps);
    UniqueOfUnique(ps);
    assert Join(us) == JoinText(us);
  }

  lemma {:induction false} UniqueOfUnique(ps: seq<string>)
    requires forall i | 0 <= i < |ps| :: IsPart(ps[i])
    ensures Unique(Unique(ps)) == Unique(ps)
    decreases |ps|
  {
    if ps != [] {
      var n := |ps| - 1;
      UniqueOfUnique(ps[..n]);
      StripPart(ps[n]);
      var before := Unique(ps[..n]);
      if ps[n] !in before {
        assert (before + [ps[n]])[..|before|] == before;
      }
    }
  }

  // ---- Adding a member ----

  lemma {:induction false} DeeperStaysQuiet(s: string, d: nat, e: nat)
    requires Quiet(s, d) && d <= e
    ensures Quiet(s, e)
    decreases |s|
  {
    if s != [] {
      DeeperStaysQuiet(s[1..], Deeper(d, s[0]), Deeper(e, s[0]));
    }
  }

  /** After an open bracket the separator and the next part are swallowed into one part. */
  lemma {:induction false} SwallowedIsPart(q: string, m: string)
    requires IsPart(q) && IsPart(m) && Depth(q, 0) > 0
    ensures IsPart(q + (" | " + m))
  {
    var k := Depth(q, 0);
    var bar := " | ";
    assert bar[1..] == "| " && bar[1..][1..] == " " && bar[1..][1..][1..] == "";
    assert Quiet(bar[1..][1..], k) && Depth(bar[1..][1..], k) == k;
    assert Quiet(bar[1..], k) && Depth(bar[1..], k) == k;
    assert Quiet(bar, k) && Depth(bar, k) == k;
    DeeperStaysQuiet(m, 0, k);
    ReadAppends(bar, m, k);
    ReadAppends(q, bar + m, 0);
  }

  lemma {:induction false} JoinTextMerges(ps: seq<string>, q: string, m: string)
    ensures JoinText(ps + [q, m]) == JoinText(ps + [q + (" | " + m)])
    decreases |ps|
  {
    if ps == [] {
      assert ps + [q, m] == [q, m] && [q, m][1..] == [m] && ps + [q + (" | " + m)] == [q + (" | " + m)];
      assert q + " | " + m == q + (" | " + m);
    } else {
      assert (ps + [q, m])[1..] == ps[1..] + [q, m];
      assert (ps + [q + (" | " + m)])[1..] == ps[1..] + [q + (" | " + m)];
      JoinTextMerges(ps[1..], q, m);
    }
  }

  lemma {:induction false} UniqueAppends(ps: seq<string>, m: string)
    requires IsPart(m) && m !in Unique(ps)
    ensures Unique(ps + [m]) == Unique(ps) + [m]
  {
    assert (ps + [m])[..|ps|] == ps;
    StripPart(m);
  }

  /** The bracket left open at the end of the row, if any. */
  predicate EndsOpen(ps: seq<string>) {
    ps != [] && Depth(ps[|ps| - 1], 0) > 0
  }

  /** The last part of a row with an open end is never a duplicate, so it stays last. */
  lemma {:induction false} UniqueKeepsOpenEnd(ps: seq<string>)
    requires PartsInRow(ps)
    ensures EndsOpen(Unique(ps)) <==> EndsOpen(ps)
  {
    if ps != [] {
      var n := |ps| - 1;
      UniqueInRow(ps[..n]);
      StripPart(ps[n]);
      var before := Unique(ps[..n]);
      forall i | 0 <= i < |before| ensures Depth(before[i], 0) == 0 {
        assert before[i] in ps[..n];
      }
      assert ps[n] in before ==> ps[n] in ps[..n];
    }
  }

  lemma {:induction false} AddedToOpenEnd(us: seq<string>, m: string)
    requires PartsInRow(us) && EndsOpen(us) && IsPart(m) && m !in us
    ensures m !in Split(JoinText(us + [m]))
  {
    var n := |us| - 1;
    var merged := us[n] + (" | " + m);
    SwallowedIsPart(us[n], m);
    assert us + [m] == us[..n] + [us[n], m];
    JoinTextMerges(us[..n], us[n], m);
    SplitJoined(us[..n] + [merged], "");
    assert |merged| > |m|;
  }

  /** `add_union_member` adds a part iff it was one already or no bracket is left open at the end. */
  lemma {:induction false} AddedMember(s: string, m: string)
    requires IsPart(m)
    ensures var ps := if m in Split(s) then Split(s) else Split(s) + [m];
      m in Split(Join(ps)) <==> m in Split(s) || !EndsOpen(Split(s))
  {
    var ps := Split(s);
    ScanYieldsParts(s, 0, "");
    UniqueInRow(ps);
    UniqueKeepsOpenEnd(ps);
    if m in ps {
      SplitJoined(Unique(ps), "");
    } else {
      UniqueAppends(ps, m);
      if EndsOpen(ps) {
        AddedToOpenEnd(Unique(ps), m);
      } else {
        SplitJoined(Unique(ps) + [m], "");
      }
    }
  }
}
