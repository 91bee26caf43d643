/**
 * Exactly when the worklist empties: iff no cycle is live, that is, no cycle keeps passing on facts that the next
 * step establishes itself and some path to the one before it misses. Loops with a single entry are never live.
 */
module LoopTermination {
  import opened MustAnalysis

  // ---- Live cycles ----

  /** A closed walk among reachable steps, given by the steps it visits. */
  ghost predicate IsCycle(g: Graph, c: seq<string>) {
    && c != []
    && (forall i | 0 <= i < |c| :: Reachable(g, c[i]))
    && (forall i | 0 <= i < |c| - 1 :: Edge(g, c[i], c[i + 1]))
    && Edge(g, c[|c| - 1], c[0])
  }

  /** The next step establishes a fact that some path through u misses. */
  ghost predicate Live(g: Graph, u: string, w: string) {
    Edge(g, u, w) && w in g.gen && exists f :: f in g.gen[w] && MissesThrough(g, u, f)
  }

  ghost predicate LiveCycle(g: Graph, c: seq<string>) {
    && IsCycle(g, c)
    && (forall i | 0 <= i < |c| - 1 :: Live(g, c[i], c[i + 1]))
    && Live(g, c[|c| - 1], c[0])
  }

  ghost predicate HasLiveCycle(g: Graph) {
    exists c :: LiveCycle(g, c)
  }

  // ---- A live cycle keeps the worklist busy ----

  /** A step visited before u has been told what is recorded there now, needs nothing else, or is about to be told. */
  ghost predicate Followed(g: Graph, s: State, last: map<string, nat>, u: string, w: string)
    requires u in s.low && u in g.gen && u in last && w in g.gen
  {
    || (w in last && last[u] < last[w])
    || g.gen[w] <= Recorded(g, s, u)
    || Waiting(g, s, u, w)
  }

  /** `last` numbers the visited steps by their last visit; the next visit will be number `clock`. */
  ghost predicate Numbered(g: Graph, s: State, last: map<string, nat>, clock: nat) {
    && last.Keys == s.low.Keys
    && (forall v | v in last :: last[v] < clock)
    && forall u, w | u in s.low && u in g.gen && w in g.gen && Edge(g, u, w) :: Followed(g, s, last, u, w)
  }

  function Renumbered(g: Graph, s: State, last: map<string, nat>, clock: nat): map<string, nat>
    requires s.queue != []
  {
    var it := s.queue[|s.queue| - 1];
    if Skipped(g, s, it) then last else last[it.node := clock]
  }

  /** The edges of a step that was not visited now. */
  lemma {:induction false} PopStillFollowed(
    g: Graph, s: State, last: map<string, nat>, clock: nat, u: string, w: string)
    requires g.Valid() && s.queue != [] && Inv(g, s) && Numbered(g, s, last, clock)
    requires u in s.low && u in g.gen && w in g.gen && Edge(g, u, w)
    requires Skipped(g, s, s.queue[|s.queue| - 1]) || u != s.queue[|s.queue| - 1].node
    ensures Followed(g, Pop(g, s), Renumbered(g, s, last, clock), u, w)
  {
    assert Followed(g, s, last, u, w);
    assert Recorded(g, Pop(g, s), u) == Recorded(g, s, u);
    if Waiting(g, s, u, w) {
      PopTakesOne(g, s, u, w);
    }
  }

  lemma {:induction false} PopNumbered(g: Graph, s: State, last: map<string, nat>, clock: nat)
    requires g.Valid() && s.queue != [] && Inv(g, s) && Numbered(g, s, last, clock)
    ensures Numbered(g, Pop(g, s), Renumbered(g, s, last, clock), clock + 1)
  {
    var t, after := Pop(g, s), Renumbered(g, s, last, clock);
    var it := s.queue[|s.queue| - 1];
    forall u, w | u in t.low && u in g.gen && w in g.gen && Edge(g, u, w) ensures Followed(g, t, after, u, w) {
      if !Skipped(g, s, it) && u == it.node {
        PopPushes(g, s, w);
      } else {
        PopStillFollowed(g, s, last, clock, u, w);
      }
    }
  }

  lemma {:induction false} RunNumbered(g: Graph, s: State, n: nat, last: map<string, nat>, clock: nat)
    returns (after: map<string, nat>, now: nat)
    requires g.Valid() && Inv(g, s) && Numbered(g, s, last, clock)
    ensures Numbered(g, Run(g, s, n), after, now)
    decreases n
  {
    after, now := last, clock;
    if n > 0 && s.queue != [] {
      PopInv(g, s);
      PopNumbered(g, s, last, clock);
      after, now := RunNumbered(g, Pop(g, s), n - 1, Renumbered(g, s, last, clock), clock + 1);
    }
  }

  /** With nothing waiting, the steps along live edges were visited in that order. */
  lemma {:induction false} LiveEdgeRises(g: Graph, n: nat, last: map<string, nat>, clock: nat, u: string, w: string)
    requires g.Valid() && Run(g, Init(g), n).queue == [] && Numbered(g, Run(g, Init(g), n), last, clock)
    requires Reachable(g, u) && Live(g, u, w)
    ensures u in last && w in last && last[u] < last[w]
  {
    var f :| f in g.gen[w] && MissesThrough(g, u, f);
    Exact(g, n, u, f);
    assert Followed(g, Run(g, Init(g), n), last, u, w);
  }

  lemma {:induction false} LiveWalkRises(g: Graph, n: nat, last: map<string, nat>, clock: nat, c: seq<string>, i: nat)
    requires g.Valid() && Run(g, Init(g), n).queue == [] && Numbered(g, Run(g, Init(g), n), last, clock)
    requires LiveCycle(g, c) && i < |c|
    ensures c[0] in last && c[i] in last && last[c[0]] <= last[c[i]]
    decreases i
  {
    if i == 0 {
      LiveEdgeRises(g, n, last, clock, c[|c| - 1], c[0]);
    } else {
      LiveWalkRises(g, n, last, clock, c, i - 1);
      var j := i - 1;
      assert Live(g, c[j], c[j + 1]);
      LiveEdgeRises(g, n, last, clock, c[j], c[j + 1]);
    }
  }

  /** However many pops are allowed, a live cycle leaves something on the worklist. */
  lemma {:induction false} LiveCycleNeverStops(g: Graph, c: seq<string>, n: nat)
    requires g.Valid() && LiveCycle(g, c)
    ensures Run(g, Init(g), n).queue != []
  {
    if Run(g, Init(g), n).queue == [] {
      InitInv(g);
      var last, clock := RunNumbered(g, Init(g), n, map[], 0);
      LiveWalkRises(g, n, last, clock, c, |c| - 1);
      LiveEdgeRises(g, n, last, clock, c[|c| - 1], c[0]);
    }
  }

  // ---- Without live cycles, live walks are bounded ----

  ghost predicate LiveWalk(g: Graph, q: seq<string>) {
    && q != []
    && (forall i | 0 <= i < |q| :: Reachable(g, q[i]))
    && forall i | 0 <= i < |q| - 1 :: Live(g, q[i], q[i + 1])
  }

  lemma {:induction false} ReachableExtends(g: Graph, u: string, w: string)
    requires g.Valid() && Reachable(g, u) && Edge(g, u, w)
    ensures Reachable(g, w)
  {
    var p :| PathTo(g, p, u);
    PathExtends(g, p, u, w);
  }

  lemma {:induction false} LiveSegmentIsOpen(g: Graph, q: seq<string>, i: nat, j: nat)
    requires g.Valid() && !HasLiveCycle(g) && LiveWalk(g, q)
    requires i < j < |q|
    ensures q[i] != q[j]
  {
    if q[i] == q[j] {
      var c := q[i..j];
      forall k | 0 <= k < |c| ensures Live(g, c[k], q[i + k + 1]) {
        var m := i + k;
        assert Live(g, q[m], q[m + 1]);
      }
      forall k | 0 <= k < |c| - 1 ensures Live(g, c[k], c[k + 1]) {
        assert Live(g, c[k], q[i + k + 1]);
      }
      var m := |c| - 1;
      assert Live(g, c[m], q[i + m + 1]);
      assert LiveCycle(g, c);
    }
  }

  lemma {:induction false} DistinctFit(q: seq<string>, s: set<string>)
    requires forall i | 0 <= i < |q| :: q[i] in s
    requires forall i, j | 0 <= i < j < |q| :: q[i] != q[j]
    ensures |q| <= |s|
    decreases |q|
  {
    if q != [] {
      DistinctFit(q[1..], s - {q[0]});
    }
  }

  lemma {:induction false} LiveWalkIsShort(g: Graph, q: seq<string>)
    requires g.Valid() && !HasLiveCycle(g) && LiveWalk(g, q)
    ensures |q| <= |g.succ.Keys|
  {
    forall i, j | 0 <= i < j < |q| ensures q[i] != q[j] {
      LiveSegmentIsOpen(g, q, i, j);
    }
    forall i | 0 <= i < |q| ensures q[i] in g.succ.Keys {
      var p :| PathTo(g, p, q[i]);
    }
    DistinctFit(q, g.succ.Keys);
  }

  // ---- The weight of a step: how many pops an item for it causes while no set shrinks ----

  /** Arrivals over edges that are not live cost one pop; the others cost what their step costs, to depth n. */
  ghost function Weight(g: Graph, u: string, n: nat): nat
    decreases n, 1, 0
  {
    1 + if u in g.succ then Weights(g, u, g.succ[u], n) else 0
  }

  ghost function Weights(g: Graph, u: string, ws: seq<string>, n: nat): nat
    decreases n, 0, |ws|
  {
    if ws == [] then 0
    else (if n == 0 || !Live(g, u, ws[0]) then 1 else Weight(g, ws[0], n - 1)) + Weights(g, u, ws[1..], n)
  }

  /** If more depth still changes the weight, there is a live walk that long. */
  lemma {:induction false} DeeperWeightHasWalk(g: Graph, u: string, n: nat) returns (q: seq<string>)
    requires g.Valid() && Reachable(g, u) && Weight(g, u, n + 1) != Weight(g, u, n)
    ensures LiveWalk(g, q) && q[0] == u && |q| == n + 2
    decreases n, 1, 0
  {
    q := DeeperWeightsHaveWalk(g, u, g.succ[u], n);
  }

  lemma {:induction false} DeeperWeightsHaveWalk(g: Graph, u: string, ws: seq<string>, n: nat)
    returns (q: seq<string>)
    requires g.Valid() && Reachable(g, u) && forall w | w in ws :: Edge(g, u, w)
    requires Weights(g, u, ws, n + 1) != Weights(g, u, ws, n)
    ensures LiveWalk(g, q) && q[0] == u && |q| == n + 2
    decreases n, 0, |ws|
  {
    var w := ws[0];
    if Weights(g, u, ws[1..], n + 1) != Weights(g, u, ws[1..], n) {
      q := DeeperWeightsHaveWalk(g, u, ws[1..], n);
    } else {
      assert Live(g, u, w);
      ReachableExtends(g, u, w);
      var tail := [w];
      if n > 0 {
        tail := DeeperWeightHasWalk(g, w, n - 1);
      }
      q := [u] + tail;
      forall i | 0 <= i < |q| - 1 ensures Live(g, q[i], q[i + 1]) {
        assert i > 0 ==> Live(g, tail[i - 1], tail[i]);
      }
    }
  }

  /** The weight with enough depth for every live walk. */
  ghost function Cost(g: Graph, u: string): (r: nat)
    ensures r > 0
  {
    Weight(g, u, |g.succ.Keys|)
  }

  ghost function EdgeCost(g: Graph, u: string, w: string): nat {
    if Live(g, u, w) then Cost(g, w) else 1
  }

  ghost function EdgeCosts(g: Graph, u: string, ws: seq<string>): nat {
    if ws == [] then 0 else EdgeCost(g, u, ws[0]) + EdgeCosts(g, u, ws[1..])
  }

  lemma {:induction false} WeightsAreEdgeCosts(g: Graph, u: string, ws: seq<string>)
    ensures Weights(g, u, ws, |g.succ.Keys| + 1) == EdgeCosts(g, u, ws)
    decreases |ws|
  {
    if ws != [] {
      WeightsAreEdgeCosts(g, u, ws[1..]);
    }
  }

  /** The cost of a step pays for its pop and for all the items it pushes. */
  lemma {:induction false} CostPays(g: Graph, u: string)
    requires g.Valid() && !HasLiveCycle(g) && Reachable(g, u) && u in g.succ
    ensures Cost(g, u) == 1 + EdgeCosts(g, u, g.succ[u])
  {
    var n := |g.succ.Keys|;
    if Weight(g, u, n + 1) != Weight(g, u, n) {
      var q := DeeperWeightHasWalk(g, u, n);
      LiveWalkIsShort(g, q);
      assert false;
    }
    WeightsAreEdgeCosts(g, u, g.succ[u]);
  }

  // ---- The load of the worklist ----

  /** An arrival with all its step establishes is skipped or shrinks a set; others may be passed on in full. */
  ghost function ItemCost(g: Graph, it: Item): nat {
    if it.node in g.gen && g.gen[it.node] <= it.facts then 1 else Cost(g, it.node)
  }

  ghost function Load(g: Graph, items: seq<Item>): nat {
    if items == [] then 0 else ItemCost(g, items[0]) + Load(g, items[1..])
  }

  lemma {:induction false} LoadAppend(g: Graph, a: seq<Item>, b: seq<Item>)
    ensures Load(g, a + b) == Load(g, a) + Load(g, b)
    decreases |a|
  {
    if a == [] {
      assert a + b == b;
    } else {
      assert (a + b)[1..] == a[1..] + b;
      LoadAppend(g, a[1..], b);
    }
  }

  /** What is recorded is at least what no path misses, so an edge that is not live brings all its step establishes. */
  lemma {:induction false} DeadEdgeBringsAll(g: Graph, u: string, low: set<Fact>, w: string)
    requires g.Valid() && Justified(g, u, low) && Edge(g, u, w) && !Live(g, u, w)
    ensures g.gen[w] <= low + g.gen[u]
  {
    forall f | f in g.gen[w] ensures f in low + g.gen[u] {
      ThroughIsBefore(g, u, f);
    }
  }

  lemma {:induction false} PushedLoad(g: Graph, u: string, low: set<Fact>, ws: seq<string>)
    requires g.Valid() && Justified(g, u, low) && forall w | w in ws :: Edge(g, u, w)
    ensures Load(g, Pushed(ws, low + g.gen[u])) <= EdgeCosts(g, u, ws)
    decreases |ws|
  {
    if ws != [] {
      var items := Pushed(ws, low + g.gen[u]);
      assert items[1..] == Pushed(ws[1..], low + g.gen[u]);
      PushedLoad(g, u, low, ws[1..]);
      if !Live(g, u, ws[0]) {
        DeadEdgeBringsAll(g, u, low, ws[0]);
      }
    }
  }

  // ---- Sums over the steps ----

  ghost function Pick(vs: set<string>): (v: string)
    requires vs != {}
    ensures v in vs
  {
    var v :| v in vs;
    v
  }

  ghost function Total(vs: set<string>, h: string -> nat): nat {
    if vs == {} then 0 else h(Pick(vs)) + Total(vs - {Pick(vs)}, h)
  }

  lemma {:induction false} TotalCovers(vs: set<string>, h: string -> nat, v: string)
    requires v in vs
    ensures h(v) <= Total(vs, h)
    decreases vs
  {
    if v != Pick(vs) {
      TotalCovers(vs - {Pick(vs)}, h, v);
    }
  }

  lemma {:induction false} TotalShrinks(vs: set<string>, h: string -> nat, k: string -> nat)
    requires forall v | v in vs :: k(v) <= h(v)
    ensures Total(vs, k) <= Total(vs, h)
    ensures (exists v :: v in vs && k(v) < h(v)) ==> Total(vs, k) < Total(vs, h)
    decreases vs
  {
    if vs != {} {
      TotalShrinks(vs - {Pick(vs)}, h, k);
    }
  }

  lemma {:induction false} ProperSubsetIsSmaller(a: set<Fact>, b: set<Fact>)
    requires a < b
    ensures |a| < |b|
  {
    assert b == a + (b - a);
  }

  lemma {:induction false} SubsetIsNoLarger(a: set<Fact>, b: set<Fact>)
    requires a <= b
    ensures |a| <= |b|
  {
    assert b == a + (b - a);
  }

  // ---- Every pop lowers the measure ----

  function AllFacts(g: Graph): set<Fact> {
    set v, f | v in g.gen && f in g.gen[v] :: f
  }

  /** No set in the state holds a fact that no step establishes. */
  ghost predicate Within(g: Graph, s: State) {
    && (forall i | 0 <= i < |s.queue| :: s.queue[i].facts <= AllFacts(g))
    && forall v | v in s.low :: s.low[v] <= AllFacts(g)
  }

  lemma {:induction false} PopWithin(g: Graph, s: State)
    requires s.queue != [] && Within(g, s)
    ensures Within(g, Pop(g, s))
  {
  }

  /** How often the set before a step can still shrink; its first visit counts as one. */
  ghost function Slack(g: Graph, s: State, v: string): nat {
    if v in s.low then |s.low[v]| else |AllFacts(g)| + 1
  }

  ghost function Potential(g: Graph, s: State): nat {
    Total(g.succ.Keys, (v: string) => Slack(g, s, v))
  }

  lemma {:induction false} PopLowersSlack(g: Graph, s: State, u: string)
    requires s.queue != [] && Within(g, s)
    ensures Slack(g, Pop(g, s), u) <= Slack(g, s, u)
  {
    PopShrinks(g, s);
    PopWithin(g, s);
    if u in Pop(g, s).low {
      SubsetIsNoLarger(Pop(g, s).low[u], if u in s.low then s.low[u] else AllFacts(g));
    }
  }

  lemma {:induction false} VisitLowersSlack(g: Graph, s: State)
    requires s.queue != [] && Within(g, s) && Pop(g, s).low != s.low
    ensures var v := s.queue[|s.queue| - 1].node; v in g.succ && Slack(g, Pop(g, s), v) < Slack(g, s, v)
  {
    var t, v := Pop(g, s), s.queue[|s.queue| - 1].node;
    PopWithin(g, s);
    assert t.low == s.low[v := t.low[v]];
    if v in s.low {
      PopShrinks(g, s);
      assert t.low[v] <= s.low[v];
      assert t.low[v] != s.low[v];
      ProperSubsetIsSmaller(t.low[v], s.low[v]);
    } else {
      SubsetIsNoLarger(t.low[v], AllFacts(g));
    }
  }

  lemma {:induction false} PopLowersPotential(g: Graph, s: State)
    requires s.queue != [] && Within(g, s)
    ensures Potential(g, Pop(g, s)) <= Potential(g, s)
    ensures Pop(g, s).low == s.low || Potential(g, Pop(g, s)) < Potential(g, s)
  {
    var t, v := Pop(g, s), s.queue[|s.queue| - 1].node;
    var before, after := (u: string) => Slack(g, s, u), (u: string) => Slack(g, t, u);
    forall u | u in g.succ.Keys ensures after(u) <= before(u) {
      PopLowersSlack(g, s, u);
    }
    TotalShrinks(g.succ.Keys, before, after);
    if t.low != s.low {
      VisitLowersSlack(g, s);
      assert v in g.succ.Keys && after(v) < before(v);
    }
  }

  lemma {:induction false} SplitQueue(q: seq<Item>) returns (rest: seq<Item>, it: Item)
    requires q != []
    ensures q == rest + [it]
  {
    rest, it := q[..|q| - 1], q[|q| - 1];
  }

  lemma {:induction false} LoadLast(g: Graph, rest: seq<Item>, it: Item)
    ensures Load(g, rest + [it]) == Load(g, rest) + ItemCost(g, it)
  {
    LoadAppend(g, rest, [it]);
    assert Load(g, [it][1..]) == 0;
  }

  /** What a visit leaves on the worklist costs less than the step does. */
  lemma {:induction false} VisitLoad(g: Graph, s: State, rest: seq<Item>, it: Item)
    requires g.Valid() && !HasLiveCycle(g) && Inv(g, s)
    requires s.queue == rest + [it] && !Skipped(g, s, it)
    ensures Load(g, Pop(g, s).queue) < Load(g, rest) + Cost(g, it.node)
  {
    var t := Pop(g, s);
    var pushed := Pushed(g.succ[it.node], Recorded(g, t, it.node));
    assert t.queue == rest + pushed;
    LoadAppend(g, rest, pushed);
    PopInv(g, s);
    PushedLoad(g, it.node, t.low[it.node], g.succ[it.node]);
    CostPays(g, it.node);
  }

  /** While no set shrinks, only an arrival that lacks something its step establishes is passed on. */
  lemma {:induction false} PopLoad(g: Graph, s: State)
    requires g.Valid() && !HasLiveCycle(g) && s.queue != [] && Inv(g, s)
    ensures Load(g, Pop(g, s).queue) < Load(g, s.queue) + Total(g.succ.Keys, (v: string) => Cost(g, v))
    ensures Pop(g, s).low == s.low ==> Load(g, Pop(g, s).queue) < Load(g, s.queue)
  {
    var rest, it := SplitQueue(s.queue);
    assert it == s.queue[|s.queue| - 1] && rest == s.queue[..|s.queue| - 1];
    LoadLast(g, rest, it);
    TotalCovers(g.succ.Keys, (v: string) => Cost(g, v), it.node);
    if !Skipped(g, s, it) {
      VisitLoad(g, s, rest, it);
      assert Pop(g, s).low == s.low ==> s.low[it.node] <= it.facts;
    }
  }

  /** How many more pops there can be: a visit that shrinks a set may add up to what all steps cost. */
  ghost function Measure(g: Graph, s: State): nat {
    Potential(g, s) * Total(g.succ.Keys, (v: string) => Cost(g, v)) + Load(g, s.queue)
  }

  lemma {:induction false} PopLowersMeasure(g: Graph, s: State)
    requires g.Valid() && !HasLiveCycle(g) && s.queue != [] && Inv(g, s) && Within(g, s)
    ensures Measure(g, Pop(g, s)) < Measure(g, s)
  {
    PopLowersPotential(g, s);
    PopLoad(g, s);
    Lexicographic(Potential(g, Pop(g, s)), Potential(g, s), Load(g, Pop(g, s).queue), Load(g, s.queue),
                  Total(g.succ.Keys, (v: string) => Cost(g, v)));
  }

  lemma {:induction false} Lexicographic(a: nat, b: nat, l: nat, m: nat, k: nat)
    requires (a <= b && l < m) || (a < b && l < m + k)
    ensures a * k + l < b * k + m
  {
    if a < b {
      Scaled(a + 1, b, k);
    } else {
      Scaled(a, b, k);
    }
  }

  lemma {:induction false} Scaled(a: nat, b: nat, k: nat)
    requires a <= b
    ensures a * k <= b * k
  {
  }

  /** The states whose pops are known to run out. */
  ghost predicate Bounded(g: Graph, s: State, n: nat) {
    Inv(g, s) && Within(g, s) && Measure(g, s) <= n
  }

  lemma {:induction false} PopBounded(g: Graph, s: State, n: nat)
    requires g.Valid() && !HasLiveCycle(g) && Bounded(g, s, n) && s.queue != []
    ensures n > 0 && Bounded(g, Pop(g, s), n - 1)
  {
    PopLowersMeasure(g, s);
    PopInv(g, s);
    PopWithin(g, s);
  }

  /** A bound that every pop lowers is a bound on the number of pops. */
  lemma {:induction false} RunStops(g: Graph, s: State, n: nat, bounded: (State, nat) -> bool)
    requires bounded(s, n)
    requires forall t: State, k: nat | bounded(t, k) && t.queue != [] :: k > 0 && bounded(Pop(g, t), k - 1)
    ensures Run(g, s, n).queue == []
    decreases n
  {
    if s.queue != [] {
      RunStops(g, Pop(g, s), n - 1, bounded);
    }
  }

  // ---- The exact condition ----

  /** A number of pops that is enough if any number is. */
  ghost function Enough(g: Graph): nat {
    Measure(g, Init(g))
  }

  lemma {:induction false} StopsWithoutLiveCycle(g: Graph)
    requires g.Valid() && !HasLiveCycle(g)
    ensures Run(g, Init(g), Enough(g)).queue == []
  {
    InitInv(g);
    var bounded := (t: State, k: nat) => Bounded(g, t, k);
    forall t: State, k: nat | bounded(t, k) && t.queue != [] ensures k > 0 && bounded(Pop(g, t), k - 1) {
      PopBounded(g, t, k);
    }
    RunStops(g, Init(g), Enough(g), bounded);
  }

  /** The worklist empties, and then within the given number of pops, iff no cycle is live. */
  lemma {:induction false} StopsExactly(g: Graph)
    requires g.Valid()
    ensures (exists n: nat :: Run(g, Init(g), n).queue == []) <==> !HasLiveCycle(g)
    ensures Run(g, Init(g), Enough(g)).queue == [] <==> !HasLiveCycle(g)
  {
    if HasLiveCycle(g) {
      var c :| LiveCycle(g, c);
      forall n: nat ensures Run(g, Init(g), n).queue != [] {
        LiveCycleNeverStops(g, c, n);
      }
    } else {
      StopsWithoutLiveCycle(g);
    }
  }

  // ---- Single-entry loops ----

  /** Every path from the begin step to v passes h. */
  ghost predicate Dominates(g: Graph, h: string, v: string) {
    forall p | PathTo(g, p, v) :: h in p
  }

  /** Some step of the cycle lies on every path to each of its steps. */
  ghost predicate EntersAtOne(g: Graph, c: seq<string>) {
    exists h | h in c :: forall v | v in c :: Dominates(g, h, v)
  }

  ghost predicate SingleEntryLoops(g: Graph) {
    forall c | IsCycle(g, c) :: EntersAtOne(g, c)
  }

  /** An edge to a step that every path to its source has passed is not live. */
  lemma {:induction false} BackEdgeIsNotLive(g: Graph, u: string, w: string)
    requires Dominates(g, w, u)
    ensures !Live(g, u, w)
  {
    forall p, f | PathTo(g, p, u) && w in g.gen && f in g.gen[w] ensures !Avoids(g, p, f) {
      assert w in p;
    }
  }

  /** The step a cycle is entered at is entered, inside the cycle, over an edge that is not live. */
  lemma {:induction false} SingleEntryIsNotLive(g: Graph)
    requires SingleEntryLoops(g)
    ensures !HasLiveCycle(g)
  {
    forall c | IsCycle(g, c) ensures !LiveCycle(g, c) {
      assert EntersAtOne(g, c);
      var h :| h in c && forall v | v in c :: Dominates(g, h, v);
      var j :| 0 <= j < |c| && c[j] == h;
      var i := if j == 0 then |c| - 1 else j - 1;
      assert c[i] in c;
      BackEdgeIsNotLive(g, c[i], h);
      assert j > 0 ==> c[i + 1] == h;
    }
  }

  /** On a graph with single-entry loops the traversal stops, whatever the steps establish. */
  lemma {:induction false} Terminates(g: Graph)
    requires g.Valid() && SingleEntryLoops(g)
    ensures Run(g, Init(g), Enough(g)).queue == []
  {
    SingleEntryIsNotLive(g);
    StopsWithoutLiveCycle(g);
  }

  // ---- Loops with two entries ----

  /** Two steps that lead to each other, each reachable without something the other establishes. */
  ghost predicate ExchangesForever(g: Graph, a: string, b: string) {
    Live(g, a, b) && Live(g, b, a)
  }

  lemma {:induction false} LiveIsReachable(g: Graph, u: string, w: string)
    requires Live(g, u, w)
    ensures Reachable(g, u)
  {
    var f :| f in g.gen[w] && MissesThrough(g, u, f);
    var p :| PathTo(g, p, u) && Avoids(g, p, f);
  }

  /** However many pops are allowed, the worklist never empties over such a pair of steps. */
  lemma {:induction false} TwoEntriesNeverTerminate(g: Graph, a: string, b: string, n: nat)
    requires g.Valid() && ExchangesForever(g, a, b)
    ensures Run(g, Init(g), n).queue != []
  {
    LiveIsReachable(g, a, b);
    LiveIsReachable(g, b, a);
    var c := [a, b];
    assert c[0] == a && c[1] == b;
    LiveCycleNeverStops(g, c, n);
  }
}
