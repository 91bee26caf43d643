/**
 * The definite-production analysis behind the flow resolver: a worklist that intersects, at every
 * step, the facts established along the control paths leading to it.
 */
module MustAnalysis {

  /** An input of a step fed by a data edge, or an output name produced by some step. */
  datatype Fact = Fed(step: string, input: string) | Produced(name: string)

  /** Control successors of each step (in edge order), and the facts each step establishes. */
  datatype Graph = Graph(begin: string, succ: map<string, seq<string>>, gen: map<string, set<Fact>>) {
    ghost predicate Valid() {
      && begin in succ
      && succ.Keys == gen.Keys
      && forall u, w | u in succ && w in succ[u] :: w in succ
    }
  }

  // ---- Control paths: the reference definition ----

  ghost predicate Edge(g: Graph, u: string, w: string) {
    u in g.succ && w in g.succ[u]
  }

  /** A walk along control edges from the begin step. */
  ghost predicate IsPath(g: Graph, p: seq<string>) {
    && p != []
    && p[0] == g.begin
    && (forall i | 0 <= i < |p| :: p[i] in g.succ)
    && forall i | 0 <= i < |p| - 1 :: Edge(g, p[i], p[i + 1])
  }

  ghost predicate PathTo(g: Graph, p: seq<string>, v: string) {
    IsPath(g, p) && p[|p| - 1] == v
  }

  /** No step of the walk establishes the fact. */
  ghost predicate Avoids(g: Graph, p: seq<string>, f: Fact) {
    forall i | 0 <= i < |p| :: p[i] in g.gen ==> f !in g.gen[p[i]]
  }

  ghost predicate Reachable(g: Graph, v: string) {
    exists p :: PathTo(g, p, v)
  }

  /** Some path reaches v without the fact having been established at an earlier step. */
  ghost predicate MissesBefore(g: Graph, v: string, f: Fact) {
    exists p :: PathTo(g, p, v) && Avoids(g, p[..|p| - 1], f)
  }

  /** Some path reaches v without the fact being established at v or earlier. */
  ghost predicate MissesThrough(g: Graph, v: string, f: Fact) {
    exists p :: PathTo(g, p, v) && Avoids(g, p, f)
  }

  // ---- The worklist ----

  datatype Item = Item(node: string, facts: set<Fact>)

  /**
   * `low[v]` is the intersection of the arrivals processed at v so far. The source stores at v the
   * very set it then extends with what v establishes, so what it later compares with is `Recorded`.
   */
  datatype State = State(queue: seq<Item>, low: map<string, set<Fact>>)

  function Init(g: Graph): State {
    State([Item(g.begin, {})], map[])
  }

  function Recorded(g: Graph, s: State, v: string): set<Fact>
    requires v in s.low && v in g.gen
  {
    s.low[v] + g.gen[v]
  }

  predicate Skipped(g: Graph, s: State, it: Item) {
    it.node in s.low && it.node in g.gen && Recorded(g, s, it.node) <= it.facts
  }

  function Pushed(ws: seq<string>, facts: set<Fact>): (items: seq<Item>)
    ensures |items| == |ws|
    ensures forall i | 0 <= i < |ws| :: items[i] == Item(ws[i], facts)
  {
    seq(|ws|, i requires 0 <= i < |ws| => Item(ws[i], facts))
  }

  /** One iteration of the loop: pop the last item, skip it or intersect, record and propagate. */
  function Pop(g: Graph, s: State): State
    requires s.queue != []
  {
    var it := s.queue[|s.queue| - 1];
    var rest := s.queue[..|s.queue| - 1];
    if Skipped(g, s, it) || it.node !in g.succ || it.node !in g.gen then s.(queue := rest)
    else
      var low := if it.node in s.low then it.facts * s.low[it.node] else it.facts;
      State(rest + Pushed(g.succ[it.node], low + g.gen[it.node]), s.low[it.node := low])
  }

  lemma {:induction false} PopVisits(g: Graph, s: State)
    requires s.queue != [] && !Skipped(g, s, s.queue[|s.queue| - 1])
    requires s.queue[|s.queue| - 1].node in g.succ && s.queue[|s.queue| - 1].node in g.gen
    ensures var it := s.queue[|s.queue| - 1];
      var meet := if it.node in s.low then it.facts * s.low[it.node] else it.facts;
      && Pop(g, s).low == s.low[it.node := meet]
      && Pop(g, s).queue == s.queue[..|s.queue| - 1] + Pushed(g.succ[it.node], meet + g.gen[it.node])
  {
  }

  function Run(g: Graph, s: State, n: nat): State
    decreases n
  {
    if n == 0 || s.queue == [] then s else Run(g, Pop(g, s), n - 1)
  }

  // ---- Invariants ----

  /** Every set in the state stays above the meet over all paths: a missing fact has a path missing it. */
  ghost predicate Justified(g: Graph, v: string, facts: set<Fact>) {
    v in g.succ && Reachable(g, v) && forall f | f !in facts :: MissesBefore(g, v, f)
  }

  /** An item for w with no more than what is recorded at u. */
  ghost predicate Waiting(g: Graph, s: State, u: string, w: string)
    requires u in s.low && u in g.gen
  {
    exists i | 0 <= i < |s.queue| :: s.queue[i].node == w && s.queue[i].facts <= Recorded(g, s, u)
  }

  /** The flow inequality low(w) <= low(u) + gen(u) holds, or an item that will enforce it is waiting. */
  ghost predicate Covered(g: Graph, s: State, u: string, w: string)
    requires u in s.low && u in g.gen
  {
    || (w in s.low && s.low[w] <= Recorded(g, s, u))
    || Waiting(g, s, u, w)
  }

  ghost predicate Started(g: Graph, s: State) {
    s == Init(g) || (g.begin in s.low && s.low[g.begin] == {})
  }

  ghost predicate Inv(g: Graph, s: State) {
    && Started(g, s)
    && s.low.Keys <= g.succ.Keys
    && (forall i | 0 <= i < |s.queue| :: Justified(g, s.queue[i].node, s.queue[i].facts))
    && (forall v | v in s.low :: Justified(g, v, s.low[v]))
    && forall u, w | u in s.low && u in g.gen && Edge(g, u, w) :: Covered(g, s, u, w)
  }

  lemma {:induction false} PathExtends(g: Graph, p: seq<string>, u: string, w: string)
    requires g.Valid() && PathTo(g, p, u) && Edge(g, u, w)
    ensures PathTo(g, p + [w], w) && (p + [w])[..|p|] == p
  {
    var q := p + [w];
    forall i | 0 <= i < |q| - 1 ensures Edge(g, q[i], q[i + 1]) {
      assert i < |p| - 1 ==> Edge(g, p[i], p[i + 1]);
    }
  }

  lemma {:induction false} PathPrefix(g: Graph, p: seq<string>)
    requires IsPath(g, p) && |p| > 1
    ensures IsPath(g, p[..|p| - 1]) && Edge(g, p[|p| - 2], p[|p| - 1])
  {
    var q := p[..|p| - 1];
    forall i | 0 <= i < |q| - 1 ensures Edge(g, q[i], q[i + 1]) {
      assert Edge(g, p[i], p[i + 1]);
    }
    var j := |p| - 2;
    assert Edge(g, p[j], p[j + 1]);
  }

  /** What is justified before a step is justified, with the step's own facts, at each successor. */
  lemma {:induction false} JustifiedPropagates(g: Graph, u: string, low: set<Fact>, w: string)
    requires g.Valid() && Justified(g, u, low) && Edge(g, u, w)
    ensures Justified(g, w, low + g.gen[u])
  {
    var p :| PathTo(g, p, u);
    PathExtends(g, p, u, w);
    forall f | f !in low + g.gen[u] ensures MissesBefore(g, w, f) {
      var q :| PathTo(g, q, u) && Avoids(g, q[..|q| - 1], f);
      PathExtends(g, q, u, w);
      assert Avoids(g, q, f) by {
        forall i | 0 <= i < |q| && q[i] in g.gen ensures f !in g.gen[q[i]] {
          assert i < |q| - 1 ==> q[..|q| - 1][i] == q[i];
        }
      }
    }
  }

  lemma {:induction false} InitInv(g: Graph)
    requires g.Valid()
    ensures Inv(g, Init(g))
  {
    var p := [g.begin];
    assert PathTo(g, p, g.begin);
    forall f ensures MissesBefore(g, g.begin, f) {
      assert Avoids(g, p[..0], f);
    }
  }

  /** Recorded sets only shrink. */
  lemma {:induction false} PopShrinks(g: Graph, s: State)
    requires s.queue != []
    ensures forall v | v in s.low :: v in Pop(g, s).low && Pop(g, s).low[v] <= s.low[v]
  {
  }

  lemma {:induction false} PopJustified(g: Graph, s: State)
    requires g.Valid() && s.queue != [] && Inv(g, s)
    ensures var t := Pop(g, s);
      && t.low.Keys <= g.succ.Keys
      && (forall i | 0 <= i < |t.queue| :: Justified(g, t.queue[i].node, t.queue[i].facts))
      && (forall v | v in t.low :: Justified(g, v, t.low[v]))
  {
    var t := Pop(g, s);
    var n := |s.queue| - 1;
    var it := s.queue[n];
    if !Skipped(g, s, it) {
      var low := t.low[it.node];
      assert Justified(g, it.node, low);
      forall i | n <= i < |t.queue| ensures Justified(g, t.queue[i].node, t.queue[i].facts) {
        var w := g.succ[it.node][i - n];
        assert t.queue[i] == Item(w, low + g.gen[it.node]);
        JustifiedPropagates(g, it.node, low, w);
      }
    }
  }

  /** Skipped or processed, the set of the popped step ends up below the arrival. */
  lemma {:induction false} PopAbsorbs(g: Graph, s: State)
    requires g.Valid() && s.queue != [] && Inv(g, s)
    ensures var it := s.queue[|s.queue| - 1]; it.node in Pop(g, s).low && Pop(g, s).low[it.node] <= it.facts
  {
  }

  /** The successors of a step that was just processed are waiting. */
  lemma {:induction false} PopPushes(g: Graph, s: State, w: string)
    requires g.Valid() && s.queue != [] && Inv(g, s) && !Skipped(g, s, s.queue[|s.queue| - 1])
    requires Edge(g, s.queue[|s.queue| - 1].node, w)
    ensures Waiting(g, Pop(g, s), s.queue[|s.queue| - 1].node, w)
  {
    var t, n := Pop(g, s), |s.queue| - 1;
    var u := s.queue[n].node;
    var j :| 0 <= j < |g.succ[u]| && g.succ[u][j] == w;
    assert t.queue[n + j] == Item(w, Recorded(g, t, u));
  }

  lemma {:induction false} PopCovered(g: Graph, s: State, u: string, w: string)
    requires g.Valid() && s.queue != [] && Inv(g, s)
    requires u in Pop(g, s).low && Edge(g, u, w)
    ensures Covered(g, Pop(g, s), u, w)
  {
    if !Skipped(g, s, s.queue[|s.queue| - 1]) && u == s.queue[|s.queue| - 1].node {
      PopPushes(g, s, w);
    } else {
      assert Covered(g, s, u, w);
      if w in s.low && s.low[w] <= Recorded(g, s, u) {
        PopShrinks(g, s);
      } else {
        PopKeepsWaiting(g, s, u, w);
      }
    }
  }

  /** An item that was waiting still waits, or was the one popped. */
  lemma {:induction false} PopTakesOne(g: Graph, s: State, u: string, w: string)
    requires s.queue != [] && u in s.low && u in Pop(g, s).low && u in g.gen && Waiting(g, s, u, w)
    requires Pop(g, s).low[u] == s.low[u]
    ensures Waiting(g, Pop(g, s), u, w) ||
            var it := s.queue[|s.queue| - 1]; it.node == w && it.facts <= Recorded(g, s, u)
  {
    var i :| 0 <= i < |s.queue| && s.queue[i].node == w && s.queue[i].facts <= Recorded(g, s, u);
    assert i < |s.queue| - 1 ==> Pop(g, s).queue[i] == s.queue[i];
  }

  /** If it was popped, it has been absorbed. */
  lemma {:induction false} PopKeepsWaiting(g: Graph, s: State, u: string, w: string)
    requires g.Valid() && s.queue != [] && Inv(g, s) && u in s.low && u in g.gen
    requires Pop(g, s).low[u] == s.low[u]
    requires Waiting(g, s, u, w)
    ensures Covered(g, Pop(g, s), u, w)
  {
    PopTakesOne(g, s, u, w);
    PopAbsorbs(g, s);
  }

  lemma {:induction false} PopInv(g: Graph, s: State)
    requires g.Valid() && s.queue != [] && Inv(g, s)
    ensures Inv(g, Pop(g, s))
  {
    var t := Pop(g, s);
    PopJustified(g, s);
    PopShrinks(g, s);
    forall u, w | u in t.low && u in g.gen && Edge(g, u, w) ensures Covered(g, t, u, w) {
      PopCovered(g, s, u, w);
    }
  }

  lemma {:induction false} RunInv(g: Graph, s: State, n: nat)
    requires g.Valid() && Inv(g, s)
    ensures Inv(g, Run(g, s, n))
    decreases n
  {
    if n > 0 && s.queue != [] {
      PopInv(g, s);
      RunInv(g, Pop(g, s), n - 1);
    }
  }

  /** Over a whole run, too, recorded sets only shrink. */
  lemma {:induction false} RunShrinks(g: Graph, s: State, n: nat)
    ensures forall v | v in s.low :: v in Run(g, s, n).low && Run(g, s, n).low[v] <= s.low[v]
    decreases n
  {
    if n > 0 && s.queue != [] {
      PopShrinks(g, s);
      RunShrinks(g, Pop(g, s), n - 1);
    }
  }

  // ---- Exactness ----

  /** With an empty worklist, a fact no step of a path establishes is in none of the sets along it. */
  lemma {:induction false} DescendsAlong(g: Graph, s: State, p: seq<string>, f: Fact)
    requires g.Valid() && Inv(g, s) && s.queue == []
    requires IsPath(g, p) && Avoids(g, p[..|p| - 1], f)
    ensures p[|p| - 1] in s.low && f !in s.low[p[|p| - 1]]
    decreases |p|
  {
    if |p| > 1 {
      var q := p[..|p| - 1];
      var u, w := q[|q| - 1], p[|p| - 1];
      PathPrefix(g, p);
      assert Avoids(g, q[..|q| - 1], f);
      DescendsAlong(g, s, q, f);
      assert Covered(g, s, u, w);
    }
  }

  lemma {:induction false} VisitedAlong(g: Graph, s: State, p: seq<string>)
    requires g.Valid() && Inv(g, s) && s.queue == [] && IsPath(g, p)
    ensures p[|p| - 1] in s.low
    decreases |p|
  {
    if |p| > 1 {
      var q := p[..|p| - 1];
      PathPrefix(g, p);
      VisitedAlong(g, s, q);
      assert Covered(g, s, q[|q| - 1], p[|p| - 1]);
    }
  }

  /** When the worklist empties, each set is the meet over all paths: exactly the facts no path misses. */
  lemma {:induction false} Exact(g: Graph, n: nat, v: string, f: Fact)
    requires g.Valid() && Run(g, Init(g), n).queue == []
    ensures var s := Run(g, Init(g), n);
      && (v in s.low <==> Reachable(g, v))
      && (v in s.low ==> (f !in s.low[v] <==> MissesBefore(g, v, f)))
      && (v in s.low ==> v in g.gen && (f !in Recorded(g, s, v) <==> MissesThrough(g, v, f)))
  {
    var s := Run(g, Init(g), n);
    InitInv(g);
    RunInv(g, Init(g), n);
    if Reachable(g, v) {
      var p :| PathTo(g, p, v);
      VisitedAlong(g, s, p);
    }
    if MissesBefore(g, v, f) {
      var p :| PathTo(g, p, v) && Avoids(g, p[..|p| - 1], f);
      DescendsAlong(g, s, p, f);
    }
    if v in s.low {
      ThroughIsBefore(g, v, f);
    }
  }

  lemma {:induction false} ThroughIsBefore(g: Graph, v: string, f: Fact)
    requires v in g.gen
    ensures MissesThrough(g, v, f) <==> MissesBefore(g, v, f) && f !in g.gen[v]
  {
    if MissesThrough(g, v, f) {
      var p :| PathTo(g, p, v) && Avoids(g, p, f);
      assert Avoids(g, p[..|p| - 1], f);
      assert p[|p| - 1] == v;
    }
    if MissesBefore(g, v, f) && f !in g.gen[v] {
      var p :| PathTo(g, p, v) && Avoids(g, p[..|p| - 1], f);
      forall i | 0 <= i < |p| && p[i] in g.gen ensures f !in g.gen[p[i]] {
        assert i < |p| - 1 ==> p[..|p| - 1][i] == p[i];
      }
      assert Avoids(g, p, f);
    }
  }
}
