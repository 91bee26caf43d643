/** Flows the resolver never finishes: a loop entered at two steps that produce different names. */
module EndlessFlow {
  import opened Wrappers
  import opened Properties
  import opened MustAnalysis
  import opened LoopTermination
  import opened Flows
  import opened FlowResolver
  import opened FlowTraversal
  import opened FlowPaths
  import opened FlowTermination

  /** The begin step leads to a and to b, which lead to each other; only a produces m, and only b produces n. */
  ghost predicate Exchange(f: Flow, a: string, m: string, b: string, n: string)
    requires f.Valid()
  {
    && a in f.steps && b in f.steps
    && HasEdge(f, f.control, f.begin, Some(a)) && HasEdge(f, f.control, f.begin, Some(b))
    && HasEdge(f, f.control, a, Some(b)) && HasEdge(f, f.control, b, Some(a))
    && Names(f.steps[a].outputs, m) && !Names(f.steps[b].outputs, m) && !Names(f.steps[f.begin].outputs, m)
    && Names(f.steps[b].outputs, n) && !Names(f.steps[a].outputs, n) && !Names(f.steps[f.begin].outputs, n)
  }

  /** The way from the begin step straight to u produces no n, and the next step w does. */
  lemma {:induction false} EntryIsLive(f: Flow, u: string, w: string, n: string)
    requires f.Valid() && u in f.steps && w in f.steps
    requires HasEdge(f, f.control, f.begin, Some(u)) && HasEdge(f, f.control, u, Some(w))
    requires Names(f.steps[w].outputs, n)
    requires !Names(f.steps[u].outputs, n) && !Names(f.steps[f.begin].outputs, n)
    ensures Live(GraphOf(f), u, w)
  {
    EdgeMeans(f, f.begin, u);
    EdgeMeans(f, u, w);
    var p := StraightPath(f, u);
    assert !ProducedOn(f, p, n);
    LiveExactly(f, u, w);
  }

  lemma {:induction false} StraightPath(f: Flow, u: string) returns (p: seq<string>)
    requires f.Valid() && Edge(GraphOf(f), f.begin, u) && u in f.steps
    ensures PathTo(GraphOf(f), p, u) && |p| == 2 && p[0] == f.begin && p[1] == u
  {
    p := [f.begin, u];
  }

  /** Whatever number of iterations is allowed, the queue is not empty after them. */
  lemma {:induction false} ResolverNeverFinishes(f: Flow, a: string, m: string, b: string, n: string, fuel: nat)
    requires f.Valid() && Unobjectionable(f) && Exchange(f, a, m, b, n)
    ensures Outcome(f, fuel) == None
  {
    EntryIsLive(f, a, b, n);
    EntryIsLive(f, b, a, m);
    GraphValid(f);
    TwoEntriesNeverTerminate(GraphOf(f), a, b, fuel);
    NeverRaises(f, fuel);
    DecidesExactly(f, fuel);
  }

  function Producing(names: seq<string>): Step {
    Step(OtherStep, [], seq(|names|, i requires 0 <= i < |names| => Plain(AnyK).(name := names[i])))
  }

  lemma {:induction false} ThreeStepsExchange(f: Flow)
    requires f.begin == "S" && f.order == ["S", "A", "B"] && f.data == []
    requires f.steps == map["S" := Producing([]), "A" := Producing(["a"]), "B" := Producing(["b"])]
    requires f.control == [ControlEdge("S", Some("A")), ControlEdge("S", Some("B")),
                           ControlEdge("A", Some("B")), ControlEdge("B", Some("A"))]
    ensures f.Valid() && Unobjectionable(f) && Exchange(f, "A", "a", "B", "b")
  {
    assert "a"[0] != "b"[0] && "A"[0] != "B"[0] && "A"[0] != "S"[0] && "B"[0] != "S"[0];
    assert f.order[0] == "S" && f.order[1] == "A" && f.order[2] == "B";
    assert f.steps["A"].outputs[0].name == "a" && f.steps["B"].outputs[0].name == "b";
    assert f.control[0] == ControlEdge("S", Some("A")) && f.control[1] == ControlEdge("S", Some("B"));
    assert f.control[2] == ControlEdge("A", Some("B")) && f.control[3] == ControlEdge("B", Some("A"));
  }

  /** There is such a flow, with three steps and no data edge. */
  lemma {:induction false} EndlessFlowExists() returns (f: Flow)
    ensures f.Valid() && forall fuel: nat :: Outcome(f, fuel) == None
  {
    f := Flow("S", ["S", "A", "B"],
              map["S" := Producing([]), "A" := Producing(["a"]), "B" := Producing(["b"])],
              [ControlEdge("S", Some("A")), ControlEdge("S", Some("B")),
               ControlEdge("A", Some("B")), ControlEdge("B", Some("A"))], []);
    ThreeStepsExchange(f);
    forall fuel: nat ensures Outcome(f, fuel) == None {
      ResolverNeverFinishes(f, "A", "a", "B", "b", fuel);
    }
  }
}
