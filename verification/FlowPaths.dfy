/** Control paths of a flow before and after a StartStep is put in front of it. */
module FlowPaths {
  import opened Wrappers
  import opened MustAnalysis
  import opened Flows
  import opened FlowBuild

  ghost predicate HasEdge(f: Flow, es: seq<ControlEdge>, u: string, t: Option<string>) {
    exists i | 0 <= i < |es| :: es[i].source == u && f.Target(es[i]) == t
  }

  lemma {:induction false} TargetsMembers(f: Flow, es: seq<ControlEdge>, u: string, t: Option<string>)
    ensures t in f.TargetsOf(es, u) <==> HasEdge(f, es, u, t)
    decreases |es|
  {
    if es != [] {
      var n := |es| - 1;
      TargetsMembers(f, es[..n], u, t);
      if HasEdge(f, es, u, t) {
        var i :| 0 <= i < |es| && es[i].source == u && f.Target(es[i]) == t;
        assert i < n ==> es[..n][i] == es[i];
      }
    }
  }

  /** The flow can end at a step that no control edge leaves, or that one leaves without leading to a step. */
  lemma {:induction false} ExitMeans(f: Flow, v: string)
    ensures f.IsExit(v) <==>
              || (forall i | 0 <= i < |f.control| :: f.control[i].source != v)
              || exists i | 0 <= i < |f.control| ::
                   f.control[i].source == v && (f.control[i].dest.None? || f.control[i].dest.value !in f.steps)
  {
    TargetsMembers(f, f.control, v, None);
    if f.NextNames(v) != [] {
      var t := f.NextNames(v)[0];
      TargetsMembers(f, f.control, v, t);
    }
    if i :| 0 <= i < |f.control| && f.control[i].source == v {
      TargetsMembers(f, f.control, v, f.Target(f.control[i]));
    }
  }

  lemma {:induction false} EdgeMeans(f: Flow, u: string, w: string)
    ensures Edge(GraphOf(f), u, w) <==> u in f.steps && HasEdge(f, f.control, u, Some(w))
  {
    if u in f.steps {
      TargetsMembers(f, f.control, u, Some(w));
    }
  }

  /** The flow with a StartStep in front: everything else is as it was. */
  ghost predicate Fronted(f: Flow, h: Flow) {
    && f.Valid() && !UnknownSteps(f) && START_NAME !in f.steps
    && h.begin == START_NAME
    && h.control == f.control + [ControlEdge(START_NAME, Some(f.begin))]
    && h.steps.Keys == f.steps.Keys + {START_NAME}
    && forall v | v in f.steps :: h.steps[v] == f.steps[v]
  }

  lemma {:induction false} HasEdgeUp(f: Flow, h: Flow, u: string, w: string)
    requires Fronted(f, h) && HasEdge(f, f.control, u, Some(w))
    ensures HasEdge(h, h.control, u, Some(w))
  {
    var i :| 0 <= i < |f.control| && f.control[i].source == u && f.Target(f.control[i]) == Some(w);
    assert h.control[i] == f.control[i] && h.Target(h.control[i]) == Some(w);
  }

  lemma {:induction false} HasEdgeDown(f: Flow, h: Flow, u: string, w: string)
    requires Fronted(f, h) && HasEdge(h, h.control, u, Some(w))
    ensures (u == START_NAME && w == f.begin) || (u in f.steps && HasEdge(f, f.control, u, Some(w)))
  {
    var i :| 0 <= i < |h.control| && h.control[i].source == u && h.Target(h.control[i]) == Some(w);
    if i < |f.control| {
      assert h.control[i] == f.control[i] && f.Target(f.control[i]) == Some(w);
    }
  }

  /** Two graphs that differ by one new begin step, whose only edge leads to the former one. */
  ghost predicate FrontedGraph(g: Graph, k: Graph) {
    && g.Valid() && k.begin !in g.succ
    && k.succ.Keys == g.succ.Keys + {k.begin}
    && forall u, w :: Edge(k, u, w) <==> (u == k.begin && w == g.begin) || Edge(g, u, w)
  }

  lemma {:induction false} FrontedGraphs(f: Flow, h: Flow)
    requires Fronted(f, h)
    ensures FrontedGraph(GraphOf(f), GraphOf(h)) && GraphOf(h).begin == START_NAME
  {
    GraphValid(f);
    var n := |f.control|;
    assert h.control[n] == ControlEdge(START_NAME, Some(f.begin));
    assert h.Target(h.control[n]) == Some(f.begin);
    forall u, w
      ensures Edge(GraphOf(h), u, w) <==> (u == START_NAME && w == f.begin) || Edge(GraphOf(f), u, w)
    {
      EdgeMeans(f, u, w);
      EdgeMeans(h, u, w);
      if HasEdge(f, f.control, u, Some(w)) {
        HasEdgeUp(f, h, u, w);
      }
      if HasEdge(h, h.control, u, Some(w)) {
        HasEdgeDown(f, h, u, w);
      }
    }
  }

  lemma {:induction false} PathDown(g: Graph, k: Graph, p: seq<string>, v: string)
    requires FrontedGraph(g, k) && PathTo(k, p, v) && v != k.begin
    ensures p[0] == k.begin && |p| > 1 && PathTo(g, p[1..], v)
  {
    var q := p[1..];
    forall i | 0 <= i < |q| ensures q[i] in g.succ && (i == 0 ==> q[i] == g.begin) {
      assert Edge(k, p[i], p[i + 1]);
    }
    forall i | 0 <= i < |q| - 1 ensures Edge(g, q[i], q[i + 1]) {
      var j := i + 1;
      assert Edge(k, p[j], p[j + 1]);
    }
  }

  lemma {:induction false} PathUp(g: Graph, k: Graph, p: seq<string>, v: string)
    requires FrontedGraph(g, k) && PathTo(g, p, v)
    ensures PathTo(k, [k.begin] + p, v)
  {
    var q := [k.begin] + p;
    forall i | 0 <= i < |q| - 1 ensures Edge(k, q[i], q[i + 1]) {
      if i > 0 {
        var j := i - 1;
        assert Edge(g, p[j], p[j + 1]);
      }
    }
  }
}
