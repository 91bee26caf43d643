/** Flows as their constructor receives them: named steps, control edges and data edges. */
module Flows {
  import opened Wrappers
  import opened Properties
  import opened MustAnalysis

  datatype StepKind = StartStep | CompleteStep | OtherStep

  datatype Step = Step(kind: StepKind, inputs: seq<Property>, outputs: seq<Property>)

  datatype Provider = Provider(name: string, outputs: seq<Property>)

  datatype Source = FromStep(step: string) | FromContext(provider: Provider)

  datatype DataEdge = DataEdge(source: Source, output: string, dest: string, input: string)

  /** A control edge without destination ends the flow. */
  datatype ControlEdge = ControlEdge(source: string, dest: Option<string>)

  datatype IoKey = IoKey(step: string, input: string)

  /** Descriptor names are unique within a component. */
  predicate Distinct(ps: seq<Property>) {
    forall i, j | 0 <= i < j < |ps| :: ps[i].name != ps[j].name
  }

  predicate Names(ps: seq<Property>, n: string) {
    exists i | 0 <= i < |ps| :: ps[i].name == n
  }

  function NameSet(ps: seq<Property>): (r: set<string>)
    ensures forall n :: n in r <==> Names(ps, n)
  {
    set i | 0 <= i < |ps| :: ps[i].name
  }

  function Named(ps: seq<Property>, n: string): (p: Property)
    requires Names(ps, n)
    ensures p.name == n && p in ps
  {
    if ps[0].name == n then ps[0]
    else
      assert Names(ps[1..], n) by {
        var i :| 0 <= i < |ps| && ps[i].name == n;
        assert ps[1..][i - 1] == ps[i];
      }
      Named(ps[1..], n)
  }

  lemma {:induction false} NamedUnique(ps: seq<Property>, i: nat)
    requires Distinct(ps) && i < |ps|
    ensures Names(ps, ps[i].name) && Named(ps, ps[i].name) == ps[i]
  {
    assert Names(ps, ps[i].name);
    var p := Named(ps, ps[i].name);
    var j :| 0 <= j < |ps| && ps[j] == p;
  }

  /** `order` lists the keys of `steps` in insertion order. */
  datatype Flow = Flow(
    begin: string, order: seq<string>, steps: map<string, Step>, control: seq<ControlEdge>, data: seq<DataEdge>)
  {
    predicate Valid() {
      && begin in steps
      && (forall n | n in order :: n in steps)
      && (forall n | n in steps :: n in order)
      && forall n | n in steps :: Distinct(steps[n].inputs) && Distinct(steps[n].outputs)
    }

    /** The name `_get_step_name_from_step` finds for the destination of a control edge. */
    function Target(e: ControlEdge): Option<string> {
      if e.dest.Some? && e.dest.value in steps then e.dest else None
    }

    /** `next_step_name_list` */
    function NextNames(v: string): seq<Option<string>> {
      TargetsOf(control, v)
    }

    function TargetsOf(es: seq<ControlEdge>, v: string): seq<Option<string>> {
      if es == [] then []
      else
        var e := es[|es| - 1];
        TargetsOf(es[..|es| - 1], v) + if e.source == v then [Target(e)] else []
    }

    /** A step without successor, or with a successor that ends the flow. */
    predicate IsExit(v: string) {
      NextNames(v) == [] || None in NextNames(v)
    }

    /** `_get_context_provider_or_none_for_step` finds a provider. */
    predicate HasContext(v: string, input: string) {
      exists i | 0 <= i < |data| ::
        data[i].source.FromContext? && data[i].dest == v && data[i].input == input
    }

    predicate IsInput(v: string, input: string) {
      v in steps && Names(steps[v].inputs, input)
    }

    /** What the steps feed into the inputs of other steps. */
    function FedBy(v: string): set<IoKey> {
      set i | 0 <= i < |data| && data[i].source == FromStep(v) :: IoKey(data[i].dest, data[i].input)
    }
  }

  function Known(ts: seq<Option<string>>): (r: seq<string>)
    ensures forall w :: w in r <==> Some(w) in ts
  {
    if ts == [] then []
    else
      var t := ts[|ts| - 1];
      Known(ts[..|ts| - 1]) + if t.Some? then [t.value] else []
  }

  // ---- The control graph and the facts each step establishes ----

  function Facts(keys: set<IoKey>, names: set<string>): set<Fact> {
    (set k | k in keys :: Fed(k.step, k.input)) + (set n | n in names :: Produced(n))
  }

  lemma {:induction false} FactsMembers(keys: set<IoKey>, names: set<string>)
    ensures forall k: IoKey :: Fed(k.step, k.input) in Facts(keys, names) <==> k in keys
    ensures forall n: string :: Produced(n) in Facts(keys, names) <==> n in names
  {
    forall k: IoKey | Fed(k.step, k.input) in Facts(keys, names) ensures k in keys {
      var j :| j in keys && Fed(j.step, j.input) == Fed(k.step, k.input);
      assert j == k;
    }
  }

  function GraphOf(f: Flow): Graph {
    Graph(f.begin,
          map v | v in f.steps :: Known(f.NextNames(v)),
          map v | v in f.steps :: Facts(f.FedBy(v), NameSet(f.steps[v].outputs)))
  }

  lemma {:induction false} TargetsAreSteps(f: Flow, es: seq<ControlEdge>, v: string)
    ensures forall w | Some(w) in f.TargetsOf(es, v) :: w in f.steps
    decreases |es|
  {
    if es != [] {
      TargetsAreSteps(f, es[..|es| - 1], v);
    }
  }

  lemma {:induction false} GraphValid(f: Flow)
    requires f.Valid()
    ensures GraphOf(f).Valid()
  {
    var g := GraphOf(f);
    forall u, w | u in g.succ && w in g.succ[u] ensures w in g.succ {
      TargetsAreSteps(f, f.control, u);
    }
  }

  lemma {:induction false} TargetsSnoc(f: Flow, es: seq<ControlEdge>, e: ControlEdge, v: string)
    ensures f.TargetsOf(es + [e], v) == f.TargetsOf(es, v) + if e.source == v then [f.Target(e)] else []
  {
    assert (es + [e])[..|es|] == es;
  }

  lemma {:induction false} KnownSnoc(ts: seq<Option<string>>, t: Option<string>)
    ensures Known(ts + [t]) == Known(ts) + if t.Some? then [t.value] else []
  {
    assert (ts + [t])[..|ts|] == ts;
  }

  /** What one more control edge adds to the successors. */
  lemma {:induction false} SuccessorsSnoc(f: Flow, es: seq<ControlEdge>, source: string, dest: string, v: string)
    requires dest in f.steps
    ensures Known(f.TargetsOf(es + [ControlEdge(source, Some(dest))], v)) ==
            Known(f.TargetsOf(es, v)) + if source == v then [dest] else []
  {
    TargetsSnoc(f, es, ControlEdge(source, Some(dest)), v);
    KnownSnoc(f.TargetsOf(es, v), Some(dest));
    assert f.TargetsOf(es, v) + [] == f.TargetsOf(es, v);
  }

  lemma {:induction false} EndingSnoc(f: Flow, es: seq<ControlEdge>, source: string, v: string)
    ensures Known(f.TargetsOf(es + [ControlEdge(source, None)], v)) == Known(f.TargetsOf(es, v))
  {
    TargetsSnoc(f, es, ControlEdge(source, None), v);
    KnownSnoc(f.TargetsOf(es, v), None);
    assert f.TargetsOf(es, v) + [] == f.TargetsOf(es, v);
  }
}
