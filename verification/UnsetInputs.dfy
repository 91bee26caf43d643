/**
 * Flows that are accepted although a step may find its input unset: two steps miss one name, and only the descriptor
 * of the one visited last is kept.
 */
module UnsetInputs {
  import opened Wrappers
  import opened Properties
  import opened Casting
  import opened MustAnalysis
  import opened Flows
  import opened FlowResolver
  import opened VisitOrder
  import opened FlowBuild
  import opened DefiniteAssignment
  import opened Acceptance

  /** Three different steps in a row; the second and the third each have one input, of the same name. */
  ghost predicate Chain(f: Flow, kind: StepKind, s: string, y: string, x: string, b: Property, a: Property) {
    && s != x && s != y && x != y && !kind.CompleteStep? && START_NAME !in {s, x, y}
    && a.name == b.name && CanCast(b, a)
    && f.begin == s && f.data == [] && f.steps.Keys == {s, y, x}
    && |f.order| == 3 && f.order[0] == s && f.order[1] == y && f.order[2] == x
    && f.steps[s] == Step(kind, [], [])
    && f.steps[y] == Step(OtherStep, [b], []) && f.steps[x] == Step(OtherStep, [a], [])
    && InOrder(f.control, s, y, x)
  }

  ghost predicate InOrder(es: seq<ControlEdge>, s: string, y: string, x: string) {
    && |es| == 3
    && es[0] == ControlEdge(s, Some(y)) && es[1] == ControlEdge(y, Some(x)) && es[2] == ControlEdge(x, None)
  }

  lemma {:induction false} ChainIsValid(f: Flow, kind: StepKind, s: string, y: string, x: string, b: Property,
    a: Property)
    requires Chain(f, kind, s, y, x, b, a)
    ensures f.Valid() && !UnknownSteps(f) && !Misshapen(f) && !Disconnected(f)
  {
    assert f.order[0] in f.order && f.order[1] in f.order && f.order[2] in f.order;
    var es := f.control;
    assert es[0].source == s && es[0].dest == Some(y);
    assert es[1].source == y && es[1].dest == Some(x) && es[2].source == x;
  }

  lemma {:induction false} ChainSuccessors(f: Flow, es: seq<ControlEdge>, s: string, y: string, x: string, v: string)
    requires s != x && s != y && x != y && x in f.steps && y in f.steps && InOrder(es, s, y, x)
    ensures Known(f.TargetsOf(es, v)) == if v == s then [y] else if v == y then [x] else []
  {
    SuccessorsSnoc(f, es[..0], s, y, v);
    SuccessorsSnoc(f, es[..1], y, x, v);
    EndingSnoc(f, es[..2], x, v);
    assert es[..0] + [es[0]] == es[..1] && es[..1] + [es[1]] == es[..2] && es[..2] + [es[2]] == es;
    assert Known(f.TargetsOf(es[..0], v)) == [];
  }

  // ---- The traversal of three steps in a row ----

  /** A step without outputs in a flow without data edges hands on nothing. */
  predicate Plainly(f: Flow, v: string, ins: seq<Property>, next: seq<string>) {
    v in f.steps && f.steps[v].inputs == ins && f.steps[v].outputs == [] && f.data == [] &&
    Known(f.NextNames(v)) == next
  }

  lemma {:induction false} PlainVisit(f: Flow, t: Resolver, v: string, ins: seq<Property>, next: seq<string>)
    requires Plainly(f, v, ins, next) && AddInputs(f, v, {}, t.inputs, ins).Ok?
    ensures Visit(f, t, v, NOTHING).Ok?
    ensures Visit(f, t, v, NOTHING).value.inputs == AddInputs(f, v, {}, t.inputs, ins).value
    ensures Visit(f, t, v, NOTHING).value.queue == t.queue + Arrivals(next, NOTHING)
    ensures Visit(f, t, v, NOTHING).value.visited == t.visited[v := NOTHING]
  {
  }

  /** The only item on the queue, of a step not visited before. */
  lemma {:induction false} PlainPop(f: Flow, t: Resolver, v: string, ins: seq<Property>, next: seq<string>, n: nat)
    returns (u: Resolver)
    requires t.queue == [Arrival(v, NOTHING)] && v !in t.visited && Plainly(f, v, ins, next)
    requires AddInputs(f, v, {}, t.inputs, ins).Ok?
    ensures u.queue == Arrivals(next, NOTHING) && u.visited.Keys == t.visited.Keys + {v}
    ensures u.inputs == AddInputs(f, v, {}, t.inputs, ins).value
    ensures Traverse(f, t, n + 1) == Traverse(f, u, n)
  {
    var rest := t.(queue := []);
    PlainVisit(f, rest, v, ins, next);
    u := Visit(f, rest, v, NOTHING).value;
    assert t.queue[..0] == [];
  }

  lemma {:induction false} AddsFirst(f: Flow, v: string, d: Property)
    requires f.data == []
    ensures AddInputs(f, v, {}, NO_INPUTS, [d]).Ok?
    ensures AddInputs(f, v, {}, NO_INPUTS, [d]).value.resolved == map[d.name := d]
  {
    assert AddInputs(f, v, {}, NO_INPUTS, [d][..0]) == Ok(NO_INPUTS);
  }

  lemma {:induction false} AddsAgain(f: Flow, v: string, acc: Inputs, d: Property, was: Property)
    requires f.data == [] && acc.resolved == map[d.name := was] && CanCast(was, d)
    ensures AddInputs(f, v, {}, acc, [d]).Ok?
    ensures AddInputs(f, v, {}, acc, [d]).value.resolved == map[d.name := d]
  {
    assert AddInputs(f, v, {}, acc, [d][..0]) == Ok(acc);
  }

  ghost predicate InARow(f: Flow, y: string, x: string, b: Property, a: Property) {
    && f.Valid() && Plainly(f, f.begin, [], [y]) && Plainly(f, y, [b], [x]) && Plainly(f, x, [a], [])
    && f.begin != x && f.begin != y && x != y && a.name == b.name && CanCast(b, a)
  }

  lemma {:induction false} LastStep(f: Flow, t: Resolver, x: string, a: Property, b: Property) returns (u: Resolver)
    requires t.queue == [Arrival(x, NOTHING)] && x !in t.visited && Plainly(f, x, [a], [])
    requires t.inputs.resolved == map[a.name := b] && CanCast(b, a)
    ensures Traverse(f, t, 1) == Ok(u) && u.queue == [] && u.inputs.resolved == map[a.name := a]
  {
    AddsAgain(f, x, t.inputs, a, b);
    u := PlainPop(f, t, x, [a], [], 0);
    assert u.queue == [];
  }

  lemma {:induction false} LastSteps(f: Flow, t: Resolver, y: string, x: string, b: Property, a: Property)
    returns (u: Resolver)
    requires t.queue == [Arrival(y, NOTHING)] && y !in t.visited && x !in t.visited && x != y && t.inputs == NO_INPUTS
    requires Plainly(f, y, [b], [x]) && Plainly(f, x, [a], []) && a.name == b.name && CanCast(b, a)
    ensures Traverse(f, t, 2) == Ok(u) && u.queue == [] && u.inputs.resolved == map[a.name := a]
  {
    AddsFirst(f, y, b);
    var t2 := PlainPop(f, t, y, [b], [x], 1);
    assert t2.queue == [Arrival(x, NOTHING)];
    u := LastStep(f, t2, x, a, b);
  }

  /** The descriptor of the last step is the one kept. */
  lemma {:induction false} RowTraverses(f: Flow, y: string, x: string, b: Property, a: Property) returns (t: Resolver)
    requires InARow(f, y, x, b, a)
    ensures Traverse(f, Start(f), 3) == Ok(t) && t.queue == [] && t.inputs.resolved == map[a.name := a]
  {
    var t1 := PlainPop(f, Start(f), f.begin, [], [y], 2);
    assert t1.queue == [Arrival(y, NOTHING)];
    t := LastSteps(f, t1, y, x, b, a);
  }

  lemma {:induction false} RowResolves(f: Flow, y: string, x: string, b: Property, a: Property)
    returns (res: Resolution)
    requires InARow(f, y, x, b, a) && (f.steps[f.begin].kind.StartStep? ==> a.default.Some?)
    ensures Resolved(f, 3, res) && res.inputs.resolved == map[a.name := a]
    ensures LastMiss(f, Visits(f, 3), a.name) == Some(a)
  {
    var t := RowTraverses(f, y, x, b, a);
    LastMissDecides(f, 3, t, a.name);
    res := FinishResolves(f, 3, t);
  }

  lemma {:induction false} ChainInARow(f: Flow, kind: StepKind, s: string, y: string, x: string, b: Property,
    a: Property)
    requires Chain(f, kind, s, y, x, b, a)
    ensures InARow(f, y, x, b, a)
  {
    ChainIsValid(f, kind, s, y, x, b, a);
    assert Plainly(f, s, [], [y]) by { ChainSuccessors(f, f.control, s, y, x, s); }
    assert Plainly(f, y, [b], [x]) by { ChainSuccessors(f, f.control, s, y, x, y); }
    assert Plainly(f, x, [a], []) by { ChainSuccessors(f, f.control, s, y, x, x); }
  }

  lemma {:induction false} FinishResolves(f: Flow, fuel: nat, t: Resolver) returns (res: Resolution)
    requires f.Valid() && Finished(f, fuel, t) && !LacksStartInput(f, t)
    ensures Resolved(f, fuel, res) && res.inputs == t.inputs
  {
    res := Finish(f, t).value;
  }

  lemma {:induction false} ChainResolves(f: Flow, kind: StepKind, s: string, y: string, x: string, b: Property,
    a: Property)
    returns (res: Resolution)
    requires Chain(f, kind, s, y, x, b, a) && (kind.StartStep? ==> a.default.Some?)
    ensures f.Valid() && Resolved(f, 3, res) && res.inputs.resolved == map[a.name := a]
    ensures LastMiss(f, Visits(f, 3), a.name) == Some(a)
  {
    ChainInARow(f, kind, s, y, x, b, a);
    assert f.steps[f.begin].kind == kind;
    res := RowResolves(f, y, x, b, a);
  }

  lemma {:induction false} EdgeIsPath(g: Graph, v: string)
    requires g.begin in g.succ && v in g.succ && Edge(g, g.begin, v)
    ensures PathTo(g, [g.begin, v], v)
  {
  }

  lemma {:induction false} UnfedWithoutData(f: Flow, p: seq<string>, v: string, n: string)
    requires f.data == [] && PathTo(GraphOf(f), p, v)
    ensures MayBeUnfed(f, v, n) && !f.HasContext(v, n)
  {
    assert Unfed(f, p, v, n);
  }

  lemma {:induction false} ChainMisses(f: Flow, kind: StepKind, s: string, y: string, x: string, b: Property,
    a: Property,
                    context: set<string>)
    requires Chain(f, kind, s, y, x, b, a) && b.default.None? && b.name !in context
    ensures Missing(f, context, y, 0)
  {
    ChainSuccessors(f, f.control, s, y, x, s);
    assert y in GraphOf(f).succ[s];
    EdgeIsPath(GraphOf(f), y);
    UnfedWithoutData(f, [s, y], y, b.name);
  }

  // ---- What the constructor accepts ----

  /**
   * A StartStep without inputs in front of two steps that need one name: if the later step has a default, the
   * resolver's check passes, and the earlier one finds nothing.
   */
  lemma {:induction false} StartStepCheckMissesInput(
    f: Flow, s: string, y: string, x: string, b: Property, a: Property, context: set<string>) returns (built: Built)
    requires Chain(f, StartStep, s, y, x, b, a) && a.default.Some? && b.default.None? && b.name !in context
    ensures f.Valid() && !UnknownSteps(f) && !Misshapen(f) && !Disconnected(f)
    ensures Construct(Given(f, [], None), f, 3) == Some(Ok(built)) && !DefinitelyAssigned(built, context)
  {
    ChainIsValid(f, StartStep, s, y, x, b, a);
    var res := ChainResolves(f, StartStep, s, y, x, b, a);
    built := WithoutAdding(f, None, ContextNames([], f.data), res).value;
    ChainMisses(f, StartStep, s, y, x, b, a, context);
    WithUserStartStep(Given(f, [], None), f, 3, built, context);
  }

  lemma {:induction false} ChainConstructs(f: Flow, s: string, y: string, x: string, b: Property, a: Property)
    returns (built: Built)
    requires Chain(f, OtherStep, s, y, x, b, a)
    ensures f.Valid() && !UnknownSteps(f) && !Misshapen(f) && !Disconnected(f)
    ensures Construct(Given(f, [], Some([])), f, 3) == Some(Ok(built))
    ensures LastMiss(f, Visits(f, 3), a.name) == Some(a)
  {
    ChainIsValid(f, OtherStep, s, y, x, b, a);
    var res := ChainResolves(f, OtherStep, s, y, x, b, a);
    built := AddStart(f, Some([]), ContextNames([], f.data), res).value;
  }

  /** The same with an empty list of inputs: the name stops being an input of the flow, and nothing is stored for it. */
  lemma {:induction false} EmptyListMissesInput(
    f: Flow, s: string, y: string, x: string, b: Property, a: Property, context: set<string>) returns (built: Built)
    requires Chain(f, OtherStep, s, y, x, b, a) && a.default.Some? && b.default.None? && b.name !in context
    ensures f.Valid() && !UnknownSteps(f) && !Misshapen(f) && !Disconnected(f)
    ensures Construct(Given(f, [], Some([])), f, 3) == Some(Ok(built)) && !DefinitelyAssigned(built, context)
  {
    built := ChainConstructs(f, s, y, x, b, a);
    ChainMisses(f, OtherStep, s, y, x, b, a, context);
    WithSynthesisedStartStep(Given(f, [], Some([])), f, 3, built, context);
  }

  lemma {:induction false} ChainInputName(f: Flow, s: string, y: string, x: string, b: Property, a: Property,
    v: string, i: nat)
    requires Chain(f, OtherStep, s, y, x, b, a) && v in f.steps && i < |f.steps[v].inputs|
    ensures f.steps[v].inputs[i].name == a.name
  {
    assert v in {s, x, y};
  }

  /**
   * The order of the two steps decides: with the default on the earlier one the flow asks for the input. Which inputs
   * are missing, with or without default or provider, therefore does not tell whether a flow sets them.
   */
  lemma {:induction false} VisitOrderDecides(
    f: Flow, s: string, y: string, x: string, b: Property, a: Property, context: set<string>) returns (built: Built)
    requires Chain(f, OtherStep, s, y, x, b, a) && a.default.None? && b.default.Some?
    ensures f.Valid() && !UnknownSteps(f) && !Misshapen(f) && !Disconnected(f)
    ensures Construct(Given(f, [], Some([])), f, 3) == Some(Ok(built)) && DefinitelyAssigned(built, context)
  {
    built := ChainConstructs(f, s, y, x, b, a);
    forall v, i: nat | Missing(f, context, v, i) ensures f.steps[v].inputs[i].name == a.name {
      ChainInputName(f, s, y, x, b, a, v, i);
    }
    WithSynthesisedStartStep(Given(f, [], Some([])), f, 3, built, context);
  }

  lemma {:induction false} StepFits(f: Flow, v: string, p: Property, d: Property)
    requires v in f.steps && v != START_NAME && f.steps[v].inputs == [p] && p.name == d.name && CanCast(d, p)
    ensures KeyFits(WithStart(f, [d]), [d], d.name, IoKey(v, d.name))
  {
    NamedUnique([p], 0);
    NamedUnique([d], 0);
  }

  lemma {:induction false} ChainInputs(f: Flow, s: string, y: string, x: string, b: Property, a: Property, v: string,
    n: string)
    requires Chain(f, OtherStep, s, y, x, b, a) && f.IsInput(v, n)
    ensures v == x || v == y
  {
  }

  lemma {:induction false} EitherFits(f: Flow, y: string, x: string, b: Property, a: Property, d: Property, v: string)
    requires x in f.steps && y in f.steps && START_NAME !in {x, y} && (v == x || v == y)
    requires f.steps[x].inputs == [a] && f.steps[y].inputs == [b] && a.name == b.name == d.name
    requires CanCast(d, a) && CanCast(d, b)
    ensures KeyFits(WithStart(f, [d]), [d], d.name, IoKey(v, d.name))
  {
    StepFits(f, v, if v == x then a else b, d);
  }

  lemma {:induction false} MissingKeys(f: Flow, res: Resolution, n: string, k: IoKey)
    requires f.Valid() && Resolved(f, 3, res) && n in res.inputs.names && k in Listed(res.inputs.keys, n)
    ensures n in res.inputs.resolved && k == IoKey(k.step, n) && f.IsInput(k.step, n)
  {
    ResolvedListed(f, 3, res);
    assert Requires(res.inputs, k.step, n);
    RequiredExact(f, 3, res, k.step, n);
  }

  /**
   * An input the caller lists without default, where the step visited last has one: the flow starts without a value
   * for it, and the StartStep finds none.
   */
  lemma {:induction false} ListedInputMayStayUnset(
    f: Flow, s: string, y: string, x: string, b: Property, a: Property, d: Property, context: set<string>)
    returns (built: Built)
    requires Chain(f, OtherStep, s, y, x, b, a) && a.default.Some?
    requires d.name == a.name && d.default.None? && d.name !in context && CanCast(d, a) && CanCast(d, b)
    ensures f.Valid() && !UnknownSteps(f) && !Misshapen(f) && !Disconnected(f)
    ensures Construct(Given(f, [], Some([d])), f, 3) == Some(Ok(built)) && !DefinitelyAssigned(built, context)
  {
    ChainIsValid(f, OtherStep, s, y, x, b, a);
    var res := ChainResolves(f, OtherStep, s, y, x, b, a);
    forall n, k | n in res.inputs.names && k in Listed(res.inputs.keys, n)
      ensures KeyFits(WithStart(f, [d]), [d], n, k)
    {
      MissingKeys(f, res, n, k);
      ChainInputs(f, s, y, x, b, a, k.step, n);
      EitherFits(f, y, x, b, a, d, k.step);
    }
    RemapAllExactly(WithStart(f, [d]), [d], res.inputs.names, res.inputs.keys);
    built := ListedConstructs(f, d, res);
    ListedIsUnset(f, d, context, built);
  }

  lemma {:induction false} ListedIsUnset(f: Flow, d: Property, context: set<string>, built: Built)
    requires f.Valid() && !UnknownSteps(f) && !Misshapen(f) && !f.steps[f.begin].kind.StartStep? && f.data == []
    requires Construct(Given(f, [], Some([d])), f, 3) == Some(Ok(built))
    requires d.default.None? && d.name !in context && !LastNeeds(f, 3, d.name)
    ensures !DefinitelyAssigned(built, context)
  {
    assert StartMisses(f, [d], context, 0);
    WithSynthesisedStartStep(Given(f, [], Some([d])), f, 3, built, context);
  }

  lemma {:induction false} StepsDoNotCollide(es: seq<DataEdge>)
    requires FromStartOnly(es)
    ensures !Collides([] + es)
  {
  }

  lemma {:induction false} ListedExposes(d: Property, found: map<string, Property>)
    requires found.Keys == {d.name}
    ensures Exposed(Some([d]), found).Ok? && Distinct([d])
  {
    assert Names([d], d.name) by { NamedUnique([d], 0); }
  }

  lemma {:induction false} ListedConstructs(f: Flow, d: Property, res: Resolution) returns (built: Built)
    requires f.Valid() && !f.steps[f.begin].kind.StartStep? && Resolved(f, 3, res) && f.data == []
    requires RemapAll(WithStart(f, [d]), [d], res.inputs.names, res.inputs.keys).Ok?
    requires res.inputs.resolved.Keys == {d.name}
    ensures Construct(Given(f, [], Some([d])), f, 3) == Some(Ok(built))
  {
    var r := RemapAll(WithStart(f, [d]), [d], res.inputs.names, res.inputs.keys).value;
    ResolvedListed(f, 3, res);
    ListedExposes(d, res.flowInputs);
    RemapAllCovers(WithStart(f, [d]), [d], res.inputs.names, res.inputs.keys);
    StepsDoNotCollide(r.edges);
    var inputs := Exposed(Some([d]), res.flowInputs).value;
    built := Built(WithStart(f, [d]).(data := f.data + r.edges), res, ContextNames([], f.data), r.keys, inputs);
  }
}
