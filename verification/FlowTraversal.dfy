/** The loops of the resolver, proved against the functions of FlowResolver. */
module FlowTraversal {
  import opened Wrappers
  import opened Properties
  import opened Casting
  import opened Flows
  import opened FlowResolver

  /** `_get_context_provider_or_none_for_step` */
  method FindContext(f: Flow, v: string, input: string) returns (found: bool)
    ensures found == f.HasContext(v, input)
  {
    for i := 0 to |f.data|
      invariant forall j | 0 <= j < i ::
                  !(f.data[j].source.FromContext? && f.data[j].dest == v && f.data[j].input == input)
    {
      var e := f.data[i];
      if e.source.FromContext? && e.dest == v && e.input == input {
        return true;
      }
    }
    return false;
  }

  /** The names of the steps that the control edges leaving v lead to, in the order of the edges. */
  method FindNext(f: Flow, v: string) returns (next: seq<Option<string>>)
    ensures next == f.NextNames(v)
  {
    next := [];
    for i := 0 to |f.control|
      invariant next == f.TargetsOf(f.control[..i], v)
    {
      var e := f.control[i];
      assert f.control[..i + 1][..i] == f.control[..i];
      if e.source == v {
        next := next + [if e.dest.Some? && e.dest.value in f.steps then e.dest else None];
      }
    }
    assert f.control[..|f.control|] == f.control;
  }

  /** The inputs of one visited step that have not been produced yet. */
  method ResolveStepInputs(f: Flow, v: string, keys: set<IoKey>, inputs: Inputs)
    returns (r: Result<Inputs, FlowError>)
    requires v in f.steps
    ensures r == AddInputs(f, v, keys, inputs, f.steps[v].inputs)
  {
    var ps := f.steps[v].inputs;
    var acc := inputs;
    for i := 0 to |ps|
      invariant AddInputs(f, v, keys, inputs, ps[..i]) == Ok(acc)
    {
      assert ps[..i + 1][..i] == ps[..i];
      var p := ps[i];
      var fromProvider := FindContext(f, v, p.name);
      if !fromProvider && IoKey(v, p.name) !in keys {
        var names, conflicts := acc.names, acc.conflicts;
        if p.name in acc.resolved {
          if f.data == [] && !CanCast(acc.resolved[p.name], p) {
            AddInputsRaises(f, v, keys, inputs, ps, i + 1);
            return Raise(IncompatibleInputs);
          }
          conflicts := conflicts[p.name := (if p.name in conflicts then conflicts[p.name] else []) + [p]];
        } else {
          names := names + [p.name];
        }
        acc := Inputs(names, acc.resolved[p.name := p],
                      acc.keys[p.name := Listed(acc.keys, p.name) + [IoKey(v, p.name)]], conflicts);
      }
    }
    assert ps[..|ps|] == ps;
    return Ok(acc);
  }

  lemma {:induction false} AddInputsRaises(
    f: Flow, v: string, keys: set<IoKey>, inputs: Inputs, ps: seq<Property>, n: nat)
    requires n <= |ps| && AddInputs(f, v, keys, inputs, ps[..n]).Raise?
    ensures AddInputs(f, v, keys, inputs, ps) == AddInputs(f, v, keys, inputs, ps[..n])
    decreases |ps| - n
  {
    if n == |ps| {
      assert ps[..n] == ps;
    } else {
      assert ps[..n + 1][..n] == ps[..n];
      AddInputsRaises(f, v, keys, inputs, ps, n + 1);
    }
  }

  /** The destinations the visited step feeds; every data edge is checked on the way. */
  method ResolveStepEdges(f: Flow, v: string, keys: set<IoKey>) returns (r: Result<set<IoKey>, FlowError>)
    ensures r == AddFed(f, v, keys, f.data)
  {
    var produced := keys;
    for i := 0 to |f.data|
      invariant AddFed(f, v, keys, f.data[..i]) == Ok(produced)
    {
      var e := f.data[i];
      assert f.data[..i + 1][..i] == f.data[..i];
      if e.source == FromStep(v) {
        if e.dest !in f.steps {
          AddFedRaises(f, v, keys, f.data, i + 1);
          return Raise(DanglingDestination);
        }
        produced := produced + {IoKey(e.dest, e.input)};
      }
      if e.source.FromStep? && e.source.step !in f.steps {
        AddFedRaises(f, v, keys, f.data, i + 1);
        return Raise(DanglingSource);
      }
    }
    assert f.data[..|f.data|] == f.data;
    return Ok(produced);
  }

  lemma {:induction false} AddFedRaises(f: Flow, v: string, keys: set<IoKey>, es: seq<DataEdge>, n: nat)
    requires n <= |es| && AddFed(f, v, keys, es[..n]).Raise?
    ensures AddFed(f, v, keys, es) == AddFed(f, v, keys, es[..n])
    decreases |es| - n
  {
    if n == |es| {
      assert es[..n] == es;
    } else {
      assert es[..n + 1][..n] == es[..n];
      AddFedRaises(f, v, keys, es, n + 1);
    }
  }

  /** The outputs of the visited step join the mapped names, and stop being names only the StartStep declares. */
  method ResolveStepOutputs(f: Flow, v: string, mapped: map<string, Property>, startOnly: set<string>)
    returns (r: map<string, Property>, only: set<string>)
    requires v in f.steps
    ensures r == AddOutputs(mapped, f.steps[v].outputs)
    ensures only == if f.steps[v].kind.StartStep? then startOnly else startOnly - NameSet(f.steps[v].outputs)
  {
    var ps := f.steps[v].outputs;
    r, only := mapped, startOnly;
    for i := 0 to |ps|
      invariant r == AddOutputs(mapped, ps[..i])
      invariant only == if f.steps[v].kind.StartStep? then startOnly else startOnly - NameSet(ps[..i])
    {
      assert ps[..i + 1][..i] == ps[..i];
      r := r[ps[i].name := ps[i]];
      if !f.steps[v].kind.StartStep? && ps[i].name in only {
        only := only - {ps[i].name};
      }
      NameSetGrows(ps, i);
    }
    assert ps[..|ps|] == ps;
  }

  lemma {:induction false} NameSetGrows(ps: seq<Property>, i: nat)
    requires i < |ps|
    ensures NameSet(ps[..i + 1]) == NameSet(ps[..i]) + {ps[i].name}
  {
    var a, b := ps[..i], ps[..i + 1];
    forall n ensures Names(b, n) <==> Names(a, n) || n == ps[i].name {
      assert b[i] == ps[i];
      assert forall j | 0 <= j < i :: a[j] == b[j];
    }
  }

  /** The body of the loop, from the recording of the visited step to the extension of the queue. */
  method VisitStep(f: Flow, s: Resolver, v: string, c: Carried) returns (r: Result<Resolver, FlowError>)
    requires v in f.steps
    ensures r == Visit(f, s, v, c)
  {
    var inputs := ResolveStepInputs(f, v, c.keys, s.inputs);
    if inputs.Raise? {
      return Raise(inputs.error);
    }
    var keys := ResolveStepEdges(f, v, c.keys);
    if keys.Raise? {
      return Raise(keys.error);
    }
    var mapped, startOnly := ResolveStepOutputs(f, v, c.mapped, s.exits.startOnly);
    var out := Carried(keys.value, mapped);
    var exits := s.exits.(startOnly := startOnly);
    var next := FindNext(f, v);
    if next == [] || None in next {
      exits := exits.(at := exits.at[v := mapped], first := if exits.first.None? then Some(v) else exits.first);
    }
    return Ok(Resolver(
      s.queue + Arrivals(Known(next), out), s.visited[v := out], inputs.value, exits));
  }

  predicate Busy(s: Resolver) {
    s.queue != []
  }

  /** What `next` does to a busy resolver is one iteration of the loop. */
  ghost predicate Performs(f: Flow, next: Iteration) {
    forall s {:trigger Busy(s)} | Busy(s) :: next(s) == Advanced(f)(s)
  }

  /** One iteration: pop, skip what adds nothing, or intersect and visit. */
  method Advance(f: Flow, s: Resolver, ghost next: Iteration) returns (r: Result<Resolver, FlowError>)
    requires s.queue != [] && Performs(f, next)
    ensures r == next(s)
  {
    assert Busy(s);
    var a := s.queue[|s.queue| - 1];
    if a.step !in f.steps {
      return Raise(UnknownStep);
    }
    var rest := s.(queue := s.queue[..|s.queue| - 1]);
    var c := a.carried;
    if a.step in s.visited {
      if Arrives(s.visited[a.step], a.carried) {
        return Ok(rest);
      }
      c := Meet(s.visited[a.step], a.carried);
    }
    r := VisitStep(f, rest, a.step, c);
  }

  /** What `fuel` iterations of the loop lead to: nothing yet, an exception, or the results. */
  function Outcome(f: Flow, fuel: nat): Option<Result<Resolution, FlowError>>
    requires f.Valid()
  {
    OutcomeOf(f, Traverse(f, Start(f), fuel))
  }

  function OutcomeOf(f: Flow, t: Result<Resolver, FlowError>): Option<Result<Resolution, FlowError>>
    requires f.Valid()
  {
    match t
    case Raise(e) => Some(Raise(e))
    case Ok(s) => if s.queue != [] then None else Some(Finish(f, s))
  }

  /** The loop itself, stopped after `fuel` iterations when the worklist has not emptied. */
  method RunWorklist(f: Flow, start: Resolver, fuel: nat, ghost next: Iteration)
    returns (r: Result<Resolver, FlowError>)
    requires Performs(f, next)
    ensures r == Loop(next, start, fuel)
  {
    var s := start;
    var left := fuel;
    while s.queue != [] && left > 0
      invariant Loop(next, s, left) == Loop(next, start, fuel)
      decreases left
    {
      var t := Advance(f, s, next);
      if t.Raise? {
        return Raise(t.error);
      }
      s, left := t.value, left - 1;
    }
    return Ok(s);
  }

  /** `_resolve_inputs_and_outputs` */
  method ResolveInputsAndOutputs(f: Flow, fuel: nat) returns (r: Option<Result<Resolution, FlowError>>)
    requires f.Valid()
    ensures r == Outcome(f, fuel)
  {
    var t := RunWorklist(f, Start(f), fuel, Advanced(f));
    return OutcomeOf(f, t);
  }
}
