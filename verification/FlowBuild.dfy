/** The flow constructor around the resolver: the synthesised StartStep and the data edges it feeds. */
module FlowBuild {
  import opened Wrappers
  import opened Properties
  import opened Flows
  import opened FlowResolver
  import opened FlowTraversal
  import opened FlowEdges

  const START_NAME := "__StartStep__"

  /** The constructor's arguments; no data edges asks for the implicit ones, no inputs for the resolved ones. */
  datatype Given = Given(flow: Flow, providers: seq<Provider>, inputs: Option<seq<Property>>)

  /**
   * The finished flow, what the resolver found, and the names context providers answer for. A value passed for an
   * input of `inputs` is stored under the step inputs that `keys` lists for it before the flow starts.
   */
  datatype Built = Built(
    flow: Flow, resolution: Resolution, contextNames: set<string>,
    keys: map<string, seq<IoKey>>, inputs: map<string, Property>)

  // ---- Checks on the shape of the flow ----

  predicate UnknownSteps(f: Flow) {
    exists i | 0 <= i < |f.control| ::
      f.control[i].source !in f.steps || (f.control[i].dest.Some? && f.control[i].dest.value !in f.steps)
  }

  /** No control edge, a CompleteStep to begin with, a StartStep elsewhere or entered again, the reserved name taken. */
  predicate Misshapen(f: Flow)
    requires f.Valid()
  {
    || f.control == []
    || f.steps[f.begin].kind.CompleteStep?
    || (exists n | n in f.steps :: n != f.begin && f.steps[n].kind.StartStep?)
    || (!f.steps[f.begin].kind.StartStep? && START_NAME in f.steps)
    || (exists i | 0 <= i < |f.control| ::
          f.control[i].dest.Some? && f.control[i].dest.value in f.steps
          && f.steps[f.control[i].dest.value].kind.StartStep?)
  }

  /** A step that no control edge leads to or leaves, but for the begin step and CompleteSteps. */
  predicate Disconnected(f: Flow) {
    exists n | n in f.steps :: IsLoose(f, n)
  }

  predicate IsLoose(f: Flow, n: string)
    requires n in f.steps
  {
    || (n != f.begin && forall i | 0 <= i < |f.control| :: f.control[i].dest != Some(n))
    || (!f.steps[n].kind.CompleteStep? && forall i | 0 <= i < |f.control| :: f.control[i].source != n)
  }

  /** Two outputs of the given providers bear one name. */
  predicate ProvidersClash(ps: seq<Provider>) {
    || (exists i | 0 <= i < |ps| :: !Distinct(ps[i].outputs))
    || (exists i, j | 0 <= i < j < |ps| :: NameSet(ps[i].outputs) * NameSet(ps[j].outputs) != {})
  }

  /** What is refused before the data edges are looked at. */
  predicate Refused(g: Given)
    requires g.flow.Valid()
  {
    UnknownSteps(g.flow) || Misshapen(g.flow) || Disconnected(g.flow) || ProvidersClash(g.providers)
  }

  /** Some control edge leads to n, and some leaves it. */
  method FindEdges(f: Flow, n: string) returns (entered: bool, left: bool)
    ensures entered <==> exists i | 0 <= i < |f.control| :: f.control[i].dest == Some(n)
    ensures left <==> exists i | 0 <= i < |f.control| :: f.control[i].source == n
  {
    entered, left := false, false;
    for i := 0 to |f.control|
      invariant entered <==> exists j | 0 <= j < i :: f.control[j].dest == Some(n)
      invariant left <==> exists j | 0 <= j < i :: f.control[j].source == n
    {
      entered := entered || f.control[i].dest == Some(n);
      left := left || f.control[i].source == n;
    }
  }

  /** The loops over the steps: a second StartStep, and steps without the control edges they need. */
  method CheckSteps(f: Flow) returns (extraStart: bool, loose: bool)
    requires f.Valid()
    ensures extraStart <==> exists n | n in f.steps :: n != f.begin && f.steps[n].kind.StartStep?
    ensures loose <==> Disconnected(f)
  {
    extraStart, loose := false, false;
    for i := 0 to |f.order|
      invariant extraStart <==> exists j | 0 <= j < i :: f.order[j] != f.begin && f.steps[f.order[j]].kind.StartStep?
      invariant loose <==> exists j | 0 <= j < i :: IsLoose(f, f.order[j])
    {
      var n := f.order[i];
      var entered, left := FindEdges(f, n);
      extraStart := extraStart || (n != f.begin && f.steps[n].kind.StartStep?);
      loose := loose || (n != f.begin && !entered) || (!f.steps[n].kind.CompleteStep? && !left);
      assert IsLoose(f, n) <==> (n != f.begin && !entered) || (!f.steps[n].kind.CompleteStep? && !left);
    }
    forall n | n in f.steps ensures exists j :: 0 <= j < |f.order| && f.order[j] == n {
      assert n in f.order;
    }
  }

  /** The loops over the control edges: unknown ends, and a StartStep as destination. */
  method CheckControl(f: Flow) returns (unknown: bool, reentered: bool)
    ensures unknown <==> UnknownSteps(f)
    ensures reentered <==> exists i | 0 <= i < |f.control| ::
              f.control[i].dest.Some? && f.control[i].dest.value in f.steps
              && f.steps[f.control[i].dest.value].kind.StartStep?
  {
    unknown, reentered := false, false;
    for i := 0 to |f.control|
      invariant unknown <==> exists j | 0 <= j < i ::
                  f.control[j].source !in f.steps || (f.control[j].dest.Some? && f.control[j].dest.value !in f.steps)
      invariant reentered <==> exists j | 0 <= j < i ::
                  f.control[j].dest.Some? && f.control[j].dest.value in f.steps
                  && f.steps[f.control[j].dest.value].kind.StartStep?
    {
      var e := f.control[i];
      if e.source !in f.steps {
        unknown := true;
      }
      if e.dest.Some? {
        if e.dest.value !in f.steps {
          unknown := true;
        } else if f.steps[e.dest.value].kind.StartStep? {
          reentered := true;
        }
      }
    }
  }

  /** `_validate_list_of_context_providers_has_unique_output_descriptor_names` */
  method CheckProviders(ps: seq<Provider>) returns (clash: bool)
    ensures clash <==> ProvidersClash(ps)
  {
    var seen: set<string> := {};
    for i := 0 to |ps|
      invariant seen == AllNames(ps[..i]) && !ProvidersClash(ps[..i])
    {
      var outs := ps[i].outputs;
      ghost var before := seen;
      for j := 0 to |outs|
        invariant seen == before + NameSet(outs[..j])
        invariant Distinct(outs[..j]) && NameSet(outs[..j]) * before == {}
      {
        NameSetGrows(outs, j);
        if outs[j].name in seen {
          RepeatedName(ps, i, j, before);
          return true;
        }
        DistinctGrows(outs, j);
        seen := seen + {outs[j].name};
      }
      assert outs[..|outs|] == outs;
      OneMoreProvider(ps, i, before);
    }
    assert ps[..|ps|] == ps;
    return false;
  }

  function AllNames(ps: seq<Provider>): set<string> {
    set i, n | 0 <= i < |ps| && n in NameSet(ps[i].outputs) :: n
  }

  lemma {:induction false} DistinctGrows(ps: seq<Property>, j: nat)
    requires j < |ps| && Distinct(ps[..j]) && ps[j].name !in NameSet(ps[..j])
    ensures Distinct(ps[..j + 1])
  {
    forall i | 0 <= i < j ensures ps[i].name != ps[j].name {
      assert ps[..j][i] == ps[i];
      assert Names(ps[..j], ps[i].name);
    }
    assert forall i | 0 <= i < j :: ps[..j][i] == ps[i];
  }

  lemma {:induction false} RepeatedName(ps: seq<Provider>, i: nat, j: nat, before: set<string>)
    requires i < |ps| && j < |ps[i].outputs| && before == AllNames(ps[..i])
    requires ps[i].outputs[j].name in before + NameSet(ps[i].outputs[..j])
    ensures ProvidersClash(ps)
  {
    var outs := ps[i].outputs;
    var n := outs[j].name;
    assert n in NameSet(outs);
    if n in before {
      var k :| 0 <= k < i && n in NameSet(ps[..i][k].outputs);
      assert n in NameSet(ps[k].outputs) * NameSet(outs);
    } else {
      var k :| 0 <= k < j && outs[..j][k].name == n;
      assert outs[k].name == outs[j].name && !Distinct(ps[i].outputs);
    }
  }

  lemma {:induction false} OneMoreProvider(ps: seq<Provider>, i: nat, before: set<string>)
    requires i < |ps| && before == AllNames(ps[..i]) && !ProvidersClash(ps[..i])
    requires Distinct(ps[i].outputs) && NameSet(ps[i].outputs) * before == {}
    ensures AllNames(ps[..i + 1]) == before + NameSet(ps[i].outputs) && !ProvidersClash(ps[..i + 1])
  {
    var some, more := ps[..i], ps[..i + 1];
    assert forall k | 0 <= k < i :: more[k] == some[k];
    forall k | 0 <= k < i ensures NameSet(more[k].outputs) * NameSet(more[i].outputs) == {} {
      assert NameSet(some[k].outputs) <= before;
    }
    forall n ensures n in AllNames(more) <==> n in before || n in NameSet(ps[i].outputs) {
      if n in NameSet(ps[i].outputs) {
        assert n in NameSet(more[i].outputs);
      }
      if n in before {
        var k :| 0 <= k < i && n in NameSet(some[k].outputs);
        assert n in NameSet(more[k].outputs);
      }
    }
  }

  // ---- The synthesised StartStep ----

  /** Names of all context provider outputs; providers found on data edges join the given ones. */
  function ContextNames(providers: seq<Provider>, data: seq<DataEdge>): set<string> {
    (set i, n | 0 <= i < |providers| && n in NameSet(providers[i].outputs) :: n)
    + (set i, n | 0 <= i < |data| && data[i].source.FromContext? && n in NameSet(data[i].source.provider.outputs) :: n)
  }

  /** `copy(name=...)`, which drops the enumeration. */
  function CopyAs(p: Property, n: string): Property {
    p.(name := n, enum := None)
  }

  function Copies(names: seq<string>, resolved: map<string, Property>, context: set<string>): (r: seq<Property>)
    ensures forall n :: Names(r, n) <==> n in names && n in resolved && n !in context
  {
    if names == [] then []
    else
      var k := |names| - 1;
      var before := Copies(names[..k], resolved, context);
      var n := names[k];
      if n in resolved && n !in context then
        var r := before + [CopyAs(resolved[n], n)];
        assert forall m :: Names(r, m) <==> Names(before, m) || m == n by {
          assert r[|before|].name == n;
          assert forall i | 0 <= i < |before| :: r[i] == before[i];
        }
        r
      else before
  }

  /** Some later input of the same name was described differently. */
  predicate Conflicts(conflicts: map<string, seq<Property>>, d: Property) {
    d.name in conflicts && exists i | 0 <= i < |conflicts[d.name]| :: conflicts[d.name][i] != d
  }

  function StartDescriptors(given: Option<seq<Property>>, found: Inputs, context: set<string>):
    Result<seq<Property>, FlowError>
  {
    if given.Some? then Ok(given.value)
    else
      var ds := Copies(found.names, found.resolved, context);
      if exists i | 0 <= i < |ds| :: Conflicts(found.conflicts, ds[i]) then Raise(ConflictingInputs) else Ok(ds)
  }

  /** The flow with its new begin step; the outputs of a StartStep are its inputs. */
  function WithStart(f: Flow, ds: seq<Property>): Flow {
    f.(begin := START_NAME, order := f.order + [START_NAME],
       steps := f.steps[START_NAME := Step(StartStep, ds, ds)],
       control := f.control + [ControlEdge(START_NAME, Some(f.begin))])
  }

  // ---- Remapping the missing inputs to the StartStep ----

  function InputsOf(f: Flow, v: string): seq<Property> {
    if v in f.steps then f.steps[v].inputs else []
  }

  /** The data edges from the StartStep, and its own inputs that a passed value goes to instead. */
  datatype Remap = Remap(edges: seq<DataEdge>, keys: seq<IoKey>)

  datatype RemapTable = RemapTable(edges: seq<DataEdge>, keys: map<string, seq<IoKey>>)

  /** One missing input: fed from the StartStep, or left to its default, or an error. */
  function RemapKey(f: Flow, starts: seq<Property>, name: string, k: IoKey): Result<Remap, FlowError> {
    var ins := InputsOf(f, k.step);
    if !Names(starts, name) then
      if Names(ins, k.input) && Named(ins, k.input).default.None? then Raise(MissingDefault) else Ok(Remap([], []))
    else
      var e := DataEdge(FromStep(START_NAME), name, k.step, k.input);
      if EdgeFits(starts, ins, e) then Ok(Remap([e], [IoKey(START_NAME, name)])) else Raise(IncompatibleEdge)
  }

  function RemapKeys(f: Flow, starts: seq<Property>, name: string, ks: seq<IoKey>): Result<Remap, FlowError> {
    if ks == [] then Ok(Remap([], []))
    else
      var n := |ks| - 1;
      var before :- RemapKeys(f, starts, name, ks[..n]);
      var more :- RemapKey(f, starts, name, ks[n]);
      Ok(Remap(before.edges + more.edges, before.keys + more.keys))
  }

  function RemapAll(f: Flow, starts: seq<Property>, names: seq<string>, keys: map<string, seq<IoKey>>):
    Result<RemapTable, FlowError>
  {
    if names == [] then Ok(RemapTable([], map[]))
    else
      var n := |names| - 1;
      var before :- RemapAll(f, starts, names[..n], keys);
      var more :- RemapKeys(f, starts, names[n], Listed(keys, names[n]));
      Ok(RemapTable(before.edges + more.edges, before.keys[names[n] := more.keys]))
  }

  method RemapInput(f: Flow, starts: seq<Property>, name: string, ks: seq<IoKey>)
    returns (r: Result<Remap, FlowError>)
    ensures r == RemapKeys(f, starts, name, ks)
  {
    var edges: seq<DataEdge>, remapped: seq<IoKey> := [], [];
    for i := 0 to |ks|
      invariant RemapKeys(f, starts, name, ks[..i]) == Ok(Remap(edges, remapped))
    {
      assert ks[..i + 1][..i] == ks[..i];
      var more := RemapKey(f, starts, name, ks[i]);
      if more.Raise? {
        RemapKeysRaises(f, starts, name, ks, i + 1);
        return Raise(more.error);
      }
      edges, remapped := edges + more.value.edges, remapped + more.value.keys;
    }
    assert ks[..|ks|] == ks;
    return Ok(Remap(edges, remapped));
  }

  lemma {:induction false} RemapKeysRaises(f: Flow, starts: seq<Property>, name: string, ks: seq<IoKey>, n: nat)
    requires n <= |ks| && RemapKeys(f, starts, name, ks[..n]).Raise?
    ensures RemapKeys(f, starts, name, ks) == RemapKeys(f, starts, name, ks[..n])
    decreases |ks| - n
  {
    if n == |ks| {
      assert ks[..n] == ks;
    } else {
      assert ks[..n + 1][..n] == ks[..n];
      RemapKeysRaises(f, starts, name, ks, n + 1);
    }
  }

  /**
   * `_remap_input_to_io_value_keys_with_startstep`: the new data edges in the order of the inputs found, and the keys
   * that now stand for each input.
   */
  method RemapToStart(f: Flow, starts: seq<Property>, names: seq<string>, keys: map<string, seq<IoKey>>)
    returns (r: Result<RemapTable, FlowError>)
    ensures r == RemapAll(f, starts, names, keys)
  {
    var edges: seq<DataEdge>, remapped: map<string, seq<IoKey>> := [], map[];
    for i := 0 to |names|
      invariant RemapAll(f, starts, names[..i], keys) == Ok(RemapTable(edges, remapped))
    {
      assert names[..i + 1][..i] == names[..i];
      var more := RemapInput(f, starts, names[i], Listed(keys, names[i]));
      if more.Raise? {
        RemapAllRaises(f, starts, names, keys, i + 1);
        return Raise(more.error);
      }
      edges, remapped := edges + more.value.edges, remapped[names[i] := more.value.keys];
    }
    assert names[..|names|] == names;
    return Ok(RemapTable(edges, remapped));
  }

  lemma {:induction false} RemapAllRaises(
    f: Flow, starts: seq<Property>, names: seq<string>, keys: map<string, seq<IoKey>>, n: nat)
    requires n <= |names| && RemapAll(f, starts, names[..n], keys).Raise?
    ensures RemapAll(f, starts, names, keys) == RemapAll(f, starts, names[..n], keys)
    decreases |names| - n
  {
    if n == |names| {
      assert names[..n] == names;
    } else {
      assert names[..n + 1][..n] == names[..n];
      RemapAllRaises(f, starts, names, keys, n + 1);
    }
  }

  // ---- The inputs the finished flow exposes ----

  /**
   * `_resolve_input_descriptors` and the filter after it: of the inputs found, those the caller lists and those
   * without default; each keeps the descriptor the resolver stored for it. Listing any other name raises.
   */
  function Exposed(given: Option<seq<Property>>, found: map<string, Property>):
    Result<map<string, Property>, FlowError>
  {
    if given.None? then Ok(found)
    else if !Distinct(given.value) then Raise(DuplicateInputs)
    else
      var kept := map n | n in found && (Names(given.value, n) || found[n].default.None?) :: found[n];
      if exists i | 0 <= i < |given.value| :: given.value[i].name !in kept then Raise(UnknownInput) else Ok(kept)
  }

  // ---- Collisions ----

  predicate SameTarget(d: DataEdge, e: DataEdge) {
    d.dest == e.dest && d.input == e.input
  }

  /** Two data edges from providers, or one from a provider and one from a step, end at the same step input. */
  predicate Collides(es: seq<DataEdge>) {
    exists i, j | 0 <= i < |es| && 0 <= j < |es| && i != j ::
      es[i].source.FromContext? && SameTarget(es[i], es[j])
  }

  /** The only data edge that ends at this input. */
  predicate OnlyEdge(es: seq<DataEdge>, i: nat, v: string, input: string) {
    i < |es| && forall j | 0 <= j < |es| :: es[j].dest == v && es[j].input == input <==> j == i
  }

  /** Without collisions, an input a provider feeds is fed by nothing else: no second provider, and no step. */
  lemma {:induction false} NoCollisionMeans(f: Flow, v: string, input: string)
    requires !Collides(f.data) && f.HasContext(v, input)
    ensures exists i: nat :: OnlyEdge(f.data, i, v, input) && f.data[i].source.FromContext?
    ensures forall u :: !Feeds(f, u, v, input)
  {
    var i: nat :| i < |f.data| && f.data[i].source.FromContext? && f.data[i].dest == v && f.data[i].input == input;
    forall j | 0 <= j < |f.data| ensures f.data[j].dest == v && f.data[j].input == input <==> j == i {
      assert j != i ==> !SameTarget(f.data[i], f.data[j]);
    }
    assert OnlyEdge(f.data, i, v, input);
  }

  // ---- The constructor ----

  /** What follows the resolver when the flow came without a StartStep. */
  function AddStart(f: Flow, given: Option<seq<Property>>, context: set<string>, res: Resolution):
    Result<Built, FlowError>
  {
    var ds :- StartDescriptors(given, res.inputs, context);
    if !Distinct(ds) then Raise(DuplicateInputs)
    else
      var g := WithStart(f, ds);
      var r :- if ds == [] then Ok(RemapTable([], res.inputs.keys))
               else RemapAll(g, ds, res.inputs.names, res.inputs.keys);
      if Collides(f.data + r.edges) then Raise(ProviderCollision)
      else
        var inputs :- Exposed(given, res.flowInputs);
        Ok(Built(g.(data := f.data + r.edges), res, context, r.keys, inputs))
  }

  function WithoutAdding(f: Flow, given: Option<seq<Property>>, context: set<string>, res: Resolution):
    Result<Built, FlowError>
  {
    if Collides(f.data) then Raise(ProviderCollision)
    else
      var inputs :- Exposed(given, res.flowInputs);
      Ok(Built(f, res, context, res.inputs.keys, inputs))
  }

  /** The constructor once the data edges are settled; None while the resolver has not finished. */
  function Construct(g: Given, f: Flow, fuel: nat): Option<Result<Built, FlowError>>
    requires f.Valid()
  {
    match Outcome(f, fuel)
    case None => None
    case Some(Raise(e)) => Some(Raise(e))
    case Some(Ok(res)) =>
      var context := ContextNames(g.providers, f.data);
      Some(if f.steps[f.begin].kind.StartStep? then WithoutAdding(f, g.inputs, context, res)
           else AddStart(f, g.inputs, context, res))
  }

  /** The checks before the data edges, in the order of the constructor. */
  method CheckGiven(g: Given) returns (e: Option<FlowError>)
    requires g.flow.Valid()
    ensures e.Some? <==> Refused(g)
  {
    var begin := g.flow.steps[g.flow.begin].kind;
    var extraStart, loose := CheckSteps(g.flow);
    if begin.CompleteStep? || extraStart || (!begin.StartStep? && START_NAME in g.flow.steps) {
      return Some(BadStart);
    }
    if g.flow.control == [] {
      return Some(BadStart);
    }
    var unknown, reentered := CheckControl(g.flow);
    if unknown {
      return Some(UnknownStep);
    }
    if loose {
      return Some(LooseStep);
    }
    if reentered {
      return Some(BadStart);
    }
    var clash := CheckProviders(g.providers);
    return if clash then Some(DuplicateNames) else None;
  }

  /** `_check_step_outputs_and_context_provider_collisions` */
  method FindCollision(es: seq<DataEdge>) returns (found: bool)
    ensures found <==> Collides(es)
  {
    for i := 0 to |es|
      invariant forall k, j | 0 <= k < i && 0 <= j < |es| && k != j && es[k].source.FromContext? ::
                  !SameTarget(es[k], es[j])
    {
      for j := 0 to |es|
        invariant forall k | 0 <= k < j && i != k && es[i].source.FromContext? :: !SameTarget(es[i], es[k])
      {
        if i != j && es[i].source.FromContext? && es[i].dest == es[j].dest && es[i].input == es[j].input {
          assert SameTarget(es[i], es[j]);
          return true;
        }
      }
    }
    return false;
  }

  /** `Flow.__init__`, from the checks on the steps to the final data edges. */
  method BuildFlow(g: Given, fuel: nat) returns (r: Option<Result<Built, FlowError>>, data: seq<DataEdge>)
    requires g.flow.Valid()
    ensures Refused(g) ==> r.Some? && r.value.Raise?
    ensures g.flow.data != [] ==> data == g.flow.data
    ensures g.flow.data == [] && r != Some(Raise(IncompatibleEdge)) && !Refused(g) ==>
              forall e :: e in data <==> Matching(g.flow, g.providers, e)
    ensures !Refused(g) ==>
              || r == Construct(g, g.flow.(data := data), fuel)
              || (&& r == Some(Raise(IncompatibleEdge)) && g.flow.data == []
                  && exists e :: Matching(g.flow, g.providers, e) && !Fits(g.flow, e))
  {
    data := g.flow.data;
    var refusal := CheckGiven(g);
    if refusal.Some? {
      return Some(Raise(refusal.value)), data;
    }
    if data == [] {
      var inferred := CreateImplicitEdges(g.flow, g.providers);
      if inferred.Raise? {
        return Some(Raise(IncompatibleEdge)), data;
      }
      data := inferred.value;
    }
    var f := g.flow.(data := data);
    var found := ResolveInputsAndOutputs(f, fuel);
    if found.None? {
      return None, data;
    }
    if found.value.Raise? {
      return Some(Raise(found.value.error)), data;
    }
    var res := found.value.value;
    var context := ContextNames(g.providers, data);
    if f.steps[f.begin].kind.StartStep? {
      var collision := FindCollision(data);
      if collision {
        return Some(Raise(ProviderCollision)), data;
      }
      var own := Exposed(g.inputs, res.flowInputs);
      if own.Raise? {
        return Some(Raise(own.error)), data;
      }
      return Some(Ok(Built(f, res, context, res.inputs.keys, own.value))), data;
    }
    var ds := StartDescriptors(g.inputs, res.inputs, context);
    if ds.Raise? {
      return Some(Raise(ds.error)), data;
    }
    if !Distinct(ds.value) {
      return Some(Raise(DuplicateInputs)), data;
    }
    var flow := WithStart(f, ds.value);
    var edges: seq<DataEdge>, keys := [], res.inputs.keys;
    if ds.value != [] {
      var remapped := RemapToStart(flow, ds.value, res.inputs.names, res.inputs.keys);
      if remapped.Raise? {
        return Some(Raise(remapped.error)), data;
      }
      edges, keys := remapped.value.edges, remapped.value.keys;
    }
    var collision := FindCollision(f.data + edges);
    if collision {
      return Some(Raise(ProviderCollision)), data;
    }
    var inputs := Exposed(g.inputs, res.flowInputs);
    if inputs.Raise? {
      return Some(Raise(inputs.error)), data;
    }
    return Some(Ok(Built(flow.(data := f.data + edges), res, context, keys, inputs.value))), data;
  }
}
