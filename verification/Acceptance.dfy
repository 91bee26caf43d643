/** Which flows the constructor accepts, and what the StartStep it adds then holds. */
module Acceptance {
  import opened Wrappers
  import opened Properties
  import opened Casting
  import opened Flows
  import opened FlowResolver
  import opened VisitOrder
  import opened FlowTraversal
  import opened FlowBuild
  import opened DefiniteAssignment

  // ---- What is missing, and who answers for it ----

  /** Some control path reaches the step before anything has fed this input, and no provider feeds it. */
  ghost predicate MissingAt(f: Flow, v: string, n: string) {
    f.IsInput(v, n) && !f.HasContext(v, n) && MayBeUnfed(f, v, n)
  }

  /** A provider, given or found on a data edge, has an output of this name. */
  ghost predicate Answers(g: Given, f: Flow, n: string) {
    || (exists i | 0 <= i < |g.providers| :: Names(g.providers[i].outputs, n))
    || (exists i | 0 <= i < |f.data| :: f.data[i].source.FromContext? && Names(f.data[i].source.provider.outputs, n))
  }

  lemma {:induction false} ContextIsAnswered(g: Given, f: Flow, n: string)
    ensures n in ContextNames(g.providers, f.data) <==> Answers(g, f, n)
  {
    if i :| 0 <= i < |g.providers| && Names(g.providers[i].outputs, n) {
      assert n in NameSet(g.providers[i].outputs);
    }
    if i :| 0 <= i < |f.data| && f.data[i].source.FromContext? && Names(f.data[i].source.provider.outputs, n) {
      assert n in NameSet(f.data[i].source.provider.outputs);
    }
  }

  lemma {:induction false} KeptIsStored(f: Flow, fuel: nat, res: Resolution, n: string)
    requires f.Valid() && Resolved(f, fuel, res)
    ensures n in res.inputs.resolved <==> Kept(f, fuel, n).Some?
    ensures n in res.inputs.resolved ==>
              Kept(f, fuel, n) == Some(res.inputs.resolved[n]) && res.inputs.resolved[n].name == n
  {
    LastMissDecides(f, fuel, Traverse(f, Start(f), fuel).value, n);
    ResolvedListed(f, fuel, res);
    if n in res.inputs.resolved {
      assert InputListed(f, res.inputs, n);
    }
  }

  // ---- Remapping: when it succeeds, and what it adds ----

  predicate KeyFits(f: Flow, starts: seq<Property>, name: string, k: IoKey) {
    RemapKey(f, starts, name, k).Ok?
  }

  lemma {:induction false} RemapKeysExactly(f: Flow, starts: seq<Property>, name: string, ks: seq<IoKey>)
    ensures RemapKeys(f, starts, name, ks).Ok? <==> forall k | k in ks :: KeyFits(f, starts, name, k)
    decreases |ks|
  {
    if ks != [] {
      var n := |ks| - 1;
      RemapKeysExactly(f, starts, name, ks[..n]);
      assert ks[n] in ks && forall k :: k in ks <==> k in ks[..n] || k == ks[n];
      assert KeyFits(f, starts, name, ks[n]) <==> RemapKey(f, starts, name, ks[n]).Ok?;
    }
  }

  lemma {:induction false} RemapAllExactly(
    f: Flow, starts: seq<Property>, names: seq<string>, keys: map<string, seq<IoKey>>)
    ensures RemapAll(f, starts, names, keys).Ok? <==>
              forall n, k | n in names && k in Listed(keys, n) :: KeyFits(f, starts, n, k)
    decreases |names|
  {
    if names != [] {
      var n := |names| - 1;
      RemapAllExactly(f, starts, names[..n], keys);
      RemapKeysExactly(f, starts, names[n], Listed(keys, names[n]));
      assert names == names[..n] + [names[n]];
    }
  }

  /** The keys kept for a name are the missing inputs of that name. */
  lemma {:induction false} KeysAreMissing(f: Flow, fuel: nat, res: Resolution, n: string, k: IoKey)
    requires f.Valid() && Resolved(f, fuel, res)
    ensures n in res.inputs.names && k in Listed(res.inputs.keys, n) <==> k.input == n && MissingAt(f, k.step, n)
  {
    ResolvedListed(f, fuel, res);
    RequiredExact(f, fuel, res, k.step, n);
    if n in res.inputs.keys && k in res.inputs.keys[n] {
      assert k == IoKey(k.step, n) && Requires(res.inputs, k.step, n);
    }
  }

  /** The StartStep takes care of this input: by a value that can be cast, or by leaving it to its default. */
  ghost predicate TakenCareOf(f: Flow, starts: seq<Property>, v: string, n: string)
    requires f.IsInput(v, n)
  {
    if Names(starts, n) then CanCast(Named(starts, n), Named(f.steps[v].inputs, n))
    else Named(f.steps[v].inputs, n).default.Some?
  }

  lemma {:induction false} KeyFitsExactly(f: Flow, starts: seq<Property>, v: string, n: string)
    requires f.IsInput(v, n) && START_NAME !in f.steps
    ensures KeyFits(WithStart(f, starts), starts, n, IoKey(v, n)) <==> TakenCareOf(f, starts, v, n)
  {
    assert InputsOf(WithStart(f, starts), v) == f.steps[v].inputs;
  }

  lemma {:induction false} RemapExactly(f: Flow, fuel: nat, res: Resolution, starts: seq<Property>)
    requires f.Valid() && Resolved(f, fuel, res) && START_NAME !in f.steps
    ensures RemapAll(WithStart(f, starts), starts, res.inputs.names, res.inputs.keys).Ok? <==>
              forall v, n | MissingAt(f, v, n) :: TakenCareOf(f, starts, v, n)
  {
    var h := WithStart(f, starts);
    RemapAllExactly(h, starts, res.inputs.names, res.inputs.keys);
    forall v, n | MissingAt(f, v, n)
      ensures n in res.inputs.names && IoKey(v, n) in Listed(res.inputs.keys, n)
      ensures KeyFits(h, starts, n, IoKey(v, n)) <==> TakenCareOf(f, starts, v, n)
    {
      KeysAreMissing(f, fuel, res, n, IoKey(v, n));
      KeyFitsExactly(f, starts, v, n);
    }
    forall n, k | n in res.inputs.names && k in Listed(res.inputs.keys, n)
      ensures MissingAt(f, k.step, n) && k == IoKey(k.step, n)
    {
      KeysAreMissing(f, fuel, res, n, k);
    }
  }

  /** The edges the constructor adds: one from the StartStep to each missing input of a name it offers. */
  ghost predicate AddedEdges(f: Flow, starts: seq<Property>, edges: seq<DataEdge>) {
    forall e :: e in edges <==>
      starts != [] && e.output == e.input && e.source == FromStep(START_NAME)
      && MissingAt(f, e.dest, e.input) && Names(starts, e.input)
  }

  lemma {:induction false} RemapKeysEdges(f: Flow, starts: seq<Property>, name: string, ks: seq<IoKey>, e: DataEdge)
    requires RemapKeys(f, starts, name, ks).Ok?
    ensures e in RemapKeys(f, starts, name, ks).value.edges <==>
              && Names(starts, name) && IoKey(e.dest, e.input) in ks
              && e == DataEdge(FromStep(START_NAME), name, e.dest, e.input)
    decreases |ks|
  {
    if ks != [] {
      var n := |ks| - 1;
      RemapKeysEdges(f, starts, name, ks[..n], e);
      assert forall k :: k in ks <==> k in ks[..n] || k == ks[n];
      assert e in RemapKeys(f, starts, name, ks).value.edges <==>
          e in RemapKeys(f, starts, name, ks[..n]).value.edges || e in RemapKey(f, starts, name, ks[n]).value.edges;
    }
  }

  lemma {:induction false} RemapAllEdges(
    f: Flow, starts: seq<Property>, names: seq<string>, keys: map<string, seq<IoKey>>, e: DataEdge)
    requires RemapAll(f, starts, names, keys).Ok?
    ensures e in RemapAll(f, starts, names, keys).value.edges <==>
              && e.output in names && Names(starts, e.output) && IoKey(e.dest, e.input) in Listed(keys, e.output)
              && e.source == FromStep(START_NAME)
    decreases |names|
  {
    if names != [] {
      var n := |names| - 1;
      RemapAllEdges(f, starts, names[..n], keys, e);
      RemapKeysEdges(f, starts, names[n], Listed(keys, names[n]), e);
      assert forall m :: m in names <==> m in names[..n] || m == names[n];
    }
  }

  lemma {:induction false} RemapAdds(f: Flow, fuel: nat, res: Resolution, starts: seq<Property>)
    requires f.Valid() && Resolved(f, fuel, res) && starts != []
    requires RemapAll(WithStart(f, starts), starts, res.inputs.names, res.inputs.keys).Ok?
    ensures AddedEdges(f, starts, RemapAll(WithStart(f, starts), starts, res.inputs.names, res.inputs.keys).value.edges)
  {
    forall e
      ensures e in RemapAll(WithStart(f, starts), starts, res.inputs.names, res.inputs.keys).value.edges <==>
                && e.output == e.input && e.source == FromStep(START_NAME)
                && MissingAt(f, e.dest, e.input) && Names(starts, e.input)
    {
      RemapAllEdges(WithStart(f, starts), starts, res.inputs.names, res.inputs.keys, e);
      KeysAreMissing(f, fuel, res, e.output, IoKey(e.dest, e.input));
    }
  }

  // ---- The end of the constructor, for any descriptors of the StartStep ----

  ghost predicate Accepts(g: Given, f: Flow, fuel: nat)
    requires f.Valid()
  {
    Construct(g, f, fuel).Some? && Construct(g, f, fuel).value.Ok?
  }

  /** The resolver has come to results. */
  ghost predicate Resolves(f: Flow, fuel: nat)
    requires f.Valid()
  {
    Outcome(f, fuel).Some? && Outcome(f, fuel).value.Ok?
  }

  ghost predicate AllTakenCareOf(f: Flow, starts: seq<Property>) {
    starts != [] ==> forall v, n | MissingAt(f, v, n) :: TakenCareOf(f, starts, v, n)
  }

  lemma {:induction false} AddStartExactly(
    f: Flow, fuel: nat, given: Option<seq<Property>>, context: set<string>, res: Resolution)
    requires f.Valid() && Resolved(f, fuel, res) && START_NAME !in f.steps
    ensures var ds := StartDescriptors(given, res.inputs, context);
      AddStart(f, given, context, res).Ok? <==>
        ds.Ok? && Distinct(ds.value) && AllTakenCareOf(f, ds.value) && !Collides(f.data)
        && Exposed(given, res.flowInputs).Ok?
  {
    var ds := StartDescriptors(given, res.inputs, context);
    if ds.Ok? && Distinct(ds.value) {
      if ds.value == [] {
        assert f.data + [] == f.data;
      } else {
        RemapExactly(f, fuel, res, ds.value);
        if RemapAll(WithStart(f, ds.value), ds.value, res.inputs.names, res.inputs.keys).Ok? {
          RemapDoesNotCollide(f, fuel, res, ds.value);
        }
      }
    }
  }

  lemma {:induction false} ConstructIs(g: Given, f: Flow, fuel: nat, res: Resolution)
    requires f.Valid() && Resolved(f, fuel, res)
    ensures !f.steps[f.begin].kind.StartStep? ==>
              Construct(g, f, fuel) == Some(AddStart(f, g.inputs, ContextNames(g.providers, f.data), res))
    ensures f.steps[f.begin].kind.StartStep? ==>
              Construct(g, f, fuel) == Some(WithoutAdding(f, g.inputs, ContextNames(g.providers, f.data), res))
  {
  }

  lemma {:induction false} AcceptsNeedsResults(g: Given, f: Flow, fuel: nat)
    requires f.Valid() && Accepts(g, f, fuel)
    ensures Resolves(f, fuel)
  {
  }

  // ---- Detected inputs ----

  /** A missing name that no provider answers for. */
  ghost predicate Asked(g: Given, f: Flow, fuel: nat, n: string)
    requires f.Valid()
  {
    Kept(f, fuel, n).Some? && !Answers(g, f, n)
  }

  /** A descriptor without its enumeration. */
  function Bare(p: Property): Property {
    p.(enum := None)
  }

  /** All visits that miss the name, but for the first, have the descriptor of the last one, without an enumeration. */
  ghost predicate LaterAgree(f: Flow, fuel: nat, n: string)
    requires f.Valid()
  {
    var ms := MissesOf(f, Visits(f, fuel), n);
    forall k | 1 <= k < |ms| :: ms[k] == Bare(ms[|ms| - 1])
  }

  /** The StartStep has one descriptor for each name asked for: the last that missed it, without an enumeration. */
  ghost predicate AsksFor(g: Given, f: Flow, fuel: nat, ds: seq<Property>)
    requires f.Valid()
  {
    && Distinct(ds)
    && (forall n :: Names(ds, n) <==> Asked(g, f, fuel, n))
    && (forall n | Names(ds, n) :: Named(ds, n) == Bare(Kept(f, fuel, n).value))
  }

  lemma {:induction false} CopiesAre(names: seq<string>, resolved: map<string, Property>, context: set<string>)
    requires forall i, j | 0 <= i < j < |names| :: names[i] != names[j]
    requires forall n | n in resolved :: resolved[n].name == n
    ensures Distinct(Copies(names, resolved, context))
    ensures forall d | d in Copies(names, resolved, context) :: d.name in resolved && d == Bare(resolved[d.name])
    decreases |names|
  {
    if names != [] {
      var k := |names| - 1;
      CopiesAre(names[..k], resolved, context);
      var before := Copies(names[..k], resolved, context);
      forall i | 0 <= i < |before| ensures before[i].name != names[k] {
        assert Names(before, before[i].name);
        assert before[i].name in names[..k];
      }
    }
  }

  lemma {:induction false} DetectedAre(g: Given, f: Flow, fuel: nat, res: Resolution)
    requires f.Valid() && Resolved(f, fuel, res)
    ensures AsksFor(g, f, fuel, Copies(res.inputs.names, res.inputs.resolved, ContextNames(g.providers, f.data)))
  {
    var context := ContextNames(g.providers, f.data);
    var ds := Copies(res.inputs.names, res.inputs.resolved, context);
    ResolvedListed(f, fuel, res);
    forall n ensures n in res.inputs.resolved ==> res.inputs.resolved[n].name == n {
      KeptIsStored(f, fuel, res, n);
    }
    CopiesAre(res.inputs.names, res.inputs.resolved, context);
    forall n ensures Names(ds, n) <==> Asked(g, f, fuel, n) {
      KeptIsStored(f, fuel, res, n);
      ContextIsAnswered(g, f, n);
    }
    forall n | Names(ds, n) ensures Named(ds, n) == Bare(Kept(f, fuel, n).value) {
      KeptIsStored(f, fuel, res, n);
    }
  }

  /** The constructor's comparison finds no conflict iff all but the first miss agree with the last. */
  lemma {:induction false} ConflictsExactly(f: Flow, fuel: nat, res: Resolution, n: string)
    requires f.Valid() && Resolved(f, fuel, res) && Kept(f, fuel, n).Some?
    ensures Conflicts(res.inputs.conflicts, Bare(Kept(f, fuel, n).value)) <==> !LaterAgree(f, fuel, n)
  {
    var ms := MissesOf(f, Visits(f, fuel), n);
    var d := Bare(Kept(f, fuel, n).value);
    KeptIsStored(f, fuel, res, n);
    MissesNoted(f, fuel, Traverse(f, Start(f), fuel).value, n);
    LastOfMisses(f, Visits(f, fuel), n);
    if k :| 1 <= k < |ms| && ms[k] != d {
      assert res.inputs.conflicts[n][k - 1] == ms[k];
    }
  }

  lemma {:induction false} DetectedDescriptorsExactly(g: Given, f: Flow, fuel: nat, res: Resolution)
    requires f.Valid() && Resolved(f, fuel, res)
    ensures var r := StartDescriptors(None, res.inputs, ContextNames(g.providers, f.data));
      && (r.Ok? <==> forall n | Asked(g, f, fuel, n) :: LaterAgree(f, fuel, n))
      && (r.Ok? ==> AsksFor(g, f, fuel, r.value))
  {
    var context := ContextNames(g.providers, f.data);
    var ds := Copies(res.inputs.names, res.inputs.resolved, context);
    DetectedAre(g, f, fuel, res);
    forall n | Asked(g, f, fuel, n)
      ensures Named(ds, n) in ds && (Conflicts(res.inputs.conflicts, Named(ds, n)) <==> !LaterAgree(f, fuel, n))
    {
      assert Names(ds, n);
      ConflictsExactly(f, fuel, res, n);
    }
    forall i: nat | i < |ds| ensures Asked(g, f, fuel, ds[i].name) && Named(ds, ds[i].name) == ds[i] {
      NamedUnique(ds, i);
    }
  }

  /** A name missed twice is refused when its last descriptor has an enumeration. */
  lemma {:induction false} EnumeratedMissConflicts(g: Given, f: Flow, fuel: nat, n: string)
    requires f.Valid() && !f.steps[f.begin].kind.StartStep? && START_NAME !in f.steps && g.inputs.None?
    requires |MissesOf(f, Visits(f, fuel), n)| > 1 && !Answers(g, f, n)
    requires Kept(f, fuel, n).Some? && Kept(f, fuel, n).value.enum.Some?
    ensures !Accepts(g, f, fuel)
  {
    var ms := MissesOf(f, Visits(f, fuel), n);
    LastOfMisses(f, Visits(f, fuel), n);
    assert ms[|ms| - 1] != Bare(ms[|ms| - 1]);
    assert Asked(g, f, fuel, n) && !LaterAgree(f, fuel, n);
    DetectedAccepted(g, f, fuel);
  }

  /** Each missing input is cast from the detected descriptor of its name, or has a default if a provider answers. */
  ghost predicate DetectedFit(g: Given, f: Flow, fuel: nat)
    requires f.Valid()
  {
    (exists n :: Asked(g, f, fuel, n)) ==>
      forall v, n | MissingAt(f, v, n) ::
        var p := Named(f.steps[v].inputs, n);
        if Asked(g, f, fuel, n) then CanCast(Bare(Kept(f, fuel, n).value), p) else p.default.Some?
  }

  lemma {:induction false} DetectedFitExactly(g: Given, f: Flow, fuel: nat, ds: seq<Property>)
    requires f.Valid() && AsksFor(g, f, fuel, ds)
    ensures AllTakenCareOf(f, ds) <==> DetectedFit(g, f, fuel)
  {
    if ds == [] {
      forall n ensures !Asked(g, f, fuel, n) {
        assert !Names(ds, n);
      }
    } else {
      assert Names(ds, ds[0].name) && Asked(g, f, fuel, ds[0].name);
    }
  }

  /**
   * Without a list of inputs and without a StartStep, a flow is accepted iff the resolver comes to results, all misses
   * of a name after its first agree with the last, every missing input is taken care of, and no data edges collide.
   */
  lemma {:induction false} DetectedAccepted(g: Given, f: Flow, fuel: nat)
    requires f.Valid() && !f.steps[f.begin].kind.StartStep? && START_NAME !in f.steps && g.inputs.None?
    ensures Accepts(g, f, fuel) <==>
              && Resolves(f, fuel)
              && (forall n | Asked(g, f, fuel, n) :: LaterAgree(f, fuel, n))
              && DetectedFit(g, f, fuel)
              && !Collides(f.data)
  {
    if Resolves(f, fuel) {
      var res := Outcome(f, fuel).value.value;
      var ds := StartDescriptors(None, res.inputs, ContextNames(g.providers, f.data));
      ConstructIs(g, f, fuel, res);
      AddStartExactly(f, fuel, None, ContextNames(g.providers, f.data), res);
      DetectedDescriptorsExactly(g, f, fuel, res);
      if ds.Ok? {
        DetectedFitExactly(g, f, fuel, ds.value);
      }
    } else if Accepts(g, f, fuel) {
      AcceptsNeedsResults(g, f, fuel);
    }
  }

  /** The finished flow: f with this StartStep in front and the edges to the missing inputs it offers. */
  ghost predicate Finishes(f: Flow, ds: seq<Property>, h: Flow) {
    && h.begin == START_NAME && h.order == f.order + [START_NAME]
    && h.steps == f.steps[START_NAME := Step(StartStep, ds, ds)]
    && h.control == f.control + [ControlEdge(START_NAME, Some(f.begin))]
    && exists edges :: h.data == f.data + edges && AddedEdges(f, ds, edges)
  }

  lemma {:induction false} AddStartFinishes(
    f: Flow, fuel: nat, given: Option<seq<Property>>, context: set<string>, b: Built)
    returns (ds: seq<Property>)
    requires f.Valid() && Resolved(f, fuel, b.resolution) && AddStart(f, given, context, b.resolution) == Ok(b)
    ensures StartDescriptors(given, b.resolution.inputs, context) == Ok(ds) && Finishes(f, ds, b.flow)
    ensures Exposed(given, b.resolution.flowInputs) == Ok(b.inputs)
  {
    ds := StartDescriptors(given, b.resolution.inputs, context).value;
    var starts, edges := AddStartShape(f, given, context, b.resolution, b);
    assert starts == b.flow.steps[START_NAME].inputs == ds;
    if ds != [] {
      RemapAdds(f, fuel, b.resolution, ds);
    }
    assert AddedEdges(f, ds, edges);
  }

  /** What the StartStep of a flow accepted in this way holds, what it feeds, and what the flow asks its caller for. */
  lemma {:induction false} DetectedStart(g: Given, f: Flow, fuel: nat, b: Built) returns (ds: seq<Property>)
    requires f.Valid() && !f.steps[f.begin].kind.StartStep? && g.inputs.None?
    requires Construct(g, f, fuel) == Some(Ok(b))
    ensures AsksFor(g, f, fuel, ds) && Finishes(f, ds, b.flow)
    ensures forall n :: n in b.inputs <==> Kept(f, fuel, n).Some?
    ensures forall n | n in b.inputs :: Some(b.inputs[n]) == Kept(f, fuel, n)
  {
    ConstructAddsStart(g, f, fuel, b);
    ResolvedListed(f, fuel, b.resolution);
    DetectedDescriptorsExactly(g, f, fuel, b.resolution);
    ds := AddStartFinishes(f, fuel, None, ContextNames(g.providers, f.data), b);
    forall n
      ensures n in b.inputs <==> Kept(f, fuel, n).Some?
      ensures n in b.inputs ==> Some(b.inputs[n]) == Kept(f, fuel, n)
    {
      KeptIsStored(f, fuel, b.resolution, n);
    }
  }

  // ---- Listed inputs, and flows with a StartStep ----

  lemma {:induction false} ExposedExactly(ds: seq<Property>, found: map<string, Property>)
    ensures Exposed(Some(ds), found).Ok? <==> Distinct(ds) && forall i | 0 <= i < |ds| :: ds[i].name in found
    ensures Exposed(Some(ds), found).Ok? ==> forall n :: n in Exposed(Some(ds), found).value <==>
              n in found && (Names(ds, n) || found[n].default.None?)
    ensures Exposed(Some(ds), found).Ok? ==> forall n | n in Exposed(Some(ds), found).value ::
              Exposed(Some(ds), found).value[n] == found[n]
  {
  }

  /**
   * With a list of inputs: iff the resolver comes to results, the listed names differ and are missing somewhere, every
   * missing input is taken care of by them unless the list is empty, and no data edges collide.
   */
  lemma {:induction false} ListedAccepted(g: Given, f: Flow, fuel: nat)
    requires f.Valid() && !f.steps[f.begin].kind.StartStep? && START_NAME !in f.steps && g.inputs.Some?
    ensures Accepts(g, f, fuel) <==>
              && Resolves(f, fuel)
              && Distinct(g.inputs.value)
              && (forall i | 0 <= i < |g.inputs.value| :: Kept(f, fuel, g.inputs.value[i].name).Some?)
              && AllTakenCareOf(f, g.inputs.value)
              && !Collides(f.data)
  {
    if Resolves(f, fuel) {
      var res := Outcome(f, fuel).value.value;
      ConstructIs(g, f, fuel, res);
      AddStartExactly(f, fuel, g.inputs, ContextNames(g.providers, f.data), res);
      ResolvedListed(f, fuel, res);
      ExposedExactly(g.inputs.value, res.flowInputs);
      forall n ensures n in res.flowInputs <==> Kept(f, fuel, n).Some? {
        KeptIsStored(f, fuel, res, n);
      }
    } else if Accepts(g, f, fuel) {
      AcceptsNeedsResults(g, f, fuel);
    }
  }

  lemma {:induction false} ListedStart(g: Given, f: Flow, fuel: nat, b: Built)
    requires f.Valid() && !f.steps[f.begin].kind.StartStep? && g.inputs.Some?
    requires Construct(g, f, fuel) == Some(Ok(b))
    ensures Finishes(f, g.inputs.value, b.flow)
    ensures forall n :: n in b.inputs <==>
              Kept(f, fuel, n).Some? && (Names(g.inputs.value, n) || Kept(f, fuel, n).value.default.None?)
    ensures forall n | n in b.inputs :: Some(b.inputs[n]) == Kept(f, fuel, n)
  {
    ConstructAddsStart(g, f, fuel, b);
    ResolvedListed(f, fuel, b.resolution);
    var ds := AddStartFinishes(f, fuel, g.inputs, ContextNames(g.providers, f.data), b);
    ExposedExactly(ds, b.resolution.flowInputs);
    forall n
      ensures n in b.inputs <==> Kept(f, fuel, n).Some? && (Names(ds, n) || Kept(f, fuel, n).value.default.None?)
      ensures n in b.inputs ==> Some(b.inputs[n]) == Kept(f, fuel, n)
    {
      KeptIsStored(f, fuel, b.resolution, n);
    }
  }

  /** A flow with a StartStep: iff the resolver accepts it, no data edges collide, and the list names its inputs. */
  lemma {:induction false} OwnStartAccepted(g: Given, f: Flow, fuel: nat)
    requires f.Valid() && f.steps[f.begin].kind.StartStep?
    ensures Accepts(g, f, fuel) <==>
              && Resolves(f, fuel) && !Collides(f.data)
              && (g.inputs.Some? ==> Distinct(g.inputs.value) && forall i | 0 <= i < |g.inputs.value| ::
                    Names(f.steps[f.begin].inputs, g.inputs.value[i].name))
  {
    if Resolves(f, fuel) {
      var res := Outcome(f, fuel).value.value;
      ConstructIs(g, f, fuel, res);
      ResolvedListed(f, fuel, res);
      if g.inputs.Some? {
        ExposedExactly(g.inputs.value, res.flowInputs);
      }
    } else if Accepts(g, f, fuel) {
      AcceptsNeedsResults(g, f, fuel);
    }
  }

  /** What such a flow asks its caller for: its StartStep's inputs, less those a list leaves to their defaults. */
  lemma {:induction false} OwnStart(g: Given, f: Flow, fuel: nat, b: Built)
    requires f.Valid() && f.steps[f.begin].kind.StartStep? && Construct(g, f, fuel) == Some(Ok(b))
    ensures b.flow == f
    ensures forall n :: n in b.inputs <==>
              && Names(f.steps[f.begin].inputs, n)
              && (g.inputs.None? || Names(g.inputs.value, n) || Named(f.steps[f.begin].inputs, n).default.None?)
    ensures forall n | n in b.inputs :: b.inputs[n] == Named(f.steps[f.begin].inputs, n)
  {
    ConstructKeepsStart(g, f, fuel, b);
    ResolvedListed(f, fuel, b.resolution);
    if g.inputs.Some? {
      ExposedExactly(g.inputs.value, b.resolution.flowInputs);
    }
    var ins := f.steps[f.begin].inputs;
    forall n ensures n in b.resolution.flowInputs ==> b.resolution.flowInputs[n] == Named(ins, n) {
      ByNameIsNamed(ins, n);
    }
  }
}
