/** No control path of a finished flow reaches a step with an input unset: exactly when. */
module DefiniteAssignment {
  import opened Wrappers
  import opened Properties
  import opened MustAnalysis
  import opened Flows
  import opened FlowResolver
  import opened VisitOrder
  import opened FlowTraversal
  import opened FlowBuild
  import opened FlowPaths

  // ---- Starting and running a flow ----

  /** `start_conversation` accepts values for these inputs; `context` are the names providers answer for. */
  ghost predicate Starts(b: Built, context: set<string>, passed: set<string>) {
    && passed <= b.inputs.Keys
    && forall n | n in b.inputs && b.inputs[n].default.None? :: n in passed || n in context
  }

  /** A value passed for `n` is stored under this step input before the flow starts. */
  predicate Lists(keys: map<string, seq<IoKey>>, n: string, k: IoKey) {
    n in keys && k in keys[n]
  }

  ghost predicate Seeded(b: Built, passed: set<string>, v: string, input: string) {
    exists n :: n in passed && Lists(b.keys, n, IoKey(v, input))
  }

  /** At the end of this path the executor finds a value for the input. */
  ghost predicate Available(
    b: Built, context: set<string>, passed: set<string>, p: seq<string>, v: string, d: Property)
  {
    || b.flow.HasContext(v, d.name)
    || d.name in context
    || d.default.Some?
    || Seeded(b, passed, v, d.name)
    || exists i | 0 <= i < |p| - 1 :: Feeds(b.flow, p[i], v, d.name)
  }

  /** However the flow is started, every control path finds every input of every step, the first included. */
  ghost predicate DefinitelyAssigned(b: Built, context: set<string>) {
    forall passed, p, v, i |
      && Starts(b, context, passed) && PathTo(GraphOf(b.flow), p, v)
      && v in b.flow.steps && 0 <= i < |b.flow.steps[v].inputs| ::
      Available(b, context, passed, p, v, b.flow.steps[v].inputs[i])
  }

  /** An input some path leaves unfed, without default or provider. */
  ghost predicate Missing(f: Flow, context: set<string>, v: string, i: nat) {
    && v in f.steps && i < |f.steps[v].inputs|
    && f.steps[v].inputs[i].default.None?
    && f.steps[v].inputs[i].name !in context
    && !f.HasContext(v, f.steps[v].inputs[i].name)
    && MayBeUnfed(f, v, f.steps[v].inputs[i].name)
  }

  /** The inputs without which the flow does not start. */
  function MustPass(b: Built, context: set<string>): set<string> {
    set n | n in b.inputs && b.inputs[n].default.None? && n !in context
  }

  /** Passing as little as possible decides: only a stored value can make up for a missing input. */
  lemma {:induction false} AssignedExactly(b: Built, context: set<string>)
    ensures DefinitelyAssigned(b, context) <==>
              forall v, i: nat | Missing(b.flow, context, v, i) ::
                Seeded(b, MustPass(b, context), v, b.flow.steps[v].inputs[i].name)
  {
    var least := MustPass(b, context);
    assert Starts(b, context, least);
    forall v, i: nat | Missing(b.flow, context, v, i) && !Seeded(b, least, v, b.flow.steps[v].inputs[i].name)
      ensures !DefinitelyAssigned(b, context)
    {
      var d := b.flow.steps[v].inputs[i];
      var p :| PathTo(GraphOf(b.flow), p, v) && Unfed(b.flow, p, v, d.name);
      assert !Available(b, context, least, p, v, d);
    }
    if forall v, i: nat | Missing(b.flow, context, v, i) :: Seeded(b, least, v, b.flow.steps[v].inputs[i].name) {
      forall passed, p, v, i |
        && Starts(b, context, passed) && PathTo(GraphOf(b.flow), p, v)
        && v in b.flow.steps && 0 <= i < |b.flow.steps[v].inputs|
        ensures Available(b, context, passed, p, v, b.flow.steps[v].inputs[i])
      {
        var d := b.flow.steps[v].inputs[i];
        if Unfed(b.flow, p, v, d.name) && Missing(b.flow, context, v, i) {
          SeededGrows(b, least, passed, v, d.name);
        }
      }
    }
  }

  lemma {:induction false} SeededGrows(b: Built, least: set<string>, passed: set<string>, v: string, input: string)
    requires least <= passed && Seeded(b, least, v, input)
    ensures Seeded(b, passed, v, input)
  {
  }

  // ---- What the resolver established ----

  /** The resolver's verdict in one place. */
  ghost predicate Resolved(f: Flow, fuel: nat, res: Resolution)
    requires f.Valid()
  {
    Outcome(f, fuel) == Some(Ok(res))
  }

  lemma {:induction false} RequiredExact(f: Flow, fuel: nat, res: Resolution, v: string, input: string)
    requires f.Valid() && Resolved(f, fuel, res)
    ensures Requires(res.inputs, v, input) <==>
              f.IsInput(v, input) && !f.HasContext(v, input) && MayBeUnfed(f, v, input)
  {
    var s := Traverse(f, Start(f), fuel).value;
    RequiredInputsExact(f, fuel, s, v, input);
  }

  lemma {:induction false} MissingIsRequired(f: Flow, fuel: nat, res: Resolution, context: set<string>, v: string,
    i: nat)
    requires f.Valid() && Resolved(f, fuel, res) && v in f.steps && i < |f.steps[v].inputs|
    ensures var d := f.steps[v].inputs[i];
      Missing(f, context, v, i) <==> d.default.None? && d.name !in context && Requires(res.inputs, v, d.name)
  {
    RequiredExact(f, fuel, res, v, f.steps[v].inputs[i].name);
  }

  lemma {:induction false} ResolvedListed(f: Flow, fuel: nat, res: Resolution)
    requires f.Valid() && Resolved(f, fuel, res)
    ensures InputsListed(f, res.inputs) && KeysNamed(res.inputs)
    ensures !f.steps[f.begin].kind.StartStep? ==> res.flowInputs == res.inputs.resolved
    ensures f.steps[f.begin].kind.StartStep? ==> res.flowInputs == ByName(f.steps[f.begin].inputs)
  {
    RequiredInputsListed(f, fuel, Traverse(f, Start(f), fuel).value);
    RequiredKeysNamed(f, fuel, Traverse(f, Start(f), fuel).value);
  }

  /** The last visit that misses the name finds it without default: the descriptor the flow keeps has none. */
  predicate LastNeeds(f: Flow, fuel: nat, n: string)
    requires f.Valid()
  {
    var d := LastMiss(f, Visits(f, fuel), n);
    d.Some? && d.value.default.None?
  }

  lemma {:induction false} LastNeedsStored(f: Flow, fuel: nat, res: Resolution, n: string)
    requires f.Valid() && Resolved(f, fuel, res)
    ensures LastNeeds(f, fuel, n) <==> n in res.inputs.resolved && res.inputs.resolved[n].default.None?
  {
    LastMissDecides(f, fuel, Traverse(f, Start(f), fuel).value, n);
  }

  /** Stored values reach exactly the step inputs that were found missing, as long as no StartStep takes their place. */
  lemma {:induction false} SeededUnmapped(b: Built, x: Inputs, passed: set<string>, v: string, input: string)
    requires b.keys == x.keys && KeysNamed(x)
    ensures Seeded(b, passed, v, input) <==> input in passed && Requires(x, v, input)
  {
    assert Lists(b.keys, input, IoKey(v, input)) <==> Requires(x, v, input);
  }

  // ---- Flows that came with a StartStep ----

  ghost predicate OffersWithoutDefault(f: Flow, n: string)
    requires f.Valid()
  {
    Names(f.steps[f.begin].inputs, n) && Named(f.steps[f.begin].inputs, n).default.None?
  }

  lemma {:induction false} ByNameIsNamed(ps: seq<Property>, n: string)
    requires Distinct(ps)
    ensures Names(ps, n) ==> n in ByName(ps) && ByName(ps)[n] == Named(ps, n)
    decreases |ps|
  {
    if ps != [] {
      NamedLast(ps, |ps| - 1, n);
      ByNameIsNamed(ps[..|ps| - 1], n);
    }
  }

  /** Whatever the caller lists, the inputs found without default stay inputs of the flow, and only those lack one. */
  lemma {:induction false} ExposedNeeds(
    given: Option<seq<Property>>, found: map<string, Property>, inputs: map<string, Property>, n: string)
    requires Exposed(given, found) == Ok(inputs)
    ensures n in inputs && inputs[n].default.None? <==> n in found && found[n].default.None?
  {
  }

  /** What the constructor keeps of a flow that came with a StartStep. */
  lemma {:induction false} ConstructKeepsStart(g: Given, f: Flow, fuel: nat, b: Built)
    requires f.Valid() && f.steps[f.begin].kind.StartStep? && Construct(g, f, fuel) == Some(Ok(b))
    ensures Resolved(f, fuel, b.resolution) && Finished(f, fuel, Traverse(f, Start(f), fuel).value)
    ensures b.flow == f && b.keys == b.resolution.inputs.keys && !Collides(f.data)
    ensures Exposed(g.inputs, b.resolution.flowInputs) == Ok(b.inputs)
  {
  }

  lemma {:induction false} UserNeeds(given: Option<seq<Property>>, f: Flow, fuel: nat, res: Resolution,
    inputs: map<string, Property>, n: string)
    requires f.Valid() && f.steps[f.begin].kind.StartStep? && Resolved(f, fuel, res)
    requires Exposed(given, res.flowInputs) == Ok(inputs)
    ensures n in inputs && inputs[n].default.None? <==> OffersWithoutDefault(f, n)
  {
    ResolvedListed(f, fuel, res);
    ByNameIsNamed(f.steps[f.begin].inputs, n);
    ExposedNeeds(given, res.flowInputs, inputs, n);
  }

  lemma {:induction false} UserMustPass(g: Given, f: Flow, fuel: nat, b: Built, context: set<string>, n: string)
    requires f.Valid() && f.steps[f.begin].kind.StartStep? && Construct(g, f, fuel) == Some(Ok(b))
    ensures n in MustPass(b, context) <==> OffersWithoutDefault(f, n) && n !in context
  {
    ConstructKeepsStart(g, f, fuel, b);
    UserNeeds(g.inputs, f, fuel, b.resolution, b.inputs, n);
  }

  /**
   * Such a flow is definitely assigned iff every missing input bears the name of a StartStep input without default:
   * one the caller must pass, and whose value is stored for the missing inputs of that name.
   */
  lemma {:induction false} WithUserStartStep(g: Given, f: Flow, fuel: nat, b: Built, context: set<string>)
    requires f.Valid() && f.steps[f.begin].kind.StartStep? && Construct(g, f, fuel) == Some(Ok(b))
    ensures DefinitelyAssigned(b, context) <==>
              forall v, i: nat | Missing(f, context, v, i) :: OffersWithoutDefault(f, f.steps[v].inputs[i].name)
  {
    AssignedExactly(b, context);
    ResolvedListed(f, fuel, b.resolution);
    forall v, i: nat | Missing(f, context, v, i)
      ensures Seeded(b, MustPass(b, context), v, f.steps[v].inputs[i].name) <==>
                OffersWithoutDefault(f, f.steps[v].inputs[i].name)
    {
      var n := f.steps[v].inputs[i].name;
      MissingIsRequired(f, fuel, b.resolution, context, v, i);
      SeededUnmapped(b, b.resolution.inputs, MustPass(b, context), v, n);
      UserMustPass(g, f, fuel, b, context, n);
    }
  }

  /** What the resolver's own check looks at: per name, only the descriptor of the last visit that misses it. */
  lemma {:induction false} StartStepCheckExactly(f: Flow, fuel: nat, s: Resolver)
    requires f.Valid() && f.steps[f.begin].kind.StartStep? && Finished(f, fuel, s)
    ensures Outcome(f, fuel).value.Ok? <==>
              forall n | LastNeeds(f, fuel, n) :: Names(f.steps[f.begin].inputs, n)
  {
    forall n ensures LastNeeds(f, fuel, n) <==> n in s.inputs.resolved && s.inputs.resolved[n].default.None? {
      LastMissDecides(f, fuel, s, n);
    }
  }

  // ---- What remapping guarantees ----

  ghost predicate Remapped(f: Flow, starts: seq<Property>, name: string, k: IoKey, edges: seq<DataEdge>) {
    var ins := InputsOf(f, k.step);
    if Names(starts, name) then DataEdge(FromStep(START_NAME), name, k.step, k.input) in edges
    else !(Names(ins, k.input) && Named(ins, k.input).default.None?)
  }

  ghost predicate FromStartOnly(edges: seq<DataEdge>) {
    forall e | e in edges :: e.source == FromStep(START_NAME)
  }

  lemma {:induction false} RemapKeysCover(f: Flow, starts: seq<Property>, name: string, ks: seq<IoKey>)
    requires RemapKeys(f, starts, name, ks).Ok?
    ensures var edges := RemapKeys(f, starts, name, ks).value.edges;
      FromStartOnly(edges) && forall k | k in ks :: Remapped(f, starts, name, k, edges)
    decreases |ks|
  {
    if ks != [] {
      var n := |ks| - 1;
      var before, more := RemapKeys(f, starts, name, ks[..n]).value.edges, RemapKey(f, starts, name, ks[n]).value.edges;
      RemapKeysCover(f, starts, name, ks[..n]);
      RemapKeyCovers(f, starts, name, ks[n], before);
      forall k | k in ks ensures Remapped(f, starts, name, k, before + more) {
        if k != ks[n] {
          assert k in ks[..n];
        }
      }
    }
  }

  lemma {:induction false} RemapKeyCovers(
    f: Flow, starts: seq<Property>, name: string, k: IoKey, before: seq<DataEdge>)
    requires RemapKey(f, starts, name, k).Ok?
    ensures var more := RemapKey(f, starts, name, k).value.edges;
      FromStartOnly(more) && Remapped(f, starts, name, k, before + more)
  {
  }

  lemma {:induction false} RemapAllCovers(
    f: Flow, starts: seq<Property>, names: seq<string>, keys: map<string, seq<IoKey>>)
    requires RemapAll(f, starts, names, keys).Ok?
    ensures var edges := RemapAll(f, starts, names, keys).value.edges;
      && FromStartOnly(edges)
      && forall name, k | name in names && k in Listed(keys, name) :: Remapped(f, starts, name, k, edges)
    decreases |names|
  {
    if names != [] {
      var n := |names| - 1;
      RemapAllCovers(f, starts, names[..n], keys);
      RemapKeysCover(f, starts, names[n], Listed(keys, names[n]));
      assert names == names[..n] + [names[n]];
    }
  }

  /** A missing name offered by the StartStep now stands for the StartStep's own input; no other key is left. */
  ghost predicate KeysRemapped(starts: seq<Property>, x: Inputs, keys: map<string, seq<IoKey>>) {
    forall name, k :: Lists(keys, name, k) <==>
      name in x.names && Names(starts, name) && Listed(x.keys, name) != [] && k == IoKey(START_NAME, name)
  }

  lemma {:induction false} RemapKeysKeys(f: Flow, starts: seq<Property>, name: string, ks: seq<IoKey>)
    requires RemapKeys(f, starts, name, ks).Ok?
    ensures forall k :: k in RemapKeys(f, starts, name, ks).value.keys <==>
              Names(starts, name) && ks != [] && k == IoKey(START_NAME, name)
    decreases |ks|
  {
    if ks != [] {
      RemapKeysKeys(f, starts, name, ks[..|ks| - 1]);
    }
  }

  lemma {:induction false} RemapAllKeys(
    f: Flow, starts: seq<Property>, names: seq<string>, keys: map<string, seq<IoKey>>)
    requires RemapAll(f, starts, names, keys).Ok?
    ensures var r := RemapAll(f, starts, names, keys).value.keys;
      forall name, k :: Lists(r, name, k) <==>
        name in names && Names(starts, name) && Listed(keys, name) != [] && k == IoKey(START_NAME, name)
    decreases |names|
  {
    if names != [] {
      var n := |names| - 1;
      RemapAllKeys(f, starts, names[..n], keys);
      RemapKeysKeys(f, starts, names[n], Listed(keys, names[n]));
      assert names == names[..n] + [names[n]];
      var before, r := RemapAll(f, starts, names[..n], keys).value.keys, RemapAll(f, starts, names, keys).value.keys;
      forall name, k
        ensures Lists(r, name, k) <==>
                  name in names && Names(starts, name) && Listed(keys, name) != [] && k == IoKey(START_NAME, name)
      {
        if name != names[n] {
          assert Lists(r, name, k) <==> Lists(before, name, k);
        }
      }
    }
  }

  // ---- The StartStep makes up for what is missing ----

  /** How the finished flow relates to the one the resolver saw. */
  ghost predicate Completed(f: Flow, h: Flow, x: Inputs) {
    && Fronted(f, h)
    && InputsListed(f, x)
    && (forall e | e in f.data && e.source.FromStep? :: e.source.step in f.steps)
    && exists edges :: CompletedBy(f, h, x, edges)
  }

  ghost predicate CompletedBy(f: Flow, h: Flow, x: Inputs, edges: seq<DataEdge>)
    requires START_NAME in h.steps
  {
    var starts := h.steps[START_NAME].inputs;
    && h.data == f.data + edges
    && FromStartOnly(edges)
    && (starts == [] ==> edges == [])
    && (starts != [] ==>
          forall name, k | name in x.names && k in Listed(x.keys, name) :: Remapped(h, starts, name, k, edges))
  }

  lemma {:induction false} CompletedContext(f: Flow, h: Flow, x: Inputs, v: string, input: string)
    requires Completed(f, h, x)
    ensures h.HasContext(v, input) <==> f.HasContext(v, input)
  {
    var edges :| CompletedBy(f, h, x, edges);
    if f.HasContext(v, input) {
      var i :| 0 <= i < |f.data| && f.data[i].source.FromContext? && f.data[i].dest == v && f.data[i].input == input;
      assert h.data[i] == f.data[i];
    }
    assert forall j | |f.data| <= j < |h.data| :: h.data[j] == edges[j - |f.data|];
    if h.HasContext(v, input) {
      var i :| 0 <= i < |h.data| && h.data[i].source.FromContext? && h.data[i].dest == v && h.data[i].input == input;
      assert i < |f.data| ==> h.data[i] == f.data[i];
    }
  }

  lemma {:induction false} CompletedFeeds(f: Flow, h: Flow, x: Inputs, u: string, v: string, input: string)
    requires Completed(f, h, x)
    ensures Feeds(f, u, v, input) ==> Feeds(h, u, v, input)
    ensures h.steps[START_NAME].inputs == [] && Feeds(h, u, v, input) ==> u != START_NAME && Feeds(f, u, v, input)
  {
    var edges :| CompletedBy(f, h, x, edges);
    if Feeds(f, u, v, input) {
      var i :| 0 <= i < |f.data| && f.data[i] == DataEdge(FromStep(u), f.data[i].output, v, input);
      assert h.data[i] == f.data[i];
    }
    if h.steps[START_NAME].inputs == [] && Feeds(h, u, v, input) {
      var i :| 0 <= i < |h.data| && h.data[i] == DataEdge(FromStep(u), h.data[i].output, v, input);
      assert h.data == f.data && f.data[i] in f.data;
    }
  }

  /** A missing input is fed from the StartStep, or has a default, once the StartStep has inputs at all. */
  lemma {:induction false} StartCovers(f: Flow, h: Flow, x: Inputs, v: string, i: nat)
    requires Completed(f, h, x) && h.steps[START_NAME].inputs != []
    requires v in f.steps && i < |f.steps[v].inputs| && Requires(x, v, f.steps[v].inputs[i].name)
    ensures f.steps[v].inputs[i].default.Some? || Feeds(h, START_NAME, v, f.steps[v].inputs[i].name)
  {
    var edges :| CompletedBy(f, h, x, edges);
    var d := f.steps[v].inputs[i];
    var k := IoKey(v, d.name);
    var starts := h.steps[START_NAME].inputs;
    assert Remapped(h, starts, d.name, k, edges);
    NamedUnique(f.steps[v].inputs, i);
    if Names(starts, d.name) {
      var e := DataEdge(FromStep(START_NAME), d.name, v, d.name);
      var j :| 0 <= j < |edges| && edges[j] == e;
      assert h.data[|f.data| + j] == e;
    }
  }

  /** A path that leaves an input unfed behind the StartStep leaves it unfed without. */
  lemma {:induction false} UnfedDown(f: Flow, h: Flow, x: Inputs, p: seq<string>, v: string, input: string)
    requires Completed(f, h, x) && |p| > 1 && Unfed(h, p, v, input)
    ensures Unfed(f, p[1..], v, input) && !Feeds(h, p[0], v, input)
  {
    var q := p[1..];
    forall i | 0 <= i < |q| - 1 ensures !Feeds(f, q[i], v, input) {
      var j := i + 1;
      assert !Feeds(h, p[j], v, input);
      CompletedFeeds(f, h, x, q[i], v, input);
    }
  }

  lemma {:induction false} UnfedUp(f: Flow, h: Flow, x: Inputs, p: seq<string>, v: string, input: string)
    requires Completed(f, h, x) && h.steps[START_NAME].inputs == [] && Unfed(f, p, v, input)
    ensures Unfed(h, [START_NAME] + p, v, input)
  {
    var q := [START_NAME] + p;
    forall j | 0 <= j < |q| - 1 ensures !Feeds(h, q[j], v, input) {
      CompletedFeeds(f, h, x, q[j], v, input);
      assert j > 0 ==> q[j] == p[j - 1];
    }
  }

  lemma {:induction false} MayBeUnfedDown(f: Flow, h: Flow, x: Inputs, v: string, input: string)
    requires Completed(f, h, x) && v != START_NAME && MayBeUnfed(h, v, input)
    ensures MayBeUnfed(f, v, input) && !Feeds(h, START_NAME, v, input)
  {
    var p :| PathTo(GraphOf(h), p, v) && Unfed(h, p, v, input);
    FrontedGraphs(f, h);
    PathDown(GraphOf(f), GraphOf(h), p, v);
    UnfedDown(f, h, x, p, v, input);
    assert PathTo(GraphOf(f), p[1..], v);
  }

  lemma {:induction false} MayBeUnfedUp(f: Flow, h: Flow, x: Inputs, v: string, input: string)
    requires Completed(f, h, x) && h.steps[START_NAME].inputs == [] && MayBeUnfed(f, v, input)
    ensures MayBeUnfed(h, v, input)
  {
    var p :| PathTo(GraphOf(f), p, v) && Unfed(f, p, v, input);
    FrontedGraphs(f, h);
    PathUp(GraphOf(f), GraphOf(h), p, v);
    UnfedUp(f, h, x, p, v, input);
    assert PathTo(GraphOf(h), [START_NAME] + p, v);
  }

  lemma {:induction false} StartMayBeUnfed(f: Flow, h: Flow, input: string)
    requires Fronted(f, h)
    ensures MayBeUnfed(h, START_NAME, input)
  {
    BeginIsPath(GraphOf(h));
    assert Unfed(h, [START_NAME], START_NAME, input);
  }

  lemma {:induction false} BeginIsPath(g: Graph)
    requires g.begin in g.succ
    ensures PathTo(g, [g.begin], g.begin)
  {
  }

  /** What the finished flow still misses: its StartStep's own inputs, and what was missing before if there are none. */
  lemma {:induction false} MissingAfterStart(
    f: Flow, fuel: nat, res: Resolution, h: Flow, context: set<string>, v: string, i: nat)
    requires f.Valid() && Resolved(f, fuel, res) && Completed(f, h, res.inputs)
    ensures v != START_NAME ==>
              (Missing(h, context, v, i) <==> h.steps[START_NAME].inputs == [] && Missing(f, context, v, i))
  {
    if v in f.steps && i < |f.steps[v].inputs| {
      var n := f.steps[v].inputs[i].name;
      CompletedContext(f, h, res.inputs, v, n);
      if Missing(h, context, v, i) {
        MayBeUnfedDown(f, h, res.inputs, v, n);
        RequiredExact(f, fuel, res, v, n);
        assert f.IsInput(v, n);
        if h.steps[START_NAME].inputs != [] {
          StartCovers(f, h, res.inputs, v, i);
        }
      }
      if h.steps[START_NAME].inputs == [] && Missing(f, context, v, i) {
        MayBeUnfedUp(f, h, res.inputs, v, n);
      }
    }
  }

  lemma {:induction false} MissingAtStart(f: Flow, h: Flow, x: Inputs, context: set<string>, i: nat)
    requires Completed(f, h, x)
    ensures Missing(h, context, START_NAME, i) <==>
              && i < |h.steps[START_NAME].inputs| && h.steps[START_NAME].inputs[i].default.None?
              && h.steps[START_NAME].inputs[i].name !in context
              && !f.HasContext(START_NAME, h.steps[START_NAME].inputs[i].name)
  {
    if i < |h.steps[START_NAME].inputs| {
      var n := h.steps[START_NAME].inputs[i].name;
      CompletedContext(f, h, x, START_NAME, n);
      StartMayBeUnfed(f, h, n);
    }
  }

  lemma {:induction false} ConstructAddsStart(g: Given, f: Flow, fuel: nat, b: Built)
    requires f.Valid() && !f.steps[f.begin].kind.StartStep? && Construct(g, f, fuel) == Some(Ok(b))
    ensures Resolved(f, fuel, b.resolution)
    ensures AddStart(f, g.inputs, ContextNames(g.providers, f.data), b.resolution) == Ok(b)
  {
  }

  /** The finished flow: the StartStep in front, and the remapped edges behind those there were. */
  lemma {:induction false} AddStartShape(
    f: Flow, given: Option<seq<Property>>, context: set<string>, res: Resolution, b: Built)
    returns (ds: seq<Property>, edges: seq<DataEdge>)
    requires AddStart(f, given, context, res) == Ok(b)
    ensures b.flow == WithStart(f, ds).(data := f.data + edges) && !Collides(f.data + edges)
    ensures ds == [] ==> edges == []
    ensures ds != [] ==>
      var r := RemapAll(WithStart(f, ds), ds, res.inputs.names, res.inputs.keys); r.Ok? && r.value.edges == edges
  {
    ds := StartDescriptors(given, res.inputs, context).value;
    edges := if ds == [] then [] else RemapAll(WithStart(f, ds), ds, res.inputs.names, res.inputs.keys).value.edges;
  }

  lemma {:induction false} AddStartFronts(f: Flow, ds: seq<Property>, data: seq<DataEdge>)
    requires f.Valid() && !UnknownSteps(f) && START_NAME !in f.steps
    ensures Fronted(f, WithStart(f, ds).(data := data))
  {
  }

  lemma {:induction false} RemapCompletes(f: Flow, ds: seq<Property>, x: Inputs, edges: seq<DataEdge>)
    requires ds == [] ==> edges == []
    requires ds != [] ==>
      var r := RemapAll(WithStart(f, ds), ds, x.names, x.keys); r.Ok? && r.value.edges == edges
    ensures CompletedBy(f, WithStart(f, ds).(data := f.data + edges), x, edges)
  {
    var h := WithStart(f, ds);
    if ds != [] {
      RemapAllCovers(h, ds, x.names, x.keys);
      forall name, k | name in x.names && k in Listed(x.keys, name)
        ensures Remapped(h.(data := f.data + edges), ds, name, k, edges)
      {
        assert Remapped(h, ds, name, k, edges);
      }
    }
  }

  // ---- The constructor's own edges never collide with a provider ----

  ghost predicate EndsAtMissing(names: seq<string>, keys: map<string, seq<IoKey>>, e: DataEdge) {
    e.source.FromStep? && exists name :: name in names && IoKey(e.dest, e.input) in Listed(keys, name)
  }

  lemma {:induction false} RemapKeysEnd(f: Flow, starts: seq<Property>, name: string, ks: seq<IoKey>, e: DataEdge)
    requires RemapKeys(f, starts, name, ks).Ok? && e in RemapKeys(f, starts, name, ks).value.edges
    ensures e.source.FromStep? && IoKey(e.dest, e.input) in ks
    decreases |ks|
  {
    var n := |ks| - 1;
    if e in RemapKeys(f, starts, name, ks[..n]).value.edges {
      RemapKeysEnd(f, starts, name, ks[..n], e);
    } else {
      assert e in RemapKey(f, starts, name, ks[n]).value.edges;
    }
  }

  lemma {:induction false} RemapAllEnds(
    f: Flow, starts: seq<Property>, names: seq<string>, keys: map<string, seq<IoKey>>, e: DataEdge)
    requires RemapAll(f, starts, names, keys).Ok? && e in RemapAll(f, starts, names, keys).value.edges
    ensures EndsAtMissing(names, keys, e)
    decreases |names|
  {
    var n := |names| - 1;
    if e in RemapAll(f, starts, names[..n], keys).value.edges {
      RemapAllEnds(f, starts, names[..n], keys, e);
    } else {
      RemapKeysEnd(f, starts, names[n], Listed(keys, names[n]), e);
    }
  }

  /** What was found missing has no provider. */
  lemma {:induction false} MissingHasNoContext(f: Flow, fuel: nat, res: Resolution, e: DataEdge)
    requires f.Valid() && Resolved(f, fuel, res) && EndsAtMissing(res.inputs.names, res.inputs.keys, e)
    ensures !f.HasContext(e.dest, e.input)
  {
    ResolvedListed(f, fuel, res);
    var name :| name in res.inputs.names && IoKey(e.dest, e.input) in Listed(res.inputs.keys, name);
    RequiredExact(f, fuel, res, e.dest, e.input);
  }

  lemma {:induction false} NoNewCollision(f: Flow, edges: seq<DataEdge>)
    requires forall e | e in edges :: e.source.FromStep? && !f.HasContext(e.dest, e.input)
    ensures Collides(f.data + edges) <==> Collides(f.data)
  {
    var es, n := f.data + edges, |f.data|;
    assert forall i | 0 <= i < n :: es[i] == f.data[i];
    assert forall i | n <= i < |es| :: es[i] in edges;
    if Collides(es) {
      var i, j :| 0 <= i < |es| && 0 <= j < |es| && i != j && es[i].source.FromContext? && SameTarget(es[i], es[j]);
      assert SameTarget(f.data[i], es[j]);
      assert j < n;
    }
    if Collides(f.data) {
      var i, j :| 0 <= i < n && 0 <= j < n && i != j && f.data[i].source.FromContext? &&
                  SameTarget(f.data[i], f.data[j]);
      assert SameTarget(es[i], es[j]);
    }
  }

  /** The edges the constructor adds change nothing about collisions. */
  lemma {:induction false} RemapDoesNotCollide(f: Flow, fuel: nat, res: Resolution, ds: seq<Property>)
    requires f.Valid() && Resolved(f, fuel, res)
    requires RemapAll(WithStart(f, ds), ds, res.inputs.names, res.inputs.keys).Ok?
    ensures Collides(f.data + RemapAll(WithStart(f, ds), ds, res.inputs.names, res.inputs.keys).value.edges) <==>
              Collides(f.data)
  {
    var edges := RemapAll(WithStart(f, ds), ds, res.inputs.names, res.inputs.keys).value.edges;
    forall e | e in edges ensures e.source.FromStep? && !f.HasContext(e.dest, e.input) {
      RemapAllEnds(WithStart(f, ds), ds, res.inputs.names, res.inputs.keys, e);
      MissingHasNoContext(f, fuel, res, e);
    }
    NoNewCollision(f, edges);
  }

  lemma {:induction false} AddStartDoesNotCollide(
    f: Flow, fuel: nat, given: Option<seq<Property>>, context: set<string>, b: Built)
    requires f.Valid() && Resolved(f, fuel, b.resolution) && AddStart(f, given, context, b.resolution) == Ok(b)
    ensures !Collides(f.data) && !Collides(b.flow.data)
  {
    var ds, edges := AddStartShape(f, given, context, b.resolution, b);
    if ds == [] {
      assert f.data + [] == f.data;
    } else {
      RemapDoesNotCollide(f, fuel, b.resolution, ds);
    }
  }

  /** A finished flow feeds no input from two providers, nor from a provider and a step. */
  lemma {:induction false} AcceptedDoesNotCollide(g: Given, f: Flow, fuel: nat, b: Built)
    requires f.Valid() && Construct(g, f, fuel) == Some(Ok(b))
    ensures !Collides(f.data) && !Collides(b.flow.data)
  {
    if f.steps[f.begin].kind.StartStep? {
      ConstructKeepsStart(g, f, fuel, b);
    } else {
      ConstructAddsStart(g, f, fuel, b);
      AddStartDoesNotCollide(f, fuel, g.inputs, ContextNames(g.providers, f.data), b);
    }
  }

  /** What the constructor establishes for a flow that came without a StartStep. */
  lemma {:induction false} ConstructCompletes(g: Given, f: Flow, fuel: nat, b: Built)
    requires f.Valid() && !UnknownSteps(f) && !Misshapen(f) && !f.steps[f.begin].kind.StartStep?
    requires Construct(g, f, fuel) == Some(Ok(b))
    ensures Resolved(f, fuel, b.resolution) && Completed(f, b.flow, b.resolution.inputs)
  {
    ConstructAddsStart(g, f, fuel, b);
    ResolvedListed(f, fuel, b.resolution);
    SourcesKnown(f, fuel, b.resolution);
    var ds, edges := AddStartShape(f, g.inputs, ContextNames(g.providers, f.data), b.resolution, b);
    AddStartFronts(f, ds, f.data + edges);
    RemapCompletes(f, ds, b.resolution.inputs, edges);
  }

  lemma {:induction false} ConstructKeys(g: Given, f: Flow, fuel: nat, b: Built)
    requires f.Valid() && !f.steps[f.begin].kind.StartStep? && Construct(g, f, fuel) == Some(Ok(b))
    ensures START_NAME in b.flow.steps
    ensures b.flow.steps[START_NAME].inputs == [] ==> b.keys == b.resolution.inputs.keys
    ensures var ds := b.flow.steps[START_NAME].inputs; ds != [] ==> KeysRemapped(ds, b.resolution.inputs, b.keys)
    ensures g.inputs.Some? ==> b.flow.steps[START_NAME].inputs == g.inputs.value
  {
    var x, ds := b.resolution.inputs, b.flow.steps[START_NAME].inputs;
    if ds != [] {
      RemapAllKeys(WithStart(f, ds), ds, x.names, x.keys);
    }
  }

  /** Data edges only start at steps of the flow, or the first visit would have raised. */
  lemma {:induction false} AddFedSources(f: Flow, v: string, keys: set<IoKey>, es: seq<DataEdge>)
    requires AddFed(f, v, keys, es).Ok?
    ensures forall e | e in es && e.source.FromStep? :: e.source.step in f.steps
    decreases |es|
  {
    if es != [] {
      AddFedSources(f, v, keys, es[..|es| - 1]);
      assert es == es[..|es| - 1] + [es[|es| - 1]];
    }
  }

  lemma {:induction false} FirstVisitRaises(f: Flow, fuel: nat)
    requires f.Valid() && fuel > 0 && AddFed(f, f.begin, {}, f.data).Raise?
    ensures Traverse(f, Start(f), fuel).Raise?
  {
    var s := Start(f);
    assert Iterate(f, s).Raise?;
  }

  lemma {:induction false} SourcesKnown(f: Flow, fuel: nat, res: Resolution)
    requires f.Valid() && Resolved(f, fuel, res)
    ensures forall e | e in f.data && e.source.FromStep? :: e.source.step in f.steps
  {
    assert fuel > 0;
    if AddFed(f, f.begin, {}, f.data).Raise? {
      FirstVisitRaises(f, fuel);
    } else {
      AddFedSources(f, f.begin, {}, f.data);
    }
  }

  lemma {:induction false} SynthesisedInputs(g: Given, f: Flow, fuel: nat, b: Built)
    requires f.Valid() && !f.steps[f.begin].kind.StartStep? && Construct(g, f, fuel) == Some(Ok(b))
    ensures Resolved(f, fuel, b.resolution) && Exposed(g.inputs, b.resolution.flowInputs) == Ok(b.inputs)
  {
    ConstructAddsStart(g, f, fuel, b);
  }

  lemma {:induction false} SynthesisedMustPass(g: Given, f: Flow, fuel: nat, b: Built, context: set<string>, n: string)
    requires f.Valid() && !UnknownSteps(f) && !Misshapen(f) && !f.steps[f.begin].kind.StartStep?
    requires Construct(g, f, fuel) == Some(Ok(b))
    ensures n in MustPass(b, context) <==> LastNeeds(f, fuel, n) && n !in context
  {
    SynthesisedInputs(g, f, fuel, b);
    ResolvedNeeds(g.inputs, f, fuel, b.resolution, b.inputs, n);
  }

  lemma {:induction false} ResolvedNeeds(given: Option<seq<Property>>, f: Flow, fuel: nat, res: Resolution,
    inputs: map<string, Property>, n: string)
    requires f.Valid() && !f.steps[f.begin].kind.StartStep? && Resolved(f, fuel, res)
    requires Exposed(given, res.flowInputs) == Ok(inputs)
    ensures n in inputs && inputs[n].default.None? <==> LastNeeds(f, fuel, n)
  {
    ResolvedListed(f, fuel, res);
    ExposedNeeds(given, res.flowInputs, inputs, n);
    LastNeedsStored(f, fuel, res, n);
  }

  /** A value for this name is stored exactly when it is passed for an input that was found missing. */
  lemma {:induction false} SeededAtStart(b: Built, ds: seq<Property>, x: Inputs, passed: set<string>, n: string)
    requires KeysRemapped(ds, x, b.keys) && (forall m | m in x.names :: Listed(x.keys, m) != [])
    ensures Seeded(b, passed, START_NAME, n) <==> n in passed && n in x.names && Names(ds, n)
  {
    if n in passed && n in x.names && Names(ds, n) {
      assert Lists(b.keys, n, IoKey(START_NAME, n));
    }
  }

  lemma {:induction false} ListedNonEmpty(f: Flow, x: Inputs)
    requires InputsListed(f, x)
    ensures forall n | n in x.names :: Listed(x.keys, n) != []
  {
    forall n | n in x.names ensures Listed(x.keys, n) != [] {
      assert InputListed(f, x, n);
    }
  }

  lemma {:induction false} SeededWithoutList(
    f: Flow, fuel: nat, b: Built, context: set<string>, passed: set<string>, v: string, i: nat)
    requires f.Valid() && Resolved(f, fuel, b.resolution) && Completed(f, b.flow, b.resolution.inputs)
    requires b.flow.steps[START_NAME].inputs == [] && b.keys == b.resolution.inputs.keys
    requires Missing(b.flow, context, v, i)
    ensures Seeded(b, passed, v, b.flow.steps[v].inputs[i].name) <==> b.flow.steps[v].inputs[i].name in passed
  {
    ResolvedListed(f, fuel, b.resolution);
    MissingAfterStart(f, fuel, b.resolution, b.flow, context, v, i);
    MissingIsRequired(f, fuel, b.resolution, context, v, i);
    SeededUnmapped(b, b.resolution.inputs, passed, v, b.flow.steps[v].inputs[i].name);
  }

  lemma {:induction false} SeededWithList(
    f: Flow, fuel: nat, b: Built, context: set<string>, passed: set<string>, v: string, i: nat)
    requires f.Valid() && Resolved(f, fuel, b.resolution) && Completed(f, b.flow, b.resolution.inputs)
    requires b.flow.steps[START_NAME].inputs != []
    requires KeysRemapped(b.flow.steps[START_NAME].inputs, b.resolution.inputs, b.keys)
    requires Missing(b.flow, context, v, i)
    ensures var n := b.flow.steps[v].inputs[i].name;
      Seeded(b, passed, v, n) <==> n in passed && n in b.resolution.inputs.names
  {
    var x, n := b.resolution.inputs, b.flow.steps[v].inputs[i].name;
    ResolvedListed(f, fuel, b.resolution);
    MissingAfterStart(f, fuel, b.resolution, b.flow, context, v, i);
    ListedNonEmpty(f, x);
    SeededAtStart(b, b.flow.steps[START_NAME].inputs, x, passed, n);
    assert Names(b.flow.steps[START_NAME].inputs, n);
  }

  lemma {:induction false} NeededIsNamed(f: Flow, fuel: nat, res: Resolution, n: string)
    requires f.Valid() && Resolved(f, fuel, res) && LastNeeds(f, fuel, n)
    ensures n in res.inputs.names
  {
    ResolvedListed(f, fuel, res);
    LastNeedsStored(f, fuel, res, n);
  }

  /** A missing input of the finished flow is made up for iff the last visit that misses its name needs a value. */
  lemma {:induction false} SeededWhereMissing(g: Given, f: Flow, fuel: nat, b: Built, context: set<string>, v: string,
    i: nat)
    requires f.Valid() && !UnknownSteps(f) && !Misshapen(f) && !f.steps[f.begin].kind.StartStep?
    requires Construct(g, f, fuel) == Some(Ok(b)) && Missing(b.flow, context, v, i)
    ensures Seeded(b, MustPass(b, context), v, b.flow.steps[v].inputs[i].name) <==>
              LastNeeds(f, fuel, b.flow.steps[v].inputs[i].name)
  {
    var n := b.flow.steps[v].inputs[i].name;
    ConstructCompletes(g, f, fuel, b);
    ConstructKeys(g, f, fuel, b);
    SynthesisedMustPass(g, f, fuel, b, context, n);
    if b.flow.steps[START_NAME].inputs == [] {
      SeededWithoutList(f, fuel, b, context, MustPass(b, context), v, i);
    } else {
      SeededWithList(f, fuel, b, context, MustPass(b, context), v, i);
      if LastNeeds(f, fuel, n) {
        NeededIsNamed(f, fuel, b.resolution, n);
      }
    }
  }

  lemma {:induction false} SynthesisedExactly(g: Given, f: Flow, fuel: nat, b: Built, context: set<string>)
    requires f.Valid() && !UnknownSteps(f) && !Misshapen(f) && !f.steps[f.begin].kind.StartStep?
    requires Construct(g, f, fuel) == Some(Ok(b))
    ensures DefinitelyAssigned(b, context) <==>
              forall v, i: nat | Missing(b.flow, context, v, i) :: LastNeeds(f, fuel, b.flow.steps[v].inputs[i].name)
  {
    AssignedExactly(b, context);
    forall v, i: nat | Missing(b.flow, context, v, i)
      ensures Seeded(b, MustPass(b, context), v, b.flow.steps[v].inputs[i].name) <==>
                LastNeeds(f, fuel, b.flow.steps[v].inputs[i].name)
    {
      SeededWhereMissing(g, f, fuel, b, context, v, i);
    }
  }

  lemma {:induction false} CopiesDescribe(names: seq<string>, resolved: map<string, Property>, context: set<string>)
    ensures forall d | d in Copies(names, resolved, context) ::
              d.name in resolved && d.default == resolved[d.name].default
    decreases |names|
  {
    if names != [] {
      CopiesDescribe(names[..|names| - 1], resolved, context);
    }
  }

  /** Detected inputs are copies of what the resolver stored, so a StartStep input needs a value iff the flow does. */
  lemma {:induction false} DetectedInputsSuffice(g: Given, f: Flow, fuel: nat, b: Built, context: set<string>,
    v: string, i: nat)
    requires f.Valid() && !UnknownSteps(f) && !Misshapen(f) && !f.steps[f.begin].kind.StartStep?
    requires Construct(g, f, fuel) == Some(Ok(b)) && g.inputs.None? && b.contextNames <= context
    requires Missing(b.flow, context, v, i)
    ensures LastNeeds(f, fuel, b.flow.steps[v].inputs[i].name)
  {
    ConstructCompletes(g, f, fuel, b);
    DetectedDescriptors(g, f, fuel, b);
    DetectedNeeds(f, fuel, b, context, v, i);
  }

  lemma {:induction false} DetectedDescriptors(g: Given, f: Flow, fuel: nat, b: Built)
    requires f.Valid() && !f.steps[f.begin].kind.StartStep?
    requires Construct(g, f, fuel) == Some(Ok(b)) && g.inputs.None?
    ensures START_NAME in b.flow.steps
    ensures b.flow.steps[START_NAME].inputs ==
            Copies(b.resolution.inputs.names, b.resolution.inputs.resolved, b.contextNames)
  {
    ConstructAddsStart(g, f, fuel, b);
  }

  lemma {:induction false} DetectedNeeds(f: Flow, fuel: nat, b: Built, context: set<string>, v: string, i: nat)
    requires f.Valid() && Resolved(f, fuel, b.resolution) && Completed(f, b.flow, b.resolution.inputs)
    requires b.flow.steps[START_NAME].inputs ==
             Copies(b.resolution.inputs.names, b.resolution.inputs.resolved, b.contextNames)
    requires b.contextNames <= context && Missing(b.flow, context, v, i)
    ensures LastNeeds(f, fuel, b.flow.steps[v].inputs[i].name)
  {
    var x, d := b.resolution.inputs, b.flow.steps[v].inputs[i];
    ResolvedListed(f, fuel, b.resolution);
    MissingAfterStart(f, fuel, b.resolution, b.flow, context, v, i);
    LastNeedsStored(f, fuel, b.resolution, d.name);
    CopiesDescribe(x.names, x.resolved, b.contextNames);
    if v == START_NAME {
      assert d in b.flow.steps[START_NAME].inputs;
    } else {
      MissingIsRequired(f, fuel, b.resolution, context, v, i);
    }
  }

  /**
   * End to end, for flows that came without a StartStep. With detected inputs every step input is always set. With
   * listed inputs it is iff the resolver kept a descriptor without default for every input that then has no other
   * value: the missing ones when the list is empty, and those of the list otherwise.
   */
  lemma {:induction false} WithSynthesisedStartStep(g: Given, f: Flow, fuel: nat, b: Built, context: set<string>)
    requires f.Valid() && !UnknownSteps(f) && !Misshapen(f) && !f.steps[f.begin].kind.StartStep?
    requires Construct(g, f, fuel) == Some(Ok(b))
    ensures g.inputs.None? && b.contextNames <= context ==> DefinitelyAssigned(b, context)
    ensures g.inputs == Some([]) ==>
              (DefinitelyAssigned(b, context) <==>
               forall v, i: nat | Missing(f, context, v, i) :: LastNeeds(f, fuel, f.steps[v].inputs[i].name))
    ensures g.inputs.Some? && g.inputs.value != [] ==>
              (DefinitelyAssigned(b, context) <==>
               forall i: nat | StartMisses(f, g.inputs.value, context, i) :: LastNeeds(f, fuel, g.inputs.value[i].name))
  {
    SynthesisedExactly(g, f, fuel, b, context);
    ConstructCompletes(g, f, fuel, b);
    ConstructKeys(g, f, fuel, b);
    forall v, i: nat | v != START_NAME
      ensures Missing(b.flow, context, v, i) <==>
                b.flow.steps[START_NAME].inputs == [] && Missing(f, context, v, i)
    {
      MissingAfterStart(f, fuel, b.resolution, b.flow, context, v, i);
    }
    forall i: nat
      ensures Missing(b.flow, context, START_NAME, i) <==> StartMisses(f, b.flow.steps[START_NAME].inputs, context, i)
    {
      MissingAtStart(f, b.flow, b.resolution.inputs, context, i);
    }
    if g.inputs.None? && b.contextNames <= context {
      forall v, i: nat | Missing(b.flow, context, v, i)
        ensures LastNeeds(f, fuel, b.flow.steps[v].inputs[i].name)
      {
        DetectedInputsSuffice(g, f, fuel, b, context, v, i);
      }
    }
  }

  /** An input listed for the StartStep that has neither default nor provider. */
  predicate StartMisses(f: Flow, ds: seq<Property>, context: set<string>, i: nat) {
    i < |ds| && ds[i].default.None? && ds[i].name !in context && !f.HasContext(START_NAME, ds[i].name)
  }

  /** Descriptors of one name agree on having a default. */
  ghost predicate DefaultsAgree(f: Flow) {
    forall u, v, i: nat, j: nat |
      && u in f.steps && v in f.steps && i < |f.steps[u].inputs| && j < |f.steps[v].inputs|
      && f.steps[u].inputs[i].name == f.steps[v].inputs[j].name ::
      f.steps[u].inputs[i].default.None? <==> f.steps[v].inputs[j].default.None?
  }

  lemma {:induction false} StoredAgrees(f: Flow, x: Inputs, v: string, i: nat)
    requires DefaultsAgree(f) && InputsListed(f, x) && v in f.steps && i < |f.steps[v].inputs|
    requires f.steps[v].inputs[i].default.None? && f.steps[v].inputs[i].name in x.resolved
    ensures x.resolved[f.steps[v].inputs[i].name].default.None?
  {
    var n := f.steps[v].inputs[i].name;
    assert InputListed(f, x, n);
    var u :| u in f.steps && x.resolved[n] in f.steps[u].inputs && Requires(x, u, n);
    var j :| 0 <= j < |f.steps[u].inputs| && f.steps[u].inputs[j] == x.resolved[n];
    assert f.steps[u].inputs[j].name == n;
  }

  /** Where they do, an input that is missing without default is one the flow asks for. */
  lemma {:induction false} AgreedNeeds(f: Flow, fuel: nat, res: Resolution, context: set<string>, v: string, i: nat)
    requires f.Valid() && DefaultsAgree(f) && Resolved(f, fuel, res) && Missing(f, context, v, i)
    ensures LastNeeds(f, fuel, f.steps[v].inputs[i].name)
  {
    ResolvedListed(f, fuel, res);
    MissingIsRequired(f, fuel, res, context, v, i);
    LastNeedsStored(f, fuel, res, f.steps[v].inputs[i].name);
    StoredAgrees(f, res.inputs, v, i);
  }

  /** Then an empty list of inputs is safe. */
  lemma {:induction false} AgreeingDefaultsSuffice(g: Given, f: Flow, fuel: nat, b: Built, context: set<string>)
    requires f.Valid() && !UnknownSteps(f) && !Misshapen(f) && !f.steps[f.begin].kind.StartStep?
    requires Construct(g, f, fuel) == Some(Ok(b)) && g.inputs == Some([]) && DefaultsAgree(f)
    ensures DefinitelyAssigned(b, context)
  {
    WithSynthesisedStartStep(g, f, fuel, b, context);
    SynthesisedInputs(g, f, fuel, b);
    forall v, i: nat | Missing(f, context, v, i) ensures LastNeeds(f, fuel, f.steps[v].inputs[i].name) {
      AgreedNeeds(f, fuel, b.resolution, context, v, i);
    }
  }

  lemma {:induction false} AgreedOffers(f: Flow, n: string, v: string, i: nat)
    requires f.Valid() && DefaultsAgree(f) && Names(f.steps[f.begin].inputs, n)
    requires v in f.steps && i < |f.steps[v].inputs| && f.steps[v].inputs[i].name == n
    requires f.steps[v].inputs[i].default.None?
    ensures OffersWithoutDefault(f, n)
  {
    var d := Named(f.steps[f.begin].inputs, n);
    var j :| 0 <= j < |f.steps[f.begin].inputs| && f.steps[f.begin].inputs[j] == d;
  }

  /** And so is every flow that comes with a StartStep and is accepted: then the check looks at all it should. */
  lemma {:induction false} AgreeingDefaultsPassCheck(g: Given, f: Flow, fuel: nat, b: Built, context: set<string>)
    requires f.Valid() && f.steps[f.begin].kind.StartStep? && Construct(g, f, fuel) == Some(Ok(b)) && DefaultsAgree(f)
    ensures DefinitelyAssigned(b, context)
  {
    WithUserStartStep(g, f, fuel, b, context);
    ConstructKeepsStart(g, f, fuel, b);
    StartStepCheckExactly(f, fuel, Traverse(f, Start(f), fuel).value);
    forall v, i: nat | Missing(f, context, v, i) ensures OffersWithoutDefault(f, f.steps[v].inputs[i].name) {
      AgreedNeeds(f, fuel, b.resolution, context, v, i);
      AgreedOffers(f, f.steps[v].inputs[i].name, v, i);
    }
  }
}
