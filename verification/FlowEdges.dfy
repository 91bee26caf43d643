/** Data edges: the check of their constructor, and the edges inferred from equal names. */
module FlowEdges {
  import opened Wrappers
  import opened Properties
  import opened Casting
  import opened Flows
  import opened FlowResolver
  import opened FlowTraversal

  // ---- Data edges ----

  /** The check of the data edge constructor: both descriptors exist and the types can be cast. */
  predicate EdgeFits(outs: seq<Property>, ins: seq<Property>, e: DataEdge) {
    Names(outs, e.output) && Names(ins, e.input) && CanCast(Named(outs, e.output), Named(ins, e.input))
  }

  function OutputsOfSource(f: Flow, s: Source): seq<Property> {
    match s
    case FromStep(u) => if u in f.steps then f.steps[u].outputs else []
    case FromContext(p) => p.outputs
  }

  predicate KnownSource(f: Flow, providers: seq<Provider>, s: Source) {
    match s
    case FromStep(u) => u in f.steps
    case FromContext(p) => p in providers
  }

  /** An edge from this source to this step that joins equal names. */
  predicate Pairs(f: Flow, source: Source, dest: string, e: DataEdge) {
    && e.source == source && e.dest == dest && e.output == e.input
    && Names(OutputsOfSource(f, source), e.output)
    && f.IsInput(dest, e.input)
  }

  /** Equal names of an output of the source and an input of the destination. */
  predicate Matching(f: Flow, providers: seq<Provider>, e: DataEdge) {
    && KnownSource(f, providers, e.source)
    && e.output == e.input
    && Names(OutputsOfSource(f, e.source), e.output)
    && f.IsInput(e.dest, e.input)
  }

  predicate Fits(f: Flow, e: DataEdge) {
    e.dest in f.steps && EdgeFits(OutputsOfSource(f, e.source), f.steps[e.dest].inputs, e)
  }

  lemma {:induction false} NamesGrow(ps: seq<Property>, i: nat, n: string)
    requires i < |ps|
    ensures Names(ps[..i + 1], n) <==> Names(ps[..i], n) || n == ps[i].name
  {
    NameSetGrows(ps, i);
    assert n in NameSet(ps[..i + 1]) <==> n in NameSet(ps[..i]) || n == ps[i].name;
  }

  /** `_infer_data_edges_between_steps`, and its twin for context providers. */
  method InferEdges(f: Flow, source: Source, dest: string) returns (r: Result<seq<DataEdge>, FlowError>)
    requires dest in f.steps
    ensures r.Raise? ==> exists e :: Pairs(f, source, dest, e) && !Fits(f, e)
    ensures r.Ok? ==> forall e :: e in r.value <==> Pairs(f, source, dest, e)
    ensures r.Ok? ==> forall e | e in r.value :: Fits(f, e)
  {
    var outs, ins := OutputsOfSource(f, source), f.steps[dest].inputs;
    var edges: seq<DataEdge> := [];
    for i := 0 to |ins|
      invariant forall e :: e in edges <==> Pairs(f, source, dest, e) && Names(ins[..i], e.input)
      invariant forall e | e in edges :: Fits(f, e)
    {
      ghost var before := edges;
      for j := 0 to |outs|
        invariant forall e :: e in edges <==>
                    || e in before
                    || (Pairs(f, source, dest, e) && e.input == ins[i].name && Names(outs[..j], e.output))
        invariant forall e | e in edges :: Fits(f, e)
      {
        ghost var sofar := edges;
        if outs[j].name == ins[i].name {
          var e := DataEdge(source, outs[j].name, dest, ins[i].name);
          assert Pairs(f, source, dest, e);
          if !EdgeFits(outs, ins, e) {
            return Raise(IncompatibleEdge);
          }
          edges := edges + [e];
        }
        forall e
          ensures e in edges <==>
                    || e in before
                    || (Pairs(f, source, dest, e) && e.input == ins[i].name && Names(outs[..j + 1], e.output))
        {
          NamesGrow(outs, j, e.output);
        }
      }
      assert outs[..|outs|] == outs;
      forall e
        ensures e in edges <==> Pairs(f, source, dest, e) && Names(ins[..i + 1], e.input)
      {
        NamesGrow(ins, i, e.input);
      }
    }
    assert ins[..|ins|] == ins;
    return Ok(edges);
  }

  /** All edges into one step: from the steps first, then from the providers. */
  method InferEdgesInto(f: Flow, providers: seq<Provider>, dest: string) returns (r: Result<seq<DataEdge>, FlowError>)
    requires f.Valid() && dest in f.steps
    ensures r.Raise? ==> exists e :: Matching(f, providers, e) && !Fits(f, e)
    ensures r.Ok? ==> forall e :: e in r.value <==> Matching(f, providers, e) && e.dest == dest
    ensures r.Ok? ==> forall e | e in r.value :: Fits(f, e)
  {
    var sources := seq(|f.order|, i requires 0 <= i < |f.order| => FromStep(f.order[i]))
      + seq(|providers|, i requires 0 <= i < |providers| => FromContext(providers[i]));
    SourcesAreAll(f, providers, sources);
    var edges: seq<DataEdge> := [];
    for j := 0 to |sources|
      invariant forall e :: e in edges <==> Matching(f, providers, e) && e.dest == dest && e.source in sources[..j]
      invariant forall e | e in edges :: Fits(f, e)
    {
      var more := InferEdges(f, sources[j], dest);
      assert KnownSource(f, providers, sources[j]);
      if more.Raise? {
        ghost var e :| Pairs(f, sources[j], dest, e) && !Fits(f, e);
        assert Matching(f, providers, e);
        return Raise(more.error);
      }
      ghost var before := edges;
      edges := edges + more.value;
      forall e
        ensures e in edges <==> Matching(f, providers, e) && e.dest == dest && e.source in sources[..j + 1]
      {
        assert sources[..j + 1] == sources[..j] + [sources[j]];
        assert e in edges <==> e in before || Pairs(f, sources[j], dest, e);
      }
    }
    assert sources[..|sources|] == sources;
    return Ok(edges);
  }

  lemma {:induction false} SourcesAreAll(f: Flow, providers: seq<Provider>, sources: seq<Source>)
    requires f.Valid()
    requires sources == seq(|f.order|, i requires 0 <= i < |f.order| => FromStep(f.order[i]))
      + seq(|providers|, i requires 0 <= i < |providers| => FromContext(providers[i]))
    ensures forall s :: s in sources <==> KnownSource(f, providers, s)
  {
    var n := |f.order|;
    forall s | KnownSource(f, providers, s) ensures s in sources {
      if s.FromStep? {
        var i :| 0 <= i < n && f.order[i] == s.step;
        assert sources[i] == s;
      } else {
        var i :| 0 <= i < |providers| && providers[i] == s.provider;
        assert sources[n + i] == s;
      }
    }
  }

  /** `_create_data_edges_for_implicit_data_edges`: an edge for every pair of equal names, or an exception. */
  method CreateImplicitEdges(f: Flow, providers: seq<Provider>) returns (r: Result<seq<DataEdge>, FlowError>)
    requires f.Valid()
    ensures r.Ok? ==> forall e :: e in r.value <==> Matching(f, providers, e)
    ensures r.Ok? <==> forall e | Matching(f, providers, e) :: Fits(f, e)
  {
    var edges: seq<DataEdge> := [];
    for i := 0 to |f.order|
      invariant forall e :: e in edges <==> Matching(f, providers, e) && e.dest in f.order[..i]
      invariant forall e | e in edges :: Fits(f, e)
    {
      var more := InferEdgesInto(f, providers, f.order[i]);
      if more.Raise? {
        return Raise(more.error);
      }
      edges := edges + more.value;
      assert f.order[..i + 1] == f.order[..i] + [f.order[i]];
    }
    assert f.order[..|f.order|] == f.order;
    return Ok(edges);
  }
}
