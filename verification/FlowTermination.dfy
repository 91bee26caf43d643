/** Exactly which flows the resolver decides, and a family on which its loop never ends. */
module FlowTermination {
  import opened Wrappers
  import opened Properties
  import opened Casting
  import opened MustAnalysis
  import opened LoopTermination
  import opened Flows
  import opened FlowResolver
  import opened VisitOrder
  import opened FlowTraversal
  import opened FlowPaths

  // ---- Live control edges, in terms of the flow ----

  /** A step of the path feeds this input. */
  ghost predicate FedOn(f: Flow, p: seq<string>, v: string, input: string) {
    exists i | 0 <= i < |p| :: Feeds(f, p[i], v, input)
  }

  ghost predicate AlwaysFed(f: Flow, u: string, v: string, input: string) {
    forall p | PathTo(GraphOf(f), p, u) :: FedOn(f, p, v, input)
  }

  /** The step w produces a name that some path through u has not produced. */
  ghost predicate NewName(f: Flow, u: string, w: string) {
    w in f.steps && exists n :: Names(f.steps[w].outputs, n) && !AlwaysProduced(f, u, n)
  }

  /** The step w feeds an input that some path through u has not fed. */
  ghost predicate NewFeed(f: Flow, u: string, w: string) {
    exists v, input :: Feeds(f, w, v, input) && !AlwaysFed(f, u, v, input)
  }

  lemma {:induction false} MissesIsNotFed(f: Flow, u: string, v: string, input: string)
    requires f.Valid()
    ensures MissesThrough(GraphOf(f), u, Fed(v, input)) <==> !AlwaysFed(f, u, v, input)
  {
    var g := GraphOf(f);
    forall p | PathTo(g, p, u) ensures Avoids(g, p, Fed(v, input)) <==> !FedOn(f, p, v, input) {
      forall i | 0 <= i < |p| ensures Fed(v, input) !in g.gen[p[i]] <==> !Feeds(f, p[i], v, input) {
        GenFeeds(f, p[i], v, input);
      }
    }
  }

  lemma {:induction false} NewNameMeans(f: Flow, u: string, w: string)
    requires f.Valid() && w in f.steps
    ensures NewName(f, u, w) <==>
              exists n :: Produced(n) in GraphOf(f).gen[w] && MissesThrough(GraphOf(f), u, Produced(n))
  {
    forall n
      ensures Produced(n) in GraphOf(f).gen[w] <==> Names(f.steps[w].outputs, n)
      ensures MissesThrough(GraphOf(f), u, Produced(n)) <==> !AlwaysProduced(f, u, n)
    {
      GenProduces(f, w, n);
      MissesIsNotProduced(f, u, n);
    }
  }

  lemma {:induction false} NewFeedMeans(f: Flow, u: string, w: string)
    requires f.Valid() && w in f.steps
    ensures NewFeed(f, u, w) <==>
              exists v, input ::
                Fed(v, input) in GraphOf(f).gen[w] && MissesThrough(GraphOf(f), u, Fed(v, input))
  {
    forall v, input
      ensures Fed(v, input) in GraphOf(f).gen[w] <==> Feeds(f, w, v, input)
      ensures MissesThrough(GraphOf(f), u, Fed(v, input)) <==> !AlwaysFed(f, u, v, input)
    {
      GenFeeds(f, w, v, input);
      MissesIsNotFed(f, u, v, input);
    }
  }

  lemma {:induction false} SomeFact(holds: Fact -> bool)
    ensures (exists x :: holds(x)) <==> (exists n :: holds(Produced(n))) || (exists v, input :: holds(Fed(v, input)))
  {
    if x :| holds(x) {
      match x
      case Produced(n) => assert holds(Produced(n));
      case Fed(v, input) => assert holds(Fed(v, input));
    }
  }

  /** A control edge is live iff its destination produces a name or feeds an input that its source may still lack. */
  lemma {:induction false} LiveExactly(f: Flow, u: string, w: string)
    requires f.Valid()
    ensures Live(GraphOf(f), u, w) <==> Edge(GraphOf(f), u, w) && (NewName(f, u, w) || NewFeed(f, u, w))
  {
    var g := GraphOf(f);
    if Edge(g, u, w) {
      EdgeMeans(f, u, w);
      NewNameMeans(f, u, w);
      NewFeedMeans(f, u, w);
      SomeFact((x: Fact) => x in g.gen[w] && MissesThrough(g, u, x));
    }
  }

  // ---- The resolver decides exactly these flows ----

  /** The resolver has come to results or an exception. */
  predicate Decides(f: Flow, n: nat)
    requires f.Valid()
  {
    Outcome(f, n).Some?
  }

  predicate Raises(f: Flow, n: nat)
    requires f.Valid()
  {
    Traverse(f, Start(f), n).Raise?
  }

  lemma {:induction false} DecidesExactly(f: Flow, n: nat)
    requires f.Valid()
    ensures Decides(f, n) <==> Raises(f, n) || Run(GraphOf(f), Init(GraphOf(f)), n).queue == []
  {
    TraverseMatches(f, n);
  }

  /** With a live cycle, only an exception ends the loop. */
  lemma {:induction false} LiveDecidesExactly(f: Flow, n: nat)
    requires f.Valid() && HasLiveCycle(GraphOf(f))
    ensures Decides(f, n) <==> Raises(f, n)
  {
    GraphValid(f);
    var c :| LiveCycle(GraphOf(f), c);
    LiveCycleNeverStops(GraphOf(f), c, n);
    DecidesExactly(f, n);
  }

  lemma {:induction false} DecidesEnough(f: Flow)
    requires f.Valid() && !HasLiveCycle(GraphOf(f))
    ensures Decides(f, Enough(GraphOf(f)))
  {
    GraphValid(f);
    StopsWithoutLiveCycle(GraphOf(f));
    DecidesExactly(f, Enough(GraphOf(f)));
  }

  /** Some number of iterations leads to results or an exception iff an exception is met or no cycle is live. */
  lemma {:induction false} ResolverStopsExactly(f: Flow)
    requires f.Valid()
    ensures (exists n: nat :: Decides(f, n)) <==> (exists n: nat :: Raises(f, n)) || !HasLiveCycle(GraphOf(f))
  {
    forall n: nat | HasLiveCycle(GraphOf(f)) ensures Decides(f, n) <==> Raises(f, n) {
      LiveDecidesExactly(f, n);
    }
    if !HasLiveCycle(GraphOf(f)) {
      DecidesEnough(f);
    }
  }

  /** When every loop has a single entry, enough iterations always lead to results or an exception. */
  lemma {:induction false} ResolverTerminates(f: Flow)
    requires f.Valid() && SingleEntryLoops(GraphOf(f))
    ensures Outcome(f, Enough(GraphOf(f))).Some?
  {
    SingleEntryIsNotLive(GraphOf(f));
    DecidesEnough(f);
  }

  // ---- Exactly what raises ----

  /** The visit misses this input, nothing was given as data edges, and the descriptor kept does not cast into it. */
  predicate Clashes(f: Flow, v: string, keys: set<IoKey>, resolved: map<string, Property>, p: Property) {
    && f.data == [] && IoKey(v, p.name) !in keys && !f.HasContext(v, p.name)
    && p.name in resolved && !CanCast(resolved[p.name], p)
  }

  lemma {:induction false} AddInputsLeaveOthers(
    f: Flow, v: string, keys: set<IoKey>, x: Inputs, ps: seq<Property>, name: string)
    requires AddInputs(f, v, keys, x, ps).Ok? && !Names(ps, name)
    ensures Stored(AddInputs(f, v, keys, x, ps).value.resolved, name) == Stored(x.resolved, name)
    decreases |ps|
  {
    if ps != [] {
      var n := |ps| - 1;
      assert forall i | 0 <= i < n :: ps[..n][i] == ps[i];
      AddInputsLeaveOthers(f, v, keys, x, ps[..n], name);
    }
  }

  lemma {:induction false} AddInputsRaiseExactly(f: Flow, v: string, keys: set<IoKey>, x: Inputs, ps: seq<Property>)
    requires Distinct(ps)
    ensures AddInputs(f, v, keys, x, ps).Raise? <==> exists p | p in ps :: Clashes(f, v, keys, x.resolved, p)
    ensures AddInputs(f, v, keys, x, ps).Raise? ==> AddInputs(f, v, keys, x, ps).error == IncompatibleInputs
    decreases |ps|
  {
    if ps != [] {
      var n := |ps| - 1;
      var p := ps[n];
      NamedLast(ps, n, p.name);
      AddInputsRaiseExactly(f, v, keys, x, ps[..n]);
      assert forall q :: q in ps <==> q in ps[..n] || q == p;
      if AddInputs(f, v, keys, x, ps[..n]).Ok? {
        var mid := AddInputs(f, v, keys, x, ps[..n]).value;
        AddInputsLeaveOthers(f, v, keys, x, ps[..n], p.name);
        assert p.name in mid.resolved <==> p.name in x.resolved;
        assert Clashes(f, v, keys, mid.resolved, p) <==> Clashes(f, v, keys, x.resolved, p);
        assert AddInput(f, v, keys, mid, p).Raise? <==> Clashes(f, v, keys, mid.resolved, p);
      }
    }
  }

  /** A data edge from an unknown step, or from v to one. */
  predicate Dangles(f: Flow, v: string, e: DataEdge) {
    e.source.FromStep? && (e.source.step !in f.steps || (e.source.step == v && e.dest !in f.steps))
  }

  lemma {:induction false} AddFedRaisesExactly(f: Flow, v: string, keys: set<IoKey>, es: seq<DataEdge>)
    ensures AddFed(f, v, keys, es).Raise? <==> exists e | e in es :: Dangles(f, v, e)
    ensures AddFed(f, v, keys, es).Raise? ==> AddFed(f, v, keys, es).error in {DanglingDestination, DanglingSource}
    decreases |es|
  {
    if es != [] {
      var n := |es| - 1;
      AddFedRaisesExactly(f, v, keys, es[..n]);
      assert es[n] in es && forall e :: e in es <==> e in es[..n] || e == es[n];
      assert AddFed(f, v, keys, es).Raise? <==> AddFed(f, v, keys, es[..n]).Raise? || Dangles(f, v, es[n]);
    }
  }

  /** What the next iteration objects to, if it visits a step. */
  ghost predicate Objects(f: Flow, v: string, keys: set<IoKey>, resolved: map<string, Property>)
    requires v in f.steps
  {
    || (exists p | p in f.steps[v].inputs :: Clashes(f, v, keys, resolved, p))
    || (exists e | e in f.data :: Dangles(f, v, e))
  }

  lemma {:induction false} IterationRaisesExactly(f: Flow, s: Resolver)
    requires f.Valid() && QueueKnown(f, s) && s.queue != []
    ensures Iterate(f, s).Raise? <==>
              !Skips(s) && Objects(f, s.queue[|s.queue| - 1].step, Brought(s).keys, s.inputs.resolved)
  {
    if !Skips(s) {
      var v := s.queue[|s.queue| - 1].step;
      AddInputsRaiseExactly(f, v, Brought(s).keys, s.inputs, f.steps[v].inputs);
      AddFedRaisesExactly(f, v, Brought(s).keys, f.data);
    }
  }

  /**
   * After n iterations the next one visits a step with something to object to: a data edge with an unknown end, or,
   * without data edges, a missing input into which the last descriptor that missed its name does not cast.
   */
  ghost predicate ObjectsAfter(f: Flow, n: nat)
    requires f.Valid()
  {
    exists s ::
      && Traverse(f, Start(f), n) == Ok(s) && QueueKnown(f, s) && s.queue != [] && !Skips(s)
      && var v := s.queue[|s.queue| - 1].step;
         || (exists e | e in f.data :: Dangles(f, v, e))
         || (exists p | p in f.steps[v].inputs ::
               && f.data == [] && IoKey(v, p.name) !in Brought(s).keys && !f.HasContext(v, p.name)
               && Kept(f, n, p.name).Some? && !CanCast(Kept(f, n, p.name).value, p))
  }

  lemma {:induction false} ObjectsAfterExactly(f: Flow, n: nat)
    requires f.Valid()
    ensures StopsAfter(Advanced(f), Start(f), n) <==> ObjectsAfter(f, n)
  {
    var t := Traverse(f, Start(f), n);
    if t.Ok? {
      var s := t.value;
      TraverseKnown(f, n, s);
      forall name ensures Kept(f, n, name) == Stored(s.inputs.resolved, name) {
        LastMissDecides(f, n, s, name);
      }
      if s.queue != [] {
        IterationRaisesExactly(f, s);
      }
    }
  }

  lemma {:induction false} TraverseKnown(f: Flow, n: nat, s: Resolver)
    requires f.Valid() && Traverse(f, Start(f), n) == Ok(s)
    ensures QueueKnown(f, s)
  {
    var next := Advanced(f);
    var known := (t: Resolver) => QueueKnown(f, t);
    forall t | known(t) && t.queue != [] && next(t).Ok? ensures known(next(t).value) {
      IterateQueueKnown(f, t);
    }
    LoopKeeps(next, Start(f), n, known);
  }

  /** The resolver raises within n iterations iff one of them objects. */
  lemma {:induction false} RaisesExactly(f: Flow, n: nat)
    requires f.Valid()
    ensures Raises(f, n) <==> exists m: nat | m < n :: ObjectsAfter(f, m)
  {
    LoopRaisesExactly(Advanced(f), Start(f), n);
    forall m: nat ensures StopsAfter(Advanced(f), Start(f), m) <==> ObjectsAfter(f, m) {
      ObjectsAfterExactly(f, m);
    }
  }

  // ---- Flows on which no iteration raises ----

  /** Data edges have both ends; without data edges, inputs of one name cast to each other. */
  ghost predicate Unobjectionable(f: Flow) {
    && (forall e | e in f.data && e.source.FromStep? :: e.source.step in f.steps && e.dest in f.steps)
    && (f.data == [] ==> forall u, v, p, q |
          u in f.steps && v in f.steps && p in f.steps[u].inputs && q in f.steps[v].inputs && p.name == q.name ::
          CanCast(p, q))
  }

  lemma {:induction false} NeverDangles(f: Flow, v: string, keys: set<IoKey>, es: seq<DataEdge>)
    requires Unobjectionable(f) && forall e | e in es :: e in f.data
    ensures AddFed(f, v, keys, es).Ok?
    decreases |es|
  {
    if es != [] {
      NeverDangles(f, v, keys, es[..|es| - 1]);
      assert es[|es| - 1] in f.data;
    }
  }

  lemma {:induction false} InputsFit(f: Flow, v: string, keys: set<IoKey>, x: Inputs, ps: seq<Property>)
    requires Unobjectionable(f) && v in f.steps && (forall p | p in ps :: p in f.steps[v].inputs) && InputsListed(f, x)
    ensures AddInputs(f, v, keys, x, ps).Ok?
    decreases |ps|
  {
    if ps != [] {
      var n := |ps| - 1;
      InputsFit(f, v, keys, x, ps[..n]);
      AddInputsListed(f, v, keys, x, ps[..n]);
      InputFits(f, v, keys, AddInputs(f, v, keys, x, ps[..n]).value, ps[n]);
    }
  }

  lemma {:induction false} InputFits(f: Flow, v: string, keys: set<IoKey>, x: Inputs, p: Property)
    requires Unobjectionable(f) && v in f.steps && p in f.steps[v].inputs && InputsListed(f, x)
    ensures AddInput(f, v, keys, x, p).Ok?
  {
    if p.name in x.resolved {
      assert InputListed(f, x, p.name);
    }
  }

  lemma {:induction false} IterationFits(f: Flow, s: Resolver)
    requires Unobjectionable(f) && QueueKnown(f, s) && s.queue != [] && InputsListed(f, s.inputs)
    ensures Iterate(f, s).Ok? && InputsListed(f, Iterate(f, s).value.inputs)
  {
    if !Skips(s) {
      var v := s.queue[|s.queue| - 1].step;
      InputsFit(f, v, Brought(s).keys, s.inputs, f.steps[v].inputs);
      AddInputsListed(f, v, Brought(s).keys, s.inputs, f.steps[v].inputs);
      NeverDangles(f, v, Brought(s).keys, f.data);
    }
  }

  lemma {:induction false} NeverRaises(f: Flow, n: nat)
    requires f.Valid() && Unobjectionable(f)
    ensures Traverse(f, Start(f), n).Ok?
  {
    var next := Advanced(f);
    var fits := (t: Resolver) => QueueKnown(f, t) && InputsListed(f, t.inputs);
    forall t | fits(t) && t.queue != [] ensures next(t).Ok? && fits(next(t).value) {
      IterateQueueKnown(f, t);
      IterationFits(f, t);
    }
    LoopReturns(next, Start(f), n, fits);
  }

  /** On such flows the resolver ends iff no cycle is live. */
  lemma {:induction false} UnobjectionableStopsExactly(f: Flow)
    requires f.Valid() && Unobjectionable(f)
    ensures (exists n: nat :: Decides(f, n)) <==> !HasLiveCycle(GraphOf(f))
  {
    forall n: nat ensures !Raises(f, n) {
      NeverRaises(f, n);
    }
    ResolverStopsExactly(f);
  }
}
