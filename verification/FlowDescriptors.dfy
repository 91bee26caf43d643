/** Where the descriptors of a flow's outputs come from: the last step that produces the name on one control path. */
module FlowDescriptors {
  import opened Wrappers
  import opened Properties
  import opened MustAnalysis
  import opened Flows
  import opened FlowResolver
  import opened VisitOrder

  /** The descriptor of the last step on the path that produces the name. */
  function LastProduced(f: Flow, p: seq<string>, n: string): Option<Property> {
    if p == [] then None
    else
      var v := p[|p| - 1];
      if v in f.steps && Names(f.steps[v].outputs, n) then Some(Named(f.steps[v].outputs, n))
      else LastProduced(f, p[..|p| - 1], n)
  }

  ghost predicate AlongPath(f: Flow, p: seq<string>, m: map<string, Property>) {
    forall n | n in m :: LastProduced(f, p, n) == Some(m[n])
  }

  /** The names carried to v have the descriptors they get on some path to v, before v itself. */
  ghost predicate ArrivesAlong(f: Flow, v: string, m: map<string, Property>) {
    exists p :: PathTo(GraphOf(f), p, v) && AlongPath(f, p[..|p| - 1], m)
  }

  ghost predicate RecordedAlong(f: Flow, v: string, m: map<string, Property>) {
    exists p :: PathTo(GraphOf(f), p, v) && AlongPath(f, p, m)
  }

  lemma {:induction false} AddOutputsGives(m: map<string, Property>, ps: seq<Property>, n: string)
    requires Distinct(ps) && n in AddOutputs(m, ps)
    ensures AddOutputs(m, ps)[n] == if Names(ps, n) then Named(ps, n) else m[n]
    decreases |ps|
  {
    if ps != [] {
      var k := |ps| - 1;
      NamedLast(ps, k, n);
      if n != ps[k].name {
        AddOutputsGives(m, ps[..k], n);
      }
    }
  }

  /** After a visit the step's own outputs stand for their names, and the others are as they arrived. */
  lemma {:induction false} VisitAlong(f: Flow, p: seq<string>, v: string, m: map<string, Property>)
    requires f.Valid() && v in f.steps && PathTo(GraphOf(f), p, v) && AlongPath(f, p[..|p| - 1], m)
    ensures AlongPath(f, p, AddOutputs(m, f.steps[v].outputs))
  {
    forall n | n in AddOutputs(m, f.steps[v].outputs)
      ensures LastProduced(f, p, n) == Some(AddOutputs(m, f.steps[v].outputs)[n])
    {
      AddOutputsGives(m, f.steps[v].outputs, n);
    }
  }

  lemma {:induction false} PushedAlong(f: Flow, v: string, m: map<string, Property>, w: string)
    requires f.Valid() && RecordedAlong(f, v, m) && w in Known(f.NextNames(v))
    ensures ArrivesAlong(f, w, m)
  {
    var p :| PathTo(GraphOf(f), p, v) && AlongPath(f, p, m);
    GraphValid(f);
    PathExtends(GraphOf(f), p, v, w);
    assert PathTo(GraphOf(f), p + [w], w) && (p + [w])[..|p + [w]| - 1] == p;
  }

  ghost predicate QueueAlong(f: Flow, q: seq<Arrival>) {
    forall i | 0 <= i < |q| :: ArrivesAlong(f, q[i].step, q[i].carried.mapped)
  }

  ghost predicate VisitedAlong(f: Flow, visited: map<string, Carried>) {
    forall v | v in visited :: RecordedAlong(f, v, visited[v].mapped)
  }

  ghost predicate ExitsAlong(f: Flow, x: Exits) {
    && (forall v | v in x.at :: RecordedAlong(f, v, x.at[v]))
    && (x.first.Some? ==> x.first.value in x.at)
  }

  ghost predicate AllAlong(f: Flow, s: Resolver) {
    QueueAlong(f, s.queue) && VisitedAlong(f, s.visited) && ExitsAlong(f, s.exits)
  }

  lemma {:induction false} BroughtIsCarried(s: Resolver)
    requires s.queue != []
    ensures var m := s.queue[|s.queue| - 1].carried.mapped;
      forall n | n in Brought(s).mapped :: n in m && Brought(s).mapped[n] == m[n]
  {
  }

  lemma {:induction false} FewerAlong(f: Flow, v: string, m: map<string, Property>, fewer: map<string, Property>)
    requires ArrivesAlong(f, v, m) && forall n | n in fewer :: n in m && fewer[n] == m[n]
    ensures ArrivesAlong(f, v, fewer)
  {
    var p :| PathTo(GraphOf(f), p, v) && AlongPath(f, p[..|p| - 1], m);
    FewerOnPath(f, p[..|p| - 1], m, fewer);
  }

  lemma {:induction false} FewerOnPath(f: Flow, p: seq<string>, m: map<string, Property>, fewer: map<string, Property>)
    requires AlongPath(f, p, m) && forall n | n in fewer :: n in m && fewer[n] == m[n]
    ensures AlongPath(f, p, fewer)
  {
  }

  lemma {:induction false} BroughtAlong(f: Flow, s: Resolver)
    requires QueueAlong(f, s.queue) && s.queue != []
    ensures ArrivesAlong(f, s.queue[|s.queue| - 1].step, Brought(s).mapped)
  {
    var a := s.queue[|s.queue| - 1];
    BroughtIsCarried(s);
    FewerAlong(f, a.step, a.carried.mapped, Brought(s).mapped);
  }

  lemma {:induction false} OutputsAlong(f: Flow, v: string, m: map<string, Property>)
    requires f.Valid() && v in f.steps && ArrivesAlong(f, v, m)
    ensures RecordedAlong(f, v, AddOutputs(m, f.steps[v].outputs))
  {
    var p :| PathTo(GraphOf(f), p, v) && AlongPath(f, p[..|p| - 1], m);
    VisitAlong(f, p, v, m);
  }

  lemma {:induction false} ArrivalsAlong(f: Flow, q: seq<Arrival>, v: string, out: Carried)
    requires f.Valid() && QueueAlong(f, q) && RecordedAlong(f, v, out.mapped)
    ensures QueueAlong(f, q + Arrivals(Known(f.NextNames(v)), out))
  {
    forall w | w in Known(f.NextNames(v)) ensures ArrivesAlong(f, w, out.mapped) {
      PushedAlong(f, v, out.mapped, w);
    }
  }

  lemma {:induction false} VisitIs(f: Flow, s: Resolver, v: string, c: Carried)
    requires v in f.steps && Visit(f, s, v, c).Ok?
    ensures var t, out := Visit(f, s, v, c).value, Visit(f, s, v, c).value.visited[v];
      && out.mapped == AddOutputs(c.mapped, f.steps[v].outputs)
      && t.queue == s.queue + Arrivals(Known(f.NextNames(v)), out)
      && t.visited == s.visited[v := out]
      && t.exits == VisitExits(f, s.exits, v, out.mapped)
  {
  }

  lemma {:induction false} VisitAllAlong(f: Flow, s: Resolver, v: string, c: Carried)
    requires f.Valid() && AllAlong(f, s) && v in f.steps && ArrivesAlong(f, v, c.mapped) && Visit(f, s, v, c).Ok?
    ensures AllAlong(f, Visit(f, s, v, c).value)
  {
    var t := Visit(f, s, v, c).value;
    var out := t.visited[v];
    VisitIs(f, s, v, c);
    OutputsAlong(f, v, c.mapped);
    ArrivalsAlong(f, s.queue, v, out);
    OneMoreAlong(f, s.visited, s.exits, v, out);
  }

  lemma {:induction false} OneMoreAlong(f: Flow, visited: map<string, Carried>, x: Exits, v: string, out: Carried)
    requires v in f.steps && VisitedAlong(f, visited) && ExitsAlong(f, x) && RecordedAlong(f, v, out.mapped)
    ensures VisitedAlong(f, visited[v := out]) && ExitsAlong(f, VisitExits(f, x, v, out.mapped))
  {
  }

  lemma {:induction false} IterateAllAlong(f: Flow, s: Resolver)
    requires f.Valid() && AllAlong(f, s) && QueueKnown(f, s) && s.queue != [] && Iterate(f, s).Ok?
    ensures AllAlong(f, Iterate(f, s).value)
  {
    if !Skips(s) {
      BroughtAlong(f, s);
      VisitAllAlong(f, Rest(s), s.queue[|s.queue| - 1].step, Brought(s));
    }
  }

  lemma {:induction false} StartAlong(f: Flow)
    requires f.Valid()
    ensures AllAlong(f, Start(f))
  {
    assert PathTo(GraphOf(f), [f.begin], f.begin) && AlongPath(f, [f.begin][..0], NOTHING.mapped);
  }

  lemma {:induction false} TraverseAllAlong(f: Flow, n: nat, s: Resolver)
    requires f.Valid() && Traverse(f, Start(f), n) == Ok(s)
    ensures AllAlong(f, s)
  {
    var kept := (t: Resolver) => f.Valid() && AllAlong(f, t);
    forall t | kept(t) && QueueKnown(f, t) && t.queue != [] && Iterate(f, t).Ok? ensures kept(Iterate(f, t).value) {
      IterateAllAlong(f, t);
    }
    StartAlong(f);
    TraverseKeeps(f, Start(f), n, kept);
  }

  /** Every recorded name has the descriptor of the last step that produces it, all on one path to the step. */
  lemma {:induction false} RecordedFollowPath(f: Flow, n: nat, s: Resolver, v: string)
    requires f.Valid() && Traverse(f, Start(f), n) == Ok(s) && v in s.visited
    ensures RecordedAlong(f, v, s.visited[v].mapped)
  {
    TraverseAllAlong(f, n, s);
  }

  /** So have the flow's outputs, all from one path to the exit visited first (`FirstExitDecides`). */
  lemma {:induction false} OutputsFollowPath(f: Flow, n: nat, s: Resolver)
    requires f.Valid() && Traverse(f, Start(f), n) == Ok(s) && OutputsOf(s.exits) != map[]
    ensures s.exits.first.Some? && RecordedAlong(f, s.exits.first.value, OutputsOf(s.exits))
  {
    TraverseAllAlong(f, n, s);
    var v := s.exits.first.value;
    var p :| PathTo(GraphOf(f), p, v) && AlongPath(f, p, s.exits.at[v]);
    FewerOnPath(f, p, s.exits.at[v], OutputsOf(s.exits));
  }

  /** The first exit among the visits. */
  function FirstExit(f: Flow, visits: seq<Arrival>): Option<string> {
    if visits == [] then None
    else
      var before := FirstExit(f, visits[..|visits| - 1]);
      if before.Some? then before
      else if f.IsExit(visits[|visits| - 1].step) then Some(visits[|visits| - 1].step) else None
  }

  lemma {:induction false} FirstExitDecides(f: Flow, n: nat, s: Resolver)
    requires f.Valid() && Traverse(f, Start(f), n) == Ok(s)
    ensures s.exits.first == FirstExit(f, Visits(f, n))
  {
    var next := Advanced(f);
    var related := (t: Resolver, vs: seq<Arrival>) => QueueKnown(f, t) && t.exits.first == FirstExit(f, vs);
    forall t, vs | related(t, vs) && t.queue != [] && next(t).Ok? ensures related(next(t).value, vs + Visited(t)) {
      IterateQueueKnown(f, t);
      IterateExits(f, t, vs);
    }
    assert Start(f).exits.first == None && FirstExit(f, []) == None;
    LoopRelates(next, Start(f), n, [], Visited, related);
    assert [] + Visits(f, n) == Visits(f, n);
  }

  lemma {:induction false} FirstExitSnoc(f: Flow, visits: seq<Arrival>, a: Arrival)
    ensures FirstExit(f, visits + [a]) ==
            if FirstExit(f, visits).Some? then FirstExit(f, visits)
            else if f.IsExit(a.step) then Some(a.step) else None
  {
    assert (visits + [a])[..|visits|] == visits;
  }

  lemma {:induction false} IterateExits(f: Flow, s: Resolver, visits: seq<Arrival>)
    requires QueueKnown(f, s) && s.queue != [] && Iterate(f, s).Ok? && s.exits.first == FirstExit(f, visits)
    ensures Iterate(f, s).value.exits.first == FirstExit(f, visits + Visited(s))
  {
    if Skips(s) {
      assert visits + [] == visits;
    } else {
      var v := s.queue[|s.queue| - 1].step;
      VisitIs(f, Rest(s), v, Brought(s));
      FirstExitSnoc(f, visits, Arrival(v, Brought(s)));
    }
  }

  /** Every name comes with an output descriptor of that name of some step. */
  ghost predicate DescribesOutputs(f: Flow, m: map<string, Property>) {
    forall n | n in m :: m[n].name == n && exists v :: v in f.steps && m[n] in f.steps[v].outputs
  }

  lemma {:induction false} ProducedIsDescribed(f: Flow, p: seq<string>, n: string)
    requires LastProduced(f, p, n).Some?
    ensures var d := LastProduced(f, p, n).value; d.name == n && exists v :: v in f.steps && d in f.steps[v].outputs
    decreases |p|
  {
    var v := p[|p| - 1];
    if !(v in f.steps && Names(f.steps[v].outputs, n)) {
      ProducedIsDescribed(f, p[..|p| - 1], n);
    }
  }

  /** A flow output is described by an output descriptor of that name of some step. */
  lemma {:induction false} OutputsDescribed(f: Flow, n: nat, s: Resolver)
    requires f.Valid() && Traverse(f, Start(f), n) == Ok(s)
    ensures DescribesOutputs(f, OutputsOf(s.exits))
  {
    if OutputsOf(s.exits) != map[] {
      OutputsFollowPath(f, n, s);
      var p :| PathTo(GraphOf(f), p, s.exits.first.value) && AlongPath(f, p, OutputsOf(s.exits));
      forall m | m in OutputsOf(s.exits)
        ensures OutputsOf(s.exits)[m].name == m
        ensures exists v :: v in f.steps && OutputsOf(s.exits)[m] in f.steps[v].outputs
      {
        ProducedIsDescribed(f, p, m);
      }
    }
  }
}
