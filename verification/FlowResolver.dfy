/** The resolver of flow inputs and outputs, step by step as the traversal runs. */
module FlowResolver {
  import opened Wrappers
  import opened Properties
  import opened Casting
  import opened MustAnalysis
  import opened Flows

  datatype FlowError =
    | IncompatibleInputs | DanglingDestination | DanglingSource | MissingStartInput
    | MissingDefault | ConflictingInputs | DuplicateInputs | IncompatibleEdge | UnknownStep | BadStart | UnknownInput
    | ProviderCollision | LooseStep | DuplicateNames

  /** What one pass of the traversal carries to a step, and what is recorded there. */
  datatype Carried = Carried(keys: set<IoKey>, mapped: map<string, Property>)

  datatype Arrival = Arrival(step: string, carried: Carried)

  /** The inputs found missing so far: `names` is the insertion order of the dictionaries. */
  datatype Inputs = Inputs(
    names: seq<string>, resolved: map<string, Property>, keys: map<string, seq<IoKey>>,
    conflicts: map<string, seq<Property>>)

  datatype Resolver = Resolver(
    queue: seq<Arrival>, visited: map<string, Carried>, inputs: Inputs, exits: Exits)

  /** What the loop notes at exits, and the names that so far only the StartStep declares. */
  datatype Exits = Exits(at: map<string, map<string, Property>>, first: Option<string>, startOnly: set<string>)

  const NOTHING := Carried({}, map[])

  const NO_INPUTS := Inputs([], map[], map[], map[])

  function Start(f: Flow): Resolver
    requires f.Valid()
  {
    Resolver([Arrival(f.begin, NOTHING)], map[], NO_INPUTS,
             Exits(map[], None,
                   if f.steps[f.begin].kind.StartStep? then NameSet(f.steps[f.begin].outputs) else {}))
  }

  // ---- One iteration ----

  /** Every recorded key and name also arrives. */
  predicate Arrives(known: Carried, c: Carried) {
    known.keys <= c.keys && known.mapped.Keys <= c.mapped.Keys
  }

  function Meet(known: Carried, c: Carried): Carried {
    Carried(set k | k in c.keys && k in known.keys, map n | n in c.mapped && n in known.mapped :: c.mapped[n])
  }

  function Listed(q: map<string, seq<IoKey>>, n: string): seq<IoKey> {
    if n in q then q[n] else []
  }

  /** One input of the visited step. */
  function AddInput(f: Flow, v: string, keys: set<IoKey>, acc: Inputs, p: Property): Result<Inputs, FlowError> {
    if f.HasContext(v, p.name) || IoKey(v, p.name) in keys then Ok(acc)
    else if p.name in acc.resolved && f.data == [] && !CanCast(acc.resolved[p.name], p) then Raise(IncompatibleInputs)
    else
      Ok(Inputs(
           if p.name in acc.resolved then acc.names else acc.names + [p.name],
           acc.resolved[p.name := p],
           acc.keys[p.name := Listed(acc.keys, p.name) + [IoKey(v, p.name)]],
           if p.name !in acc.resolved then acc.conflicts
           else acc.conflicts[p.name := (if p.name in acc.conflicts then acc.conflicts[p.name] else []) + [p]]))
  }

  function AddInputs(f: Flow, v: string, keys: set<IoKey>, acc: Inputs, ps: seq<Property>): Result<Inputs, FlowError> {
    if ps == [] then Ok(acc)
    else
      var before :- AddInputs(f, v, keys, acc, ps[..|ps| - 1]);
      AddInput(f, v, keys, before, ps[|ps| - 1])
  }

  /** The data edges leaving the visited step; an edge whose ends are unknown raises. */
  function AddFed(f: Flow, v: string, keys: set<IoKey>, es: seq<DataEdge>): Result<set<IoKey>, FlowError> {
    if es == [] then Ok(keys)
    else
      var e := es[|es| - 1];
      var before :- AddFed(f, v, keys, es[..|es| - 1]);
      if e.source == FromStep(v) && e.dest !in f.steps then Raise(DanglingDestination)
      else if e.source.FromStep? && e.source.step !in f.steps then Raise(DanglingSource)
      else Ok(if e.source == FromStep(v) then before + {IoKey(e.dest, e.input)} else before)
  }

  function AddOutputs(mapped: map<string, Property>, ps: seq<Property>): (r: map<string, Property>)
    ensures r.Keys == mapped.Keys + NameSet(ps)
  {
    if ps == [] then mapped
    else
      var n := |ps| - 1;
      var r := AddOutputs(mapped, ps[..n])[ps[n].name := ps[n]];
      assert forall i | 0 <= i < n :: ps[..n][i] == ps[i];
      assert NameSet(ps) == NameSet(ps[..n]) + {ps[n].name};
      r
  }

  function Arrivals(ws: seq<string>, c: Carried): (r: seq<Arrival>)
    ensures |r| == |ws|
    ensures forall i | 0 <= i < |ws| :: r[i] == Arrival(ws[i], c)
  {
    seq(|ws|, i requires 0 <= i < |ws| => Arrival(ws[i], c))
  }

  /** The whole visit of a step with what is carried to it. */
  function Visit(f: Flow, s: Resolver, v: string, c: Carried): Result<Resolver, FlowError>
    requires v in f.steps
  {
    var step := f.steps[v];
    var inputs :- AddInputs(f, v, c.keys, s.inputs, step.inputs);
    var keys :- AddFed(f, v, c.keys, f.data);
    var out := Carried(keys, AddOutputs(c.mapped, step.outputs));
    Ok(Resolver(
         s.queue + Arrivals(Known(f.NextNames(v)), out),
         s.visited[v := out],
         inputs,
         VisitExits(f, s.exits, v, out.mapped)))
  }

  function VisitExits(f: Flow, x: Exits, v: string, mapped: map<string, Property>): Exits
    requires v in f.steps
  {
    Exits(
      if f.IsExit(v) then x.at[v := mapped] else x.at,
      if f.IsExit(v) && x.first.None? then Some(v) else x.first,
      if f.steps[v].kind.StartStep? then x.startOnly else x.startOnly - NameSet(f.steps[v].outputs))
  }

  /** The popped item is skipped: its step is recorded, and all that is recorded also arrives. */
  predicate Skips(s: Resolver)
    requires s.queue != []
  {
    var a := s.queue[|s.queue| - 1];
    a.step in s.visited && Arrives(s.visited[a.step], a.carried)
  }

  function Rest(s: Resolver): Resolver
    requires s.queue != []
  {
    s.(queue := s.queue[..|s.queue| - 1])
  }

  /** What the popped item carries to its step, if it is not skipped. */
  function Brought(s: Resolver): Carried
    requires s.queue != []
  {
    var a := s.queue[|s.queue| - 1];
    if a.step in s.visited then Meet(s.visited[a.step], a.carried) else a.carried
  }

  function Iterate(f: Flow, s: Resolver): Result<Resolver, FlowError>
    requires s.queue != [] && s.queue[|s.queue| - 1].step in f.steps
  {
    if Skips(s) then Ok(Rest(s)) else Visit(f, Rest(s), s.queue[|s.queue| - 1].step, Brought(s))
  }

  ghost predicate QueueKnown(f: Flow, s: Resolver) {
    forall i | 0 <= i < |s.queue| :: s.queue[i].step in f.steps
  }

  lemma {:induction false} IterateQueueKnown(f: Flow, s: Resolver)
    requires QueueKnown(f, s) && s.queue != []
    ensures Iterate(f, s).Ok? ==> QueueKnown(f, Iterate(f, s).value)
  {
    TargetsAreSteps(f, f.control, s.queue[|s.queue| - 1].step);
  }

  // ---- The loop, for whatever one iteration does ----

  type Iteration = Resolver -> Result<Resolver, FlowError>

  /** At most n iterations of a loop that ends with an empty queue. */
  function Loop(next: Iteration, s: Resolver, n: nat): Result<Resolver, FlowError>
    decreases n
  {
    if n == 0 || s.queue == [] then Ok(s)
    else
      var t :- next(s);
      Loop(next, t, n - 1)
  }

  /** What every iteration keeps, the loop keeps. */
  lemma {:induction false} LoopKeeps(next: Iteration, s: Resolver, n: nat, kept: Resolver -> bool)
    requires kept(s)
    requires forall t | kept(t) && t.queue != [] && next(t).Ok? :: kept(next(t).value)
    ensures Loop(next, s, n).Ok? ==> kept(Loop(next, s, n).value)
    decreases n
  {
    if n > 0 && s.queue != [] && next(s).Ok? {
      LoopKeeps(next, next(s).value, n - 1, kept);
    }
  }

  /** A loop whose every iteration returns does not raise. */
  lemma {:induction false} LoopReturns(next: Iteration, s: Resolver, n: nat, kept: Resolver -> bool)
    requires kept(s)
    requires forall t | kept(t) && t.queue != [] :: next(t).Ok? && kept(next(t).value)
    ensures Loop(next, s, n).Ok?
    decreases n
  {
    if n > 0 && s.queue != [] {
      LoopReturns(next, next(s).value, n - 1, kept);
    }
  }

  /** The iteration after the first m returns nothing but an exception. */
  predicate StopsAfter(next: Iteration, s: Resolver, m: nat) {
    Loop(next, s, m).Ok? && Loop(next, s, m).value.queue != [] && next(Loop(next, s, m).value).Raise?
  }

  /** A loop raises iff one of its iterations does. */
  lemma {:induction false} LoopRaisesExactly(next: Iteration, s: Resolver, n: nat)
    ensures Loop(next, s, n).Raise? <==> exists m: nat | m < n :: StopsAfter(next, s, m)
    decreases n
  {
    if n > 0 && s.queue != [] {
      if next(s).Ok? {
        LoopRaisesExactly(next, next(s).value, n - 1);
        forall m: nat | m < n - 1 ensures StopsAfter(next, next(s).value, m) <==> StopsAfter(next, s, m + 1) {
        }
        assert forall m: nat | 0 < m < n :: StopsAfter(next, s, m) ==> StopsAfter(next, next(s).value, m - 1);
      } else {
        assert StopsAfter(next, s, 0);
      }
    }
  }

  /** One iteration; the traversal never meets a step that the flow does not have. */
  function Advanced(f: Flow): Iteration {
    (s: Resolver) =>
      if s.queue == [] || s.queue[|s.queue| - 1].step !in f.steps then Raise(UnknownStep) else Iterate(f, s)
  }

  /** At most n iterations of the resolver's loop. */
  function Traverse(f: Flow, s: Resolver, n: nat): Result<Resolver, FlowError> {
    Loop(Advanced(f), s, n)
  }

  // ---- The traversal simulates the must-analysis ----

  function FactsOf(c: Carried): set<Fact> {
    Facts(c.keys, c.mapped.Keys)
  }

  /** A recorded required input. */
  predicate Requires(inputs: Inputs, v: string, input: string) {
    input in inputs.keys && IoKey(v, input) in inputs.keys[input]
  }

  /** The concrete state says exactly what the abstract one does. */
  ghost predicate Matches(f: Flow, s: Resolver, a: State)
    requires f.Valid()
  {
    && QueueMatches(s.queue, a.queue)
    && VisitedMatches(f, s.visited, a.low)
    && InputsMatch(f, s.inputs, a.low)
    && ExitsMatch(f, s.visited, s.exits)
  }

  ghost predicate QueueMatches(q: seq<Arrival>, items: seq<Item>) {
    && |q| == |items|
    && forall i | 0 <= i < |q| :: items[i] == Item(q[i].step, FactsOf(q[i].carried))
  }

  ghost predicate VisitedMatches(f: Flow, visited: map<string, Carried>, low: map<string, set<Fact>>) {
    && visited.Keys == low.Keys
    && forall v | v in visited :: v in f.steps && FactsOf(visited[v]) == low[v] + GraphOf(f).gen[v]
  }

  /** An input is required once it was missing on arrival: it is not in the intersection of the arrivals. */
  ghost predicate InputsMatch(f: Flow, inputs: Inputs, low: map<string, set<Fact>>) {
    && inputs.resolved.Keys == inputs.keys.Keys
    && forall v, input ::
         Requires(inputs, v, input) <==>
           f.IsInput(v, input) && !f.HasContext(v, input) && v in low && Fed(v, input) !in low[v]
  }

  ghost predicate ExitsMatch(f: Flow, visited: map<string, Carried>, x: Exits)
    requires f.Valid()
  {
    && (forall v :: v in x.at <==> v in visited && f.IsExit(v))
    && (forall v | v in x.at :: x.at[v] == visited[v].mapped)
    && (x.first.Some? ==> x.first.value in x.at)
    && (x.at != map[] ==> x.first.Some?)
    && forall n :: n in x.startOnly <==>
         && f.steps[f.begin].kind.StartStep? && Names(f.steps[f.begin].outputs, n)
         && forall v | v in visited && v in f.steps && !f.steps[v].kind.StartStep? :: !Names(f.steps[v].outputs, n)
  }

  // ---- Facts ----

  lemma {:induction false} FactsOfSubset(c: Carried, d: Carried)
    ensures FactsOf(c) <= FactsOf(d) <==> Arrives(c, d)
  {
    FactsMembers(c.keys, c.mapped.Keys);
    FactsMembers(d.keys, d.mapped.Keys);
    if FactsOf(c) <= FactsOf(d) {
      forall k | k in c.keys ensures k in d.keys {
        assert Fed(k.step, k.input) in FactsOf(c);
      }
      forall n | n in c.mapped.Keys ensures n in d.mapped.Keys {
        assert Produced(n) in FactsOf(c);
      }
    }
  }

  lemma {:induction false} FactsOfMeet(known: Carried, c: Carried)
    ensures FactsOf(Meet(known, c)) == FactsOf(c) * FactsOf(known)
  {
    var m := Meet(known, c);
    FactsMembers(c.keys, c.mapped.Keys);
    FactsMembers(known.keys, known.mapped.Keys);
    FactsMembers(m.keys, m.mapped.Keys);
    forall x: Fact ensures x in FactsOf(m) <==> x in FactsOf(c) && x in FactsOf(known) {
      if x.Fed? {
        var k := IoKey(x.step, x.input);
        assert Fed(k.step, k.input) == x;
      }
    }
  }

  lemma {:induction false} FactsJoin(k1: set<IoKey>, n1: set<string>, k2: set<IoKey>, n2: set<string>)
    ensures Facts(k1 + k2, n1 + n2) == Facts(k1, n1) + Facts(k2, n2)
  {
    FactsMembers(k1, n1);
    FactsMembers(k2, n2);
    FactsMembers(k1 + k2, n1 + n2);
    forall x: Fact ensures x in Facts(k1 + k2, n1 + n2) <==> x in Facts(k1, n1) + Facts(k2, n2) {
      if x.Fed? {
        var k := IoKey(x.step, x.input);
        assert Fed(k.step, k.input) == x;
      }
    }
  }

  // ---- One visit ----

  /** The edges among es that leave v feed exactly the keys added. */
  lemma {:induction false} AddFedAdds(f: Flow, v: string, keys: set<IoKey>, es: seq<DataEdge>)
    requires AddFed(f, v, keys, es).Ok?
    ensures forall k :: k in AddFed(f, v, keys, es).value <==>
              k in keys ||
              exists i | 0 <= i < |es| :: es[i].source == FromStep(v) && k == IoKey(es[i].dest, es[i].input)
    decreases |es|
  {
    if es != [] {
      var n := |es| - 1;
      AddFedAdds(f, v, keys, es[..n]);
      assert forall i | 0 <= i < n :: es[..n][i] == es[i];
    }
  }

  /** Once the traversal has looked at the data edges, their known ends are settled. */
  lemma {:induction false} AddFedIsFedBy(f: Flow, v: string, keys: set<IoKey>)
    requires AddFed(f, v, keys, f.data).Ok?
    ensures AddFed(f, v, keys, f.data).value == keys + f.FedBy(v)
  {
    AddFedAdds(f, v, keys, f.data);
  }

  lemma {:induction false} AddInputsAdds(f: Flow, v: string, keys: set<IoKey>, acc: Inputs, ps: seq<Property>)
    requires AddInputs(f, v, keys, acc, ps).Ok? && acc.resolved.Keys == acc.keys.Keys
    ensures var r := AddInputs(f, v, keys, acc, ps).value;
      && r.resolved.Keys == r.keys.Keys
      && forall u, input ::
           (input in r.keys && IoKey(u, input) in r.keys[input]) <==>
             || (input in acc.keys && IoKey(u, input) in acc.keys[input])
             || (u == v && Names(ps, input) && !f.HasContext(v, input) && IoKey(v, input) !in keys)
    decreases |ps|
  {
    if ps != [] {
      var n := |ps| - 1;
      AddInputsAdds(f, v, keys, acc, ps[..n]);
      assert forall i | 0 <= i < n :: ps[..n][i] == ps[i];
      var mid := AddInputs(f, v, keys, acc, ps[..n]).value;
      AddInputAdds(f, v, keys, mid, ps[n]);
      forall input ensures Names(ps, input) <==> Names(ps[..n], input) || ps[n].name == input {
      }
    }
  }

  lemma {:induction false} AddInputAdds(f: Flow, v: string, keys: set<IoKey>, acc: Inputs, p: Property)
    requires AddInput(f, v, keys, acc, p).Ok? && acc.resolved.Keys == acc.keys.Keys
    ensures var r := AddInput(f, v, keys, acc, p).value;
      && r.resolved.Keys == r.keys.Keys
      && forall u, input ::
           (input in r.keys && IoKey(u, input) in r.keys[input]) <==>
             || (input in acc.keys && IoKey(u, input) in acc.keys[input])
             || (u == v && input == p.name && !f.HasContext(v, input) && IoKey(v, input) !in keys)
  {
  }

  // ---- One iteration matches one pop ----

  /** What is carried to v that still agrees with the intersection `meet` after this visit. */
  ghost predicate VisitFits(f: Flow, low: map<string, set<Fact>>, v: string, c: Carried, meet: set<Fact>) {
    && v in f.steps
    && FactsOf(c) + GraphOf(f).gen[v] == meet + GraphOf(f).gen[v]
    && forall x :: x !in meet <==> x !in FactsOf(c) || (v in low && x !in low[v])
  }

  lemma {:induction false} VisitInputsMatch(
    f: Flow, inputs: Inputs, low: map<string, set<Fact>>, v: string, c: Carried, meet: set<Fact>, after: Inputs)
    requires f.Valid() && InputsMatch(f, inputs, low) && VisitFits(f, low, v, c, meet)
    requires AddInputs(f, v, c.keys, inputs, f.steps[v].inputs) == Ok(after)
    ensures InputsMatch(f, after, low[v := meet])
  {
    AddInputsAdds(f, v, c.keys, inputs, f.steps[v].inputs);
    FactsMembers(c.keys, c.mapped.Keys);
    forall u, input
      ensures Requires(after, u, input) <==>
                && f.IsInput(u, input) && !f.HasContext(u, input)
                && u in low[v := meet] && Fed(u, input) !in low[v := meet][u]
    {
      var k := IoKey(u, input);
      assert Fed(k.step, k.input) in FactsOf(c) <==> k in c.keys;
      assert Requires(inputs, u, input) || !Requires(inputs, u, input);
    }
  }

  lemma {:induction false} VisitExitsMatch(f: Flow, visited: map<string, Carried>, x: Exits, v: string, out: Carried)
    requires f.Valid() && ExitsMatch(f, visited, x) && v in f.steps
    ensures ExitsMatch(f, visited[v := out], VisitExits(f, x, v, out.mapped))
  {
    var y := VisitExits(f, x, v, out.mapped);
    forall n
      ensures n in y.startOnly <==>
                && f.steps[f.begin].kind.StartStep? && Names(f.steps[f.begin].outputs, n)
                && forall u | u in visited[v := out] && u in f.steps && !f.steps[u].kind.StartStep? ::
                     !Names(f.steps[u].outputs, n)
    {
      assert visited[v := out].Keys == visited.Keys + {v};
    }
  }

  /** The recorded set is the one the source keeps extending after storing it. */
  lemma {:induction false} VisitRecords(f: Flow, s: Resolver, low: map<string, set<Fact>>, v: string, c: Carried,
    meet: set<Fact>)
    requires f.Valid() && VisitFits(f, low, v, c, meet) && Visit(f, s, v, c).Ok?
    ensures var t := Visit(f, s, v, c).value;
      && t.visited == s.visited[v := Carried(c.keys + f.FedBy(v), AddOutputs(c.mapped, f.steps[v].outputs))]
      && FactsOf(t.visited[v]) == meet + GraphOf(f).gen[v]
  {
    AddFedIsFedBy(f, v, c.keys);
    FactsJoin(c.keys, c.mapped.Keys, f.FedBy(v), NameSet(f.steps[v].outputs));
  }

  lemma {:induction false} VisitQueueMatches(q: seq<Arrival>, items: seq<Item>, ws: seq<string>, c: Carried)
    requires QueueMatches(q, items)
    ensures QueueMatches(q + Arrivals(ws, c), items + Pushed(ws, FactsOf(c)))
  {
  }

  lemma {:induction false} VisitedStep(
    f: Flow, visited: map<string, Carried>, low: map<string, set<Fact>>, v: string, out: Carried, meet: set<Fact>)
    requires VisitedMatches(f, visited, low) && v in f.steps && FactsOf(out) == meet + GraphOf(f).gen[v]
    ensures VisitedMatches(f, visited[v := out], low[v := meet])
  {
  }

  lemma {:induction false} VisitCarriesMatch(
    f: Flow, s: Resolver, a: State, v: string, c: Carried, meet: set<Fact>, b: State)
    requires f.Valid() && VisitFits(f, a.low, v, c, meet) && Visit(f, s, v, c).Ok?
    requires QueueMatches(s.queue, a.queue) && VisitedMatches(f, s.visited, a.low)
    requires b.low == a.low[v := meet]
    requires b.queue == a.queue + Pushed(GraphOf(f).succ[v], meet + GraphOf(f).gen[v])
    ensures QueueMatches(Visit(f, s, v, c).value.queue, b.queue)
    ensures VisitedMatches(f, Visit(f, s, v, c).value.visited, b.low)
  {
    var t := Visit(f, s, v, c).value;
    var out := t.visited[v];
    VisitRecords(f, s, a.low, v, c, meet);
    assert t.queue == s.queue + Arrivals(Known(f.NextNames(v)), out);
    VisitQueueMatches(s.queue, a.queue, Known(f.NextNames(v)), out);
    VisitedStep(f, s.visited, a.low, v, out, meet);
  }

  lemma {:induction false} VisitMatches(f: Flow, s: Resolver, a: State, v: string, c: Carried, meet: set<Fact>,
    b: State)
    requires f.Valid() && Matches(f, s, a) && VisitFits(f, a.low, v, c, meet) && Visit(f, s, v, c).Ok?
    requires b.low == a.low[v := meet]
    requires b.queue == a.queue + Pushed(GraphOf(f).succ[v], meet + GraphOf(f).gen[v])
    ensures Matches(f, Visit(f, s, v, c).value, b)
  {
    var t := Visit(f, s, v, c).value;
    var out := t.visited[v];
    assert t.visited == s.visited[v := out] && t.exits == VisitExits(f, s.exits, v, out.mapped);
    VisitCarriesMatch(f, s, a, v, c, meet, b);
    VisitInputsMatch(f, s.inputs, a.low, v, c, meet, t.inputs);
    VisitExitsMatch(f, s.visited, s.exits, v, out);
  }

  lemma {:induction false} SkipMatches(f: Flow, s: Resolver, a: State)
    requires f.Valid() && Matches(f, s, a) && s.queue != [] && QueueKnown(f, s)
    ensures var x := s.queue[|s.queue| - 1];
      Skipped(GraphOf(f), a, a.queue[|s.queue| - 1]) <==>
        x.step in s.visited && Arrives(s.visited[x.step], x.carried)
  {
    var x := s.queue[|s.queue| - 1];
    if x.step in s.visited {
      assert Recorded(GraphOf(f), a, x.step) == FactsOf(s.visited[x.step]);
      FactsOfSubset(s.visited[x.step], x.carried);
    }
  }

  lemma {:induction false} MeetFits(f: Flow, visited: map<string, Carried>, low: map<string, set<Fact>>, v: string,
    c: Carried)
    requires VisitedMatches(f, visited, low) && v in f.steps
    ensures v in visited ==> VisitFits(f, low, v, Meet(visited[v], c), FactsOf(c) * low[v])
    ensures v !in visited ==> VisitFits(f, low, v, c, FactsOf(c))
  {
    if v in visited {
      FactsOfMeet(visited[v], c);
    }
  }

  lemma {:induction false} RestMatches(f: Flow, s: Resolver, a: State)
    requires f.Valid() && Matches(f, s, a) && s.queue != []
    ensures Matches(f, Rest(s), a.(queue := a.queue[..|a.queue| - 1]))
  {
  }

  lemma {:induction false} SkippedIterateMatches(f: Flow, s: Resolver, a: State)
    requires f.Valid() && Matches(f, s, a) && s.queue != [] && QueueKnown(f, s) && Skips(s)
    ensures Matches(f, Iterate(f, s).value, Pop(GraphOf(f), a))
  {
    RestMatches(f, s, a);
    SkipMatches(f, s, a);
  }

  /** What is brought agrees with the intersection that the abstract step records. */
  lemma {:induction false} BroughtFits(f: Flow, s: Resolver, a: State, it: Item)
    requires f.Valid() && Matches(f, s, a) && s.queue != [] && QueueKnown(f, s)
    requires it == a.queue[|a.queue| - 1]
    ensures VisitFits(f, a.low, it.node, Brought(s), if it.node in a.low then it.facts * a.low[it.node] else it.facts)
  {
    var x := s.queue[|s.queue| - 1];
    MeetFits(f, s.visited, a.low, x.step, x.carried);
  }

  lemma {:induction false} VisitingIterateMatches(f: Flow, s: Resolver, a: State)
    requires f.Valid() && Matches(f, s, a) && s.queue != [] && QueueKnown(f, s) && !Skips(s) && Iterate(f, s).Ok?
    ensures Matches(f, Iterate(f, s).value, Pop(GraphOf(f), a))
  {
    var it := a.queue[|a.queue| - 1];
    var v := s.queue[|s.queue| - 1].step;
    var meet := if v in a.low then it.facts * a.low[v] else it.facts;
    assert it.node == v && !Skipped(GraphOf(f), a, it) by { SkipMatches(f, s, a); }
    PopVisits(GraphOf(f), a);
    RestMatches(f, s, a);
    BroughtFits(f, s, a, it);
    VisitMatches(f, Rest(s), a.(queue := a.queue[..|a.queue| - 1]), v, Brought(s), meet, Pop(GraphOf(f), a));
  }

  lemma {:induction false} IterateMatches(f: Flow, s: Resolver, a: State)
    requires f.Valid() && Matches(f, s, a) && s.queue != [] && QueueKnown(f, s) && Iterate(f, s).Ok?
    ensures Matches(f, Iterate(f, s).value, Pop(GraphOf(f), a))
  {
    if Skips(s) {
      SkippedIterateMatches(f, s, a);
    } else {
      VisitingIterateMatches(f, s, a);
    }
  }

  // ---- Whole traversals ----

  lemma {:induction false} StartMatches(f: Flow)
    requires f.Valid()
    ensures Matches(f, Start(f), Init(GraphOf(f)))
  {
    FactsMembers({}, {});
    assert FactsOf(NOTHING) == {};
  }

  /** A relation kept by every iteration and its pop is kept by the loops. */
  lemma {:induction false} LoopSimulates(
    next: Iteration, g: Graph, s: Resolver, a: State, n: nat, related: (Resolver, State) -> bool)
    requires related(s, a)
    requires forall t, b | related(t, b) ::
               && (t.queue == [] <==> b.queue == [])
               && (t.queue != [] && next(t).Ok? ==> related(next(t).value, Pop(g, b)))
    ensures Loop(next, s, n).Ok? ==> related(Loop(next, s, n).value, Run(g, a, n))
    decreases n
  {
    if n > 0 && s.queue != [] && next(s).Ok? {
      LoopSimulates(next, g, next(s).value, Pop(g, a), n - 1, related);
    }
  }

  lemma {:induction false} TraverseMatches(f: Flow, n: nat)
    requires f.Valid()
    ensures Traverse(f, Start(f), n).Ok? ==>
              Matches(f, Traverse(f, Start(f), n).value, Run(GraphOf(f), Init(GraphOf(f)), n))
  {
    var next := Advanced(f);
    var related := (t: Resolver, b: State) => f.Valid() && QueueKnown(f, t) && Matches(f, t, b);
    forall t, b | related(t, b)
      ensures t.queue == [] <==> b.queue == []
      ensures t.queue != [] && next(t).Ok? ==> related(next(t).value, Pop(GraphOf(f), b))
    {
      if t.queue != [] && next(t).Ok? {
        IterateQueueKnown(f, t);
        IterateMatches(f, t, b);
      }
    }
    StartMatches(f);
    LoopSimulates(next, GraphOf(f), Start(f), Init(GraphOf(f)), n, related);
  }

  /** The traversal has popped its last item. */
  ghost predicate Finished(f: Flow, n: nat, s: Resolver)
    requires f.Valid()
  {
    Traverse(f, Start(f), n) == Ok(s) && s.queue == []
  }

  lemma {:induction false} FinishedMatches(f: Flow, n: nat, s: Resolver)
    requires f.Valid() && Finished(f, n, s)
    ensures Run(GraphOf(f), Init(GraphOf(f)), n).queue == []
    ensures Matches(f, s, Run(GraphOf(f), Init(GraphOf(f)), n))
  {
    TraverseMatches(f, n);
  }

  // ---- What the results mean, in terms of control paths ----

  /** A data edge from step u feeds this input. */
  ghost predicate Feeds(f: Flow, u: string, v: string, input: string) {
    exists i | 0 <= i < |f.data| :: f.data[i] == DataEdge(FromStep(u), f.data[i].output, v, input)
  }

  /** No step before the last of the path feeds this input of it. */
  ghost predicate Unfed(f: Flow, p: seq<string>, v: string, input: string) {
    forall i | 0 <= i < |p| - 1 :: !Feeds(f, p[i], v, input)
  }

  /** Some control path reaches the step before any data edge has fed its input. */
  ghost predicate MayBeUnfed(f: Flow, v: string, input: string) {
    exists p :: PathTo(GraphOf(f), p, v) && Unfed(f, p, v, input)
  }

  /** A step of the path produces an output of this name. */
  ghost predicate ProducedOn(f: Flow, p: seq<string>, n: string) {
    exists i | 0 <= i < |p| :: p[i] in f.steps && Names(f.steps[p[i]].outputs, n)
  }

  ghost predicate AlwaysProduced(f: Flow, v: string, n: string) {
    forall p | PathTo(GraphOf(f), p, v) :: ProducedOn(f, p, n)
  }

  lemma {:induction false} GenFeeds(f: Flow, u: string, v: string, input: string)
    requires u in f.steps
    ensures Fed(v, input) in GraphOf(f).gen[u] <==> Feeds(f, u, v, input)
  {
    FactsMembers(f.FedBy(u), NameSet(f.steps[u].outputs));
    var k := IoKey(v, input);
    assert Fed(k.step, k.input) in GraphOf(f).gen[u] <==> k in f.FedBy(u);
    if Feeds(f, u, v, input) {
      var i :| 0 <= i < |f.data| && f.data[i] == DataEdge(FromStep(u), f.data[i].output, v, input);
      assert IoKey(f.data[i].dest, f.data[i].input) in f.FedBy(u);
    }
  }

  lemma {:induction false} MissesIsUnfed(f: Flow, v: string, input: string)
    requires f.Valid()
    ensures MissesBefore(GraphOf(f), v, Fed(v, input)) <==> MayBeUnfed(f, v, input)
  {
    var g := GraphOf(f);
    forall p | PathTo(g, p, v)
      ensures Avoids(g, p[..|p| - 1], Fed(v, input)) <==> Unfed(f, p, v, input)
    {
      var q := p[..|p| - 1];
      forall i | 0 <= i < |q| ensures Fed(v, input) !in g.gen[q[i]] <==> !Feeds(f, p[i], v, input) {
        GenFeeds(f, p[i], v, input);
      }
      assert forall i | 0 <= i < |q| :: q[i] == p[i] && q[i] in g.gen;
    }
  }

  lemma {:induction false} GenProduces(f: Flow, u: string, n: string)
    requires u in f.steps
    ensures Produced(n) in GraphOf(f).gen[u] <==> Names(f.steps[u].outputs, n)
  {
    FactsMembers(f.FedBy(u), NameSet(f.steps[u].outputs));
  }

  lemma {:induction false} MissesIsNotProduced(f: Flow, v: string, n: string)
    requires f.Valid()
    ensures MissesThrough(GraphOf(f), v, Produced(n)) <==> !AlwaysProduced(f, v, n)
  {
    var g := GraphOf(f);
    forall p | PathTo(g, p, v) ensures Avoids(g, p, Produced(n)) <==> !ProducedOn(f, p, n) {
      forall i | 0 <= i < |p| ensures Produced(n) !in g.gen[p[i]] <==> !Names(f.steps[p[i]].outputs, n) {
        GenProduces(f, p[i], n);
      }
    }
  }

  /** The input analysis is exact: required inputs are those some control path leaves unfed. */
  lemma {:induction false} RequiredInputsExact(f: Flow, n: nat, s: Resolver, v: string, input: string)
    requires f.Valid() && Finished(f, n, s)
    ensures Requires(s.inputs, v, input) <==>
              f.IsInput(v, input) && !f.HasContext(v, input) && MayBeUnfed(f, v, input)
  {
    var g := GraphOf(f);
    GraphValid(f);
    FinishedMatches(f, n, s);
    Exact(g, n, v, Fed(v, input));
    MissesIsUnfed(f, v, input);
    if MayBeUnfed(f, v, input) {
      assert Reachable(g, v);
    }
  }

  /** The steps visited are the reachable ones, and the names recorded there the ones always produced. */
  lemma {:induction false} RecordedNamesExact(f: Flow, n: nat, s: Resolver, v: string, name: string)
    requires f.Valid() && Finished(f, n, s)
    ensures v in s.visited <==> Reachable(GraphOf(f), v)
    ensures v in s.visited ==> (name in s.visited[v].mapped <==> AlwaysProduced(f, v, name))
  {
    var g := GraphOf(f);
    GraphValid(f);
    FinishedMatches(f, n, s);
    Exact(g, n, v, Produced(name));
    MissesIsNotProduced(f, v, name);
    if v in s.visited {
      FactsMembers(s.visited[v].keys, s.visited[v].mapped.Keys);
    }
  }

  // ---- The results returned ----

  datatype Resolution = Resolution(flowInputs: map<string, Property>, inputs: Inputs, outputs: map<string, Property>)

  function ByName(ps: seq<Property>): (r: map<string, Property>)
    ensures r.Keys == NameSet(ps)
  {
    AddOutputs(map[], ps)
  }

  /** A required input without default that the StartStep does not offer. */
  predicate LacksStartInput(f: Flow, s: Resolver)
    requires f.Valid()
  {
    && f.steps[f.begin].kind.StartStep?
    && exists n | n in s.inputs.resolved ::
         s.inputs.resolved[n].default.None? && !Names(f.steps[f.begin].inputs, n)
  }

  function OutputsOf(x: Exits): map<string, Property> {
    if x.first.None? || x.first.value !in x.at then map[]
    else
      var first := x.at[x.first.value];
      map n | n in first && (forall v | v in x.at :: n in x.at[v]) && n !in x.startOnly :: first[n]
  }

  /** The end of the resolver, once the worklist is empty. */
  function Finish(f: Flow, s: Resolver): Result<Resolution, FlowError>
    requires f.Valid()
  {
    if LacksStartInput(f, s) then Raise(MissingStartInput)
    else
      Ok(Resolution(
           if f.steps[f.begin].kind.StartStep? then ByName(f.steps[f.begin].inputs) else s.inputs.resolved,
           s.inputs,
           OutputsOf(s.exits)))
  }

  /** A name that only the StartStep declares: it is an input of the flow, not an output. */
  ghost predicate OnlyStartProduces(f: Flow, n: string)
    requires f.Valid()
  {
    && f.steps[f.begin].kind.StartStep? && Names(f.steps[f.begin].outputs, n)
    && forall v | Reachable(GraphOf(f), v) && v in f.steps && !f.steps[v].kind.StartStep? ::
         !Names(f.steps[v].outputs, n)
  }

  lemma {:induction false} StartOnlyExact(f: Flow, n: nat, s: Resolver, name: string)
    requires f.Valid() && Finished(f, n, s)
    ensures name in s.exits.startOnly <==> OnlyStartProduces(f, name)
  {
    FinishedMatches(f, n, s);
    forall v ensures v in s.visited <==> Reachable(GraphOf(f), v) {
      RecordedNamesExact(f, n, s, v, name);
    }
  }

  lemma {:induction false} ExitsExact(f: Flow, n: nat, s: Resolver, v: string, name: string)
    requires f.Valid() && Finished(f, n, s)
    ensures v in s.exits.at <==> Reachable(GraphOf(f), v) && f.IsExit(v)
    ensures v in s.exits.at ==> (name in s.exits.at[v] <==> AlwaysProduced(f, v, name))
  {
    FinishedMatches(f, n, s);
    RecordedNamesExact(f, n, s, v, name);
  }

  lemma {:induction false} OutputsOfMeaning(x: Exits, name: string)
    requires x.first.Some? ==> x.first.value in x.at
    requires x.at != map[] ==> x.first.Some?
    ensures name in OutputsOf(x) <==>
              && (exists v :: v in x.at)
              && (forall v | v in x.at :: name in x.at[v])
              && name !in x.startOnly
  {
    if v :| v in x.at {
      assert x.at != map[];
    }
  }

  ghost predicate ReachableExit(f: Flow, v: string) {
    Reachable(GraphOf(f), v) && f.IsExit(v)
  }

  /**
   * The output analysis is exact: a name is a flow output iff the flow can end, every control path to
   * every exit passes a step producing it, and it is not a name only the StartStep declares.
   */
  lemma {:induction false} OutputsExact(f: Flow, n: nat, s: Resolver, name: string)
    requires f.Valid() && Finished(f, n, s)
    ensures name in OutputsOf(s.exits) <==>
              && (exists v :: ReachableExit(f, v))
              && (forall v | ReachableExit(f, v) :: AlwaysProduced(f, v, name))
              && !OnlyStartProduces(f, name)
  {
    assert s.exits.first.Some? ==> s.exits.first.value in s.exits.at by { FinishedMatches(f, n, s); }
    assert s.exits.at != map[] ==> s.exits.first.Some? by { FinishedMatches(f, n, s); }
    OutputsOfMeaning(s.exits, name);
    StartOnlyExact(f, n, s, name);
    forall v
      ensures v in s.exits.at <==> ReachableExit(f, v)
      ensures v in s.exits.at ==> (name in s.exits.at[v] <==> AlwaysProduced(f, v, name))
    {
      ExitsExact(f, n, s, v, name);
    }
  }

  // ---- Where the returned descriptors come from ----

  /** A property of the resolver kept by every iteration holds after a traversal. */
  lemma {:induction false} TraverseKeeps(f: Flow, s: Resolver, n: nat, kept: Resolver -> bool)
    requires QueueKnown(f, s) && kept(s)
    requires forall t | kept(t) && QueueKnown(f, t) && t.queue != [] && Iterate(f, t).Ok? ::
               kept(Iterate(f, t).value)
    ensures Traverse(f, s, n).Ok? ==> kept(Traverse(f, s, n).value)
  {
    var next := Advanced(f);
    var known := (t: Resolver) => QueueKnown(f, t) && kept(t);
    forall t | known(t) && t.queue != [] && next(t).Ok? ensures known(next(t).value) {
      IterateQueueKnown(f, t);
    }
    LoopKeeps(next, s, n, known);
  }

  /** Each missing input is listed once, with the descriptor of a step that requires it. */
  ghost predicate InputsListed(f: Flow, x: Inputs) {
    && NamesListed(x)
    && forall n | n in x.resolved :: InputListed(f, x, n)
  }

  ghost predicate NamesListed(x: Inputs) {
    && (forall i, j | 0 <= i < j < |x.names| :: x.names[i] != x.names[j])
    && (forall n :: n in x.names <==> n in x.resolved)
    && x.resolved.Keys == x.keys.Keys
  }

  ghost predicate InputListed(f: Flow, x: Inputs, n: string)
    requires n in x.resolved
  {
    && x.resolved[n].name == n
    && exists v :: v in f.steps && x.resolved[n] in f.steps[v].inputs && Requires(x, v, n)
  }

  lemma {:induction false} AddInputListed(f: Flow, v: string, keys: set<IoKey>, x: Inputs, p: Property)
    requires v in f.steps && p in f.steps[v].inputs && InputsListed(f, x)
    ensures AddInput(f, v, keys, x, p).Ok? ==> InputsListed(f, AddInput(f, v, keys, x, p).value)
  {
    if AddInput(f, v, keys, x, p).Ok? {
      var y := AddInput(f, v, keys, x, p).value;
      AddInputNames(f, v, keys, x, p);
      forall n | n in y.resolved ensures InputListed(f, y, n) {
        if y != x && n == p.name {
          NewInputListed(f, v, keys, x, p);
        } else {
          InputStaysListed(f, v, keys, x, p, n);
        }
      }
    }
  }

  lemma {:induction false} AddInputNames(f: Flow, v: string, keys: set<IoKey>, x: Inputs, p: Property)
    requires NamesListed(x) && AddInput(f, v, keys, x, p).Ok?
    ensures var y := AddInput(f, v, keys, x, p).value; NamesListed(y) && y.resolved.Keys <= x.resolved.Keys + {p.name}
  {
  }

  lemma {:induction false} NewInputListed(f: Flow, v: string, keys: set<IoKey>, x: Inputs, p: Property)
    requires v in f.steps && p in f.steps[v].inputs
    requires AddInput(f, v, keys, x, p).Ok? && AddInput(f, v, keys, x, p).value != x
    ensures var y := AddInput(f, v, keys, x, p).value; p.name in y.resolved && InputListed(f, y, p.name)
  {
    var y := AddInput(f, v, keys, x, p).value;
    assert y.resolved[p.name] == p && Requires(y, v, p.name);
  }

  lemma {:induction false} InputStaysListed(f: Flow, v: string, keys: set<IoKey>, x: Inputs, p: Property, n: string)
    requires AddInput(f, v, keys, x, p).Ok? && n in x.resolved && InputListed(f, x, n)
    requires n != p.name || AddInput(f, v, keys, x, p).value == x
    ensures InputListed(f, AddInput(f, v, keys, x, p).value, n)
  {
    var u :| u in f.steps && x.resolved[n] in f.steps[u].inputs && Requires(x, u, n);
    assert Requires(AddInput(f, v, keys, x, p).value, u, n);
  }

  lemma {:induction false} AddInputsListed(f: Flow, v: string, keys: set<IoKey>, x: Inputs, ps: seq<Property>)
    requires v in f.steps && (forall p | p in ps :: p in f.steps[v].inputs) && InputsListed(f, x)
    ensures AddInputs(f, v, keys, x, ps).Ok? ==> InputsListed(f, AddInputs(f, v, keys, x, ps).value)
    decreases |ps|
  {
    if ps != [] {
      var n := |ps| - 1;
      AddInputsListed(f, v, keys, x, ps[..n]);
      if AddInputs(f, v, keys, x, ps[..n]).Ok? {
        AddInputListed(f, v, keys, AddInputs(f, v, keys, x, ps[..n]).value, ps[n]);
      }
    }
  }

  lemma {:induction false} RequiredInputsListed(f: Flow, n: nat, s: Resolver)
    requires f.Valid() && Traverse(f, Start(f), n) == Ok(s)
    ensures InputsListed(f, s.inputs)
  {
    var kept := (t: Resolver) => InputsListed(f, t.inputs);
    forall t | kept(t) && QueueKnown(f, t) && t.queue != [] && Iterate(f, t).Ok?
      ensures kept(Iterate(f, t).value)
    {
      var v := t.queue[|t.queue| - 1].step;
      AddInputsListed(f, v, Brought(t).keys, t.inputs, f.steps[v].inputs);
    }
    TraverseKeeps(f, Start(f), n, kept);
  }

  /** Every key kept for a name is of an input of that name. */
  predicate KeysNamed(x: Inputs) {
    forall n, k | n in x.keys && k in x.keys[n] :: k.input == n
  }

  lemma {:induction false} AddInputsKeysNamed(f: Flow, v: string, keys: set<IoKey>, x: Inputs, ps: seq<Property>)
    requires KeysNamed(x) && AddInputs(f, v, keys, x, ps).Ok?
    ensures KeysNamed(AddInputs(f, v, keys, x, ps).value)
    decreases |ps|
  {
    if ps != [] {
      AddInputsKeysNamed(f, v, keys, x, ps[..|ps| - 1]);
    }
  }

  lemma {:induction false} RequiredKeysNamed(f: Flow, n: nat, s: Resolver)
    requires f.Valid() && Traverse(f, Start(f), n) == Ok(s)
    ensures KeysNamed(s.inputs)
  {
    var kept := (t: Resolver) => KeysNamed(t.inputs);
    forall t | kept(t) && QueueKnown(f, t) && t.queue != [] && Iterate(f, t).Ok? ensures kept(Iterate(f, t).value) {
      if !Skips(t) {
        var v := t.queue[|t.queue| - 1].step;
        AddInputsKeysNamed(f, v, Brought(t).keys, t.inputs, f.steps[v].inputs);
      }
    }
    TraverseKeeps(f, Start(f), n, kept);
  }
}
