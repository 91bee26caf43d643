/** Which of several steps that miss an input of one name gives the flow its descriptor: the last one visited. */
module VisitOrder {
  import opened Wrappers
  import opened Properties
  import opened Flows
  import opened FlowResolver

  /** The visit the next iteration makes, if any. */
  function Visited(s: Resolver): seq<Arrival> {
    if s.queue == [] || Skips(s) then [] else [Arrival(s.queue[|s.queue| - 1].step, Brought(s))]
  }

  /** What is noted before each of at most n iterations, in order. */
  function Noted(next: Iteration, s: Resolver, n: nat, note: Resolver -> seq<Arrival>): seq<Arrival>
    decreases n
  {
    if n == 0 || s.queue == [] || next(s).Raise? then []
    else note(s) + Noted(next, next(s).value, n - 1, note)
  }

  /** The visits of at most n iterations: each with the step and what has been fed and produced before it. */
  function Visits(f: Flow, n: nat): seq<Arrival>
    requires f.Valid()
  {
    Noted(Advanced(f), Start(f), n, Visited)
  }

  /** At this visit the step has an input of this name that nothing has fed yet. */
  predicate Misses(f: Flow, a: Arrival, name: string) {
    f.IsInput(a.step, name) && !f.HasContext(a.step, name) && IoKey(a.step, name) !in a.carried.keys
  }

  /** The descriptor of the last visit that misses the name. */
  function LastMiss(f: Flow, visits: seq<Arrival>, name: string): Option<Property> {
    if visits == [] then None
    else
      var a := visits[|visits| - 1];
      if Misses(f, a, name) then Some(Named(f.steps[a.step].inputs, name))
      else LastMiss(f, visits[..|visits| - 1], name)
  }

  /** What is kept for the name after so many iterations. */
  function Kept(f: Flow, n: nat, name: string): Option<Property>
    requires f.Valid()
  {
    LastMiss(f, Visits(f, n), name)
  }

  function Stored(resolved: map<string, Property>, name: string): Option<Property> {
    if name in resolved then Some(resolved[name]) else None
  }

  lemma {:induction false} NamedLast(ps: seq<Property>, n: nat, name: string)
    requires Distinct(ps) && |ps| == n + 1
    ensures Distinct(ps[..n])
    ensures Names(ps, name) <==> Names(ps[..n], name) || ps[n].name == name
    ensures ps[n].name == name ==> Named(ps, name) == ps[n] && !Names(ps[..n], name)
    ensures ps[n].name != name && Names(ps, name) ==> Named(ps, name) == Named(ps[..n], name)
  {
    assert forall i | 0 <= i < n :: ps[..n][i] == ps[i];
    if ps[n].name == name {
      NamedUnique(ps, n);
    } else if Names(ps, name) {
      var i :| 0 <= i < |ps| && ps[i].name == name;
      NamedUnique(ps, i);
      NamedUnique(ps[..n], i);
    }
  }

  /** A relation between the resolver and the notes so far, kept by every iteration, holds after the loop. */
  lemma {:induction false} LoopRelates(
    next: Iteration, s: Resolver, n: nat, notes: seq<Arrival>, note: Resolver -> seq<Arrival>,
    related: (Resolver, seq<Arrival>) -> bool)
    requires related(s, notes)
    requires forall t, vs | related(t, vs) && t.queue != [] && next(t).Ok? :: related(next(t).value, vs + note(t))
    ensures Loop(next, s, n).Ok? ==> related(Loop(next, s, n).value, notes + Noted(next, s, n, note))
    decreases n
  {
    if n == 0 || s.queue == [] {
      assert notes + [] == notes;
    } else if next(s).Ok? {
      LoopRelates(next, next(s).value, n - 1, notes + note(s), note, related);
      Associate(notes, note(s), Noted(next, next(s).value, n - 1, note));
    }
  }

  lemma {:induction false} Associate(a: seq<Arrival>, b: seq<Arrival>, c: seq<Arrival>)
    ensures a + b + c == a + (b + c)
  {
  }

  // ---- All misses of one name ----

  /** The descriptors of the visits that miss the name, in order. */
  function MissesOf(f: Flow, visits: seq<Arrival>, name: string): seq<Property> {
    if visits == [] then []
    else
      var a := visits[|visits| - 1];
      MissesOf(f, visits[..|visits| - 1], name)
      + if Misses(f, a, name) then [Named(f.steps[a.step].inputs, name)] else []
  }

  lemma {:induction false} LastOfMisses(f: Flow, visits: seq<Arrival>, name: string)
    ensures var ms := MissesOf(f, visits, name);
      LastMiss(f, visits, name) == if ms == [] then None else Some(ms[|ms| - 1])
    decreases |visits|
  {
    if visits != [] {
      LastOfMisses(f, visits[..|visits| - 1], name);
    }
  }

  /** The last descriptor is the one kept, and all but the first are noted as possibly conflicting. */
  ghost predicate Notes(x: Inputs, ms: seq<Property>, name: string) {
    && Stored(x.resolved, name) == (if ms == [] then None else Some(ms[|ms| - 1]))
    && (name in x.conflicts <==> |ms| > 1)
    && (|ms| > 1 ==> x.conflicts[name] == ms[1..])
  }

  lemma {:induction false} AddInputNotes(
    f: Flow, v: string, keys: set<IoKey>, x: Inputs, p: Property, name: string, ms: seq<Property>)
    requires AddInput(f, v, keys, x, p).Ok? && Notes(x, ms, name)
    ensures Notes(AddInput(f, v, keys, x, p).value,
                  if p.name == name && !f.HasContext(v, name) && IoKey(v, name) !in keys then ms + [p] else ms, name)
  {
    if |ms| > 0 {
      assert (ms + [p])[1..] == ms[1..] + [p];
    }
  }

  lemma {:induction false} AddInputsNotes(
    f: Flow, v: string, keys: set<IoKey>, x: Inputs, ps: seq<Property>, name: string, ms: seq<Property>)
    requires AddInputs(f, v, keys, x, ps).Ok? && Distinct(ps) && Notes(x, ms, name)
    ensures Notes(AddInputs(f, v, keys, x, ps).value,
                  if Names(ps, name) && !f.HasContext(v, name) && IoKey(v, name) !in keys then ms + [Named(ps, name)]
                  else ms, name)
    decreases |ps|
  {
    if ps != [] {
      var n := |ps| - 1;
      NamedLast(ps, n, name);
      AddInputsNotes(f, v, keys, x, ps[..n], name, ms);
      var now := if Names(ps[..n], name) && !f.HasContext(v, name) && IoKey(v, name) !in keys
                 then ms + [Named(ps[..n], name)] else ms;
      AddInputNotes(f, v, keys, AddInputs(f, v, keys, x, ps[..n]).value, ps[n], name, now);
    }
  }

  lemma {:induction false} VisitNotes(f: Flow, s: Resolver, v: string, c: Carried, visits: seq<Arrival>, name: string)
    requires f.Valid() && v in f.steps && Visit(f, s, v, c).Ok?
    requires Notes(s.inputs, MissesOf(f, visits, name), name)
    ensures Notes(Visit(f, s, v, c).value.inputs, MissesOf(f, visits + [Arrival(v, c)], name), name)
  {
    assert (visits + [Arrival(v, c)])[..|visits|] == visits;
    AddInputsNotes(f, v, c.keys, s.inputs, f.steps[v].inputs, name, MissesOf(f, visits, name));
    assert MissesOf(f, visits, name) + [] == MissesOf(f, visits, name);
  }

  lemma {:induction false} IterateNotes(f: Flow, s: Resolver, visits: seq<Arrival>, name: string)
    requires f.Valid() && QueueKnown(f, s) && s.queue != [] && Iterate(f, s).Ok?
    requires Notes(s.inputs, MissesOf(f, visits, name), name)
    ensures Notes(Iterate(f, s).value.inputs, MissesOf(f, visits + Visited(s), name), name)
  {
    if Skips(s) {
      assert visits + [] == visits;
    } else {
      VisitNotes(f, Rest(s), s.queue[|s.queue| - 1].step, Brought(s), visits, name);
    }
  }

  /** What the traversal has noted about a name are the descriptors of all visits that missed it. */
  lemma {:induction false} MissesNoted(f: Flow, n: nat, s: Resolver, name: string)
    requires f.Valid() && Traverse(f, Start(f), n) == Ok(s)
    ensures Notes(s.inputs, MissesOf(f, Visits(f, n), name), name)
  {
    var next := Advanced(f);
    var related := (t: Resolver, vs: seq<Arrival>) =>
      QueueKnown(f, t) && f.Valid() && Notes(t.inputs, MissesOf(f, vs, name), name);
    forall t, vs | related(t, vs) && t.queue != [] && next(t).Ok? ensures related(next(t).value, vs + Visited(t)) {
      IterateQueueKnown(f, t);
      IterateNotes(f, t, vs, name);
    }
    assert Notes(Start(f).inputs, MissesOf(f, [], name), name);
    LoopRelates(next, Start(f), n, [], Visited, related);
    assert [] + Visits(f, n) == Visits(f, n);
  }

  /** The descriptor kept for a missing name is that of the last visit that misses it, and there is none otherwise. */
  lemma {:induction false} LastMissDecides(f: Flow, n: nat, s: Resolver, name: string)
    requires f.Valid() && Traverse(f, Start(f), n) == Ok(s)
    ensures Kept(f, n, name) == Stored(s.inputs.resolved, name)
  {
    MissesNoted(f, n, s, name);
    LastOfMisses(f, Visits(f, n), name);
  }
}
