/** Mapping a function over inputs with bounded concurrency, in every interleaving of the tasks. */
module ParallelMap {
  import opened Wrappers

  /** One task: not yet past the semaphore, holding it, or done in one of three ways. */
  datatype Task = Waiting | Inside | Finished | Failed | Cancelled

  /**
   * The shared state of one call: `permits` is the value of the semaphore, absent without a limit;
   * `outputs` is the dictionary all tasks write; `failing` is set once the task group is cancelled.
   */
  datatype State<R> = State(tasks: seq<Task>, permits: Option<nat>, outputs: map<nat, R>, failing: bool)

  function Begin<R>(n: nat, maxWorkers: Option<nat>): State<R> {
    State(seq(n, i => Waiting), maxWorkers, map[], false)
  }

  function Released(p: Option<nat>): Option<nat> {
    if p.Some? then Some(p.value + 1) else None
  }

  function Acquired(p: Option<nat>): Option<nat>
    requires p != Some(0)
  {
    if p.Some? then Some(p.value - 1) else None
  }

  datatype Action = Enter(i: nat) | Succeed(i: nat) | Fail(i: nat) | Cancel(i: nat)

  predicate Enabled<R, E>(s: State<R>, f: seq<Result<R, E>>, a: Action) {
    && a.i < |s.tasks| && |f| == |s.tasks|
    && match a
       case Enter(i) => s.tasks[i].Waiting? && s.permits != Some(0)
       case Succeed(i) => s.tasks[i].Inside? && f[i].Ok?
       case Fail(i) => s.tasks[i].Inside? && f[i].Raise?
       case Cancel(i) => s.failing && (s.tasks[i].Waiting? || s.tasks[i].Inside?)
  }

  /** One task proceeds to its next scheduling point; `f` is what the function does to each input. */
  function Step<R, E>(s: State<R>, f: seq<Result<R, E>>, a: Action): State<R>
    requires Enabled(s, f, a)
  {
    match a
    case Enter(i) => s.(tasks := s.tasks[i := Inside], permits := Acquired(s.permits))
    case Succeed(i) =>
      s.(tasks := s.tasks[i := Finished], permits := Released(s.permits), outputs := s.outputs[i := f[i].value])
    case Fail(i) => s.(tasks := s.tasks[i := Failed], permits := Released(s.permits), failing := true)
    case Cancel(i) =>
      s.(tasks := s.tasks[i := Cancelled],
         permits := if s.tasks[i].Inside? then Released(s.permits) else s.permits)
  }

  predicate Done<R>(s: State<R>) {
    forall i | 0 <= i < |s.tasks| :: !s.tasks[i].Waiting? && !s.tasks[i].Inside?
  }

  /** An interleaving: any sequence of enabled actions. */
  ghost predicate Reaches<R, E>(s: State<R>, f: seq<Result<R, E>>, run: seq<Action>, t: State<R>)
    decreases |run|
  {
    if run == [] then s == t
    else Enabled(s, f, run[0]) && Reaches(Step(s, f, run[0]), f, run[1..], t)
  }

  /** When the task group is left: the error of a failed task, or the outputs in input order. */
  ghost predicate Returns<R, E>(s: State<R>, f: seq<Result<R, E>>, r: Result<seq<R>, E>) {
    if exists i | 0 <= i < |s.tasks| :: s.tasks[i].Failed? then
      r.Raise? && exists i | 0 <= i < |s.tasks| :: s.tasks[i].Failed? && i < |f| && f[i] == Raise(r.error)
    else
      && r.Ok? && |r.value| == |s.tasks|
      && forall i: nat | i < |s.tasks| :: i in s.outputs && r.value[i] == s.outputs[i]
  }

  // ---- Invariant ----

  function InsideCount(ts: seq<Task>): nat {
    if ts == [] then 0 else (if ts[0].Inside? then 1 else 0) + InsideCount(ts[1..])
  }

  lemma {:induction false} InsideUpdate(ts: seq<Task>, i: nat, t: Task)
    requires i < |ts|
    ensures InsideCount(ts[i := t]) == InsideCount(ts) - (if ts[i].Inside? then 1 else 0) + if t.Inside? then 1 else 0
    decreases |ts|
  {
    if i == 0 {
      assert ts[0 := t][1..] == ts[1..];
    } else {
      assert ts[i := t][1..] == ts[1..][i - 1 := t];
      InsideUpdate(ts[1..], i - 1, t);
    }
  }

  lemma {:induction false} InsideNone(ts: seq<Task>)
    ensures InsideCount(ts) == 0 <==> forall i | 0 <= i < |ts| :: !ts[i].Inside?
    decreases |ts|
  {
    if ts != [] {
      InsideNone(ts[1..]);
      assert forall i | 0 < i < |ts| :: ts[i] == ts[1..][i - 1];
    }
  }

  ghost predicate AnyFailed(ts: seq<Task>) {
    exists i | 0 <= i < |ts| :: ts[i].Failed?
  }

  ghost predicate Inv<R, E>(s: State<R>, f: seq<Result<R, E>>, maxWorkers: Option<nat>) {
    && |f| == |s.tasks|
    // the permits handed out are exactly those of the tasks inside
    && (if maxWorkers.None? then s.permits.None?
        else s.permits.Some? && s.permits.value + InsideCount(s.tasks) == maxWorkers.value)
    && (maxWorkers == Some(0) ==> forall i | 0 <= i < |s.tasks| :: s.tasks[i].Waiting?)
    // the dictionary holds the results of the finished tasks
    && (forall i: nat :: i in s.outputs <==> i < |s.tasks| && s.tasks[i].Finished?)
    && (forall i: nat | i in s.outputs :: f[i] == Ok(s.outputs[i]))
    && (forall i | 0 <= i < |s.tasks| && s.tasks[i].Failed? :: f[i].Raise?)
    // tasks are only cancelled because another one failed
    && (s.failing <==> AnyFailed(s.tasks))
    && (forall i | 0 <= i < |s.tasks| && s.tasks[i].Cancelled? :: s.failing)
  }

  lemma {:induction false} BeginInv<R, E>(f: seq<Result<R, E>>, maxWorkers: Option<nat>)
    ensures Inv(Begin<R>(|f|, maxWorkers), f, maxWorkers)
  {
    InsideNone(Begin<R>(|f|, maxWorkers).tasks);
  }

  lemma {:induction false} FailedStays(ts: seq<Task>, i: nat, t: Task)
    requires i < |ts| && !ts[i].Failed?
    ensures AnyFailed(ts[i := t]) <==> AnyFailed(ts) || t.Failed?
  {
    var us := ts[i := t];
    if AnyFailed(ts) {
      var j :| 0 <= j < |ts| && ts[j].Failed?;
      assert us[j].Failed?;
    }
    if t.Failed? {
      assert us[i].Failed?;
    }
    if AnyFailed(us) {
      var j :| 0 <= j < |us| && us[j].Failed?;
      assert j != i ==> ts[j].Failed?;
    }
  }

  lemma {:induction false} StepInv<R, E>(s: State<R>, f: seq<Result<R, E>>, maxWorkers: Option<nat>, a: Action)
    requires Inv(s, f, maxWorkers) && Enabled(s, f, a)
    ensures Inv(Step(s, f, a), f, maxWorkers)
  {
    var t := Step(s, f, a);
    InsideUpdate(s.tasks, a.i, t.tasks[a.i]);
    FailedStays(s.tasks, a.i, t.tasks[a.i]);
  }

  lemma {:induction false} RunInv<R, E>(
    s: State<R>, f: seq<Result<R, E>>, maxWorkers: Option<nat>, run: seq<Action>, t: State<R>)
    requires Inv(s, f, maxWorkers) && Reaches(s, f, run, t)
    ensures Inv(t, f, maxWorkers)
    decreases |run|
  {
    if run != [] {
      StepInv(s, f, maxWorkers, run[0]);
      RunInv(Step(s, f, run[0]), f, maxWorkers, run[1..], t);
    }
  }

  // ---- Every interleaving ----

  /** No schedule ever has more tasks past the semaphore than it allows. */
  lemma {:induction false} AtMostMaxWorkers<R, E>(f: seq<Result<R, E>>, maxWorkers: nat, run: seq<Action>, t: State<R>)
    requires Reaches(Begin<R>(|f|, Some(maxWorkers)), f, run, t)
    ensures InsideCount(t.tasks) <= maxWorkers
  {
    BeginInv(f, Some(maxWorkers));
    RunInv(Begin<R>(|f|, Some(maxWorkers)), f, Some(maxWorkers), run, t);
  }

  /**
   * Whatever the schedule, the call returns the results in input order iff the function fails on no
   * input; otherwise it raises one of the function's errors, and never returns a partial list.
   */
  lemma {:induction false} ResultExact<R, E>(
    f: seq<Result<R, E>>, maxWorkers: Option<nat>, run: seq<Action>, t: State<R>, r: Result<seq<R>, E>)
    requires Reaches(Begin<R>(|f|, maxWorkers), f, run, t) && Done(t) && Returns(t, f, r)
    ensures r.Ok? <==> forall i | 0 <= i < |f| :: f[i].Ok?
    ensures r.Ok? ==> |r.value| == |f| && forall i | 0 <= i < |f| :: f[i] == Ok(r.value[i])
    ensures r.Raise? ==> exists i | 0 <= i < |f| :: f[i] == Raise(r.error)
  {
    BeginInv(f, maxWorkers);
    RunInv(Begin<R>(|f|, maxWorkers), f, maxWorkers, run, t);
    if r.Ok? {
      forall i: nat | i < |f| ensures f[i] == Ok(r.value[i]) {
        assert i in t.outputs;
      }
    }
  }

  /** A finished call always has a result: no output is missing from the dictionary. */
  lemma {:induction false} ResultExists<R, E>(
    f: seq<Result<R, E>>, maxWorkers: Option<nat>, run: seq<Action>, t: State<R>) returns (r: Result<seq<R>, E>)
    requires Reaches(Begin<R>(|f|, maxWorkers), f, run, t) && Done(t)
    ensures Returns(t, f, r)
  {
    BeginInv(f, maxWorkers);
    RunInv(Begin<R>(|f|, maxWorkers), f, maxWorkers, run, t);
    if i :| 0 <= i < |t.tasks| && t.tasks[i].Failed? {
      r := Raise(f[i].error);
    } else {
      assert !AnyFailed(t.tasks);
      forall i: nat | i < |t.tasks| ensures i in t.outputs {
        assert t.tasks[i].Finished?;
      }
      r := Ok(seq(|t.tasks|, i requires 0 <= i < |t.tasks| && i in t.outputs => t.outputs[i]));
    }
  }

  /** A schedule can always continue until all tasks are done, unless the semaphore starts at zero. */
  lemma {:induction false} Progress<R, E>(f: seq<Result<R, E>>, maxWorkers: Option<nat>, run: seq<Action>, s: State<R>)
    requires Reaches(Begin<R>(|f|, maxWorkers), f, run, s) && !Done(s)
    ensures (exists a :: Enabled(s, f, a)) <==> maxWorkers != Some(0)
  {
    BeginInv(f, maxWorkers);
    RunInv(Begin<R>(|f|, maxWorkers), f, maxWorkers, run, s);
    InsideNone(s.tasks);
    if maxWorkers != Some(0) {
      var i: nat :| i < |s.tasks| && (s.tasks[i].Waiting? || s.tasks[i].Inside?);
      if j: nat :| j < |s.tasks| && s.tasks[j].Inside? {
        assert Enabled(s, f, if f[j].Ok? then Succeed(j) else Fail(j));
      } else {
        assert Enabled(s, f, Enter(i));
      }
    }
  }

  /** Scheduling points the tasks still have ahead. */
  function Remaining(ts: seq<Task>): nat {
    if ts == [] then 0
    else (if ts[0].Waiting? then 2 else if ts[0].Inside? then 1 else 0) + Remaining(ts[1..])
  }

  lemma {:induction false} RemainingLowers(ts: seq<Task>, i: nat, t: Task)
    requires i < |ts| && ((ts[i].Waiting? && !t.Waiting?) || (ts[i].Inside? && !t.Waiting? && !t.Inside?))
    ensures Remaining(ts[i := t]) < Remaining(ts)
    decreases |ts|
  {
    if i == 0 {
      assert ts[0 := t][1..] == ts[1..];
    } else {
      assert ts[i := t][1..] == ts[1..][i - 1 := t];
      RemainingLowers(ts[1..], i - 1, t);
    }
  }

  lemma {:induction false} RunIsShort<R, E>(s: State<R>, f: seq<Result<R, E>>, run: seq<Action>, t: State<R>)
    requires Reaches(s, f, run, t)
    ensures |run| + Remaining(t.tasks) <= Remaining(s.tasks)
    decreases |run|
  {
    if run != [] {
      RemainingLowers(s.tasks, run[0].i, Step(s, f, run[0]).tasks[run[0].i]);
      RunIsShort(Step(s, f, run[0]), f, run[1..], t);
    }
  }

  lemma {:induction false} RemainingAtBegin(ts: seq<Task>)
    requires forall i | 0 <= i < |ts| :: ts[i].Waiting?
    ensures Remaining(ts) == 2 * |ts|
    decreases |ts|
  {
    if ts != [] {
      RemainingAtBegin(ts[1..]);
    }
  }

  /** No schedule is longer than two scheduling points per input. */
  lemma {:induction false} SchedulesAreFinite<R, E>(f: seq<Result<R, E>>, maxWorkers: Option<nat>, run: seq<Action>,
    t: State<R>)
    requires Reaches(Begin<R>(|f|, maxWorkers), f, run, t)
    ensures |run| <= 2 * |f|
  {
    RunIsShort(Begin<R>(|f|, maxWorkers), f, run, t);
    RemainingAtBegin(Begin<R>(|f|, maxWorkers).tasks);
  }
}
