/** When the vector indices of a generating collection agree with its table, call by call and over whole runs. */
module IndexFreshness {
  import opened Datatables
  import opened Datastores

  /** The rows an index answers from; an index never built answers from none. */
  function IndexRows(s: State, config: Config): seq<Row> {
    if config.name in s.indices then s.indices[config.name].rows else []
  }

  predicate Fresh(s: State, config: Config) {
    IndexRows(s, config) == s.rows
  }

  /** A vector generator, and configurations whose names differ (`_build_config_maps` sees to that). */
  predicate Indexed(k: Collection) {
    k.generating && NamesDistinct(k.relevant)
  }

  // ---- One rebuild ----

  lemma {:induction false} RebuildLeavesOthers(k: Collection, s: State, configs: seq<Config>, config: Config)
    requires forall i | 0 <= i < |configs| :: configs[i].name != config.name
    ensures IndexRows(Rebuilt(k, s, configs).0, config) == IndexRows(s, config)
    decreases |configs|
  {
    if configs != [] {
      RebuildLeavesOthers(k, s, configs[..|configs| - 1], config);
    }
  }

  lemma {:induction false} OneRebuild(k: Collection, s: State, config: Config, other: Config)
    requires RebuiltFor(k, s, config).1.None?
    ensures IndexRows(RebuiltFor(k, s, config).0, config) ==
            if SomeEmbedded(s.rows, ColumnFor(config, k)) then s.rows else IndexRows(s, config)
    ensures other.name != config.name ==> IndexRows(RebuiltFor(k, s, config).0, other) == IndexRows(s, other)
  {
  }

  /** A rebuild that returns gives every relevant index the table's rows, if they hold a vector for it. */
  lemma {:induction false} RebuildReplaces(k: Collection, s: State, configs: seq<Config>, i: nat)
    requires NamesDistinct(configs) && i < |configs| && Rebuilt(k, s, configs).1.None?
    ensures IndexRows(Rebuilt(k, s, configs).0, configs[i]) ==
            if SomeEmbedded(s.rows, ColumnFor(configs[i], k)) then s.rows else IndexRows(s, configs[i])
    decreases |configs|
  {
    var n := |configs| - 1;
    RebuildKeepsRows(k, s, configs[..n]);
    OneRebuild(k, Rebuilt(k, s, configs[..n]).0, configs[n], configs[i]);
    if i == n {
      RebuildLeavesOthers(k, s, configs[..n], configs[n]);
    } else {
      RebuildReplaces(k, s, configs[..n], i);
    }
  }

  // ---- One call ----

  /** The call rebuilds the index: the update concerns vectors, and a vector is left to index. */
  predicate Refreshes(k: Collection, s: State, call: Call, config: Config) {
    && (call.UpdateCall? ==> AffectsVectors(k, call.update))
    && SomeEmbedded(Apply(k, s, call).0.rows, ColumnFor(config, k))
  }

  /** After a call that returns, an index is either rebuilt from the new rows or untouched. */
  lemma {:induction false} IndexAfterCall(k: Collection, s: State, call: Call, config: Config)
    requires Indexed(k) && config in k.relevant && Apply(k, s, call).1.Ok?
    ensures IndexRows(Apply(k, s, call).0, config) ==
            if Refreshes(k, s, call, config) then Apply(k, s, call).0.rows else IndexRows(s, config)
  {
    var t := BeforeRebuild(k, s, call);
    if call.UpdateCall? && !AffectsVectors(k, call.update) {
    } else {
      RebuildKeepsRows(k, t, k.relevant);
      var i :| 0 <= i < |k.relevant| && k.relevant[i] == config;
      RebuildReplaces(k, t, k.relevant, i);
    }
  }

  /** The state with the table written and the indices as they were. */
  function BeforeRebuild(k: Collection, s: State, call: Call): State
    requires Indexed(k) && Apply(k, s, call).1.Ok?
  {
    match call
    case CreateCall(entities) =>
      s.(rows := s.rows + WithDefaults(k.entity, Vectorised(k, WithDefaults(k.entity, entities)).value))
    case UpdateCall(where_, update) => s.(rows := Updated(s.rows, where_, update))
    case DeleteCall(where_) => s.(rows := Remaining(s.rows, where_))
  }

  lemma {:induction false} RowsAfterCall(k: Collection, s: State, call: Call)
    requires Indexed(k) && Apply(k, s, call).1.Ok?
    ensures Apply(k, s, call).0.rows == BeforeRebuild(k, s, call).rows
    ensures call.CreateCall? ==> Apply(k, s, call).0.rows == s.rows + Apply(k, s, call).1.value != s.rows
  {
    RebuildKeepsRows(k, BeforeRebuild(k, s, call), k.relevant);
  }

  predicate ChangesNoRow(rows: seq<Row>, call: Call) {
    match call
    case CreateCall(_) => false
    case UpdateCall(where_, update) =>
      forall i | 0 <= i < |rows| && Matches(rows[i], where_) :: rows[i] + update == rows[i]
    case DeleteCall(where_) => forall i | 0 <= i < |rows| :: !Matches(rows[i], where_)
  }

  /**
   * The exact guard. A fresh index stays fresh through a call unless the call changes rows and either is an
   * update that concerns no vector or leaves no row with one.
   */
  lemma {:induction false} StaysFreshExactly(k: Collection, s: State, call: Call, config: Config)
    requires Indexed(k) && config in k.relevant && Apply(k, s, call).1.Ok? && Fresh(s, config)
    ensures Fresh(Apply(k, s, call).0, config) <==>
            Refreshes(k, s, call, config) || ChangesNoRow(s.rows, call)
  {
    IndexAfterCall(k, s, call, config);
    RowsAfterCall(k, s, call);
    SameRowsExactly(k, s, call);
  }

  lemma {:induction false} SameRowsExactly(k: Collection, s: State, call: Call)
    requires Indexed(k) && Apply(k, s, call).1.Ok?
    ensures Apply(k, s, call).0.rows == s.rows <==> ChangesNoRow(s.rows, call)
  {
    RowsAfterCall(k, s, call);
    match call {
      case CreateCall(_) =>
      case UpdateCall(where_, update) =>
        var u := Updated(s.rows, where_, update);
        if ChangesNoRow(s.rows, call) {
          assert forall i | 0 <= i < |u| :: u[i] == s.rows[i];
        } else {
          var i :| 0 <= i < |u| && Matches(s.rows[i], where_) && s.rows[i] + update != s.rows[i];
          assert u[i] != s.rows[i];
        }
      case DeleteCall(where_) =>
        DeleteTakesMatching(s.rows, where_);
        if ChangesNoRow(s.rows, call) {
          NothingMatches(s.rows, where_);
        } else {
          var i :| 0 <= i < |s.rows| && Matches(s.rows[i], where_);
          assert s.rows[i] in s.rows && s.rows[i] !in Remaining(s.rows, where_);
        }
    }
  }

  /** Emptying a collection leaves its index answering with every deleted row. */
  lemma {:induction false} LastDeleteLeavesIndex(k: Collection, s: State, where_: Row, config: Config)
    requires Indexed(k) && config in k.relevant && Apply(k, s, DeleteCall(where_)).1.Ok? && Fresh(s, config)
    requires forall i | 0 <= i < |s.rows| :: Matches(s.rows[i], where_)
    ensures Apply(k, s, DeleteCall(where_)).0.rows == []
    ensures IndexRows(Apply(k, s, DeleteCall(where_)).0, config) == s.rows
  {
    var after := Apply(k, s, DeleteCall(where_)).0;
    IndexAfterCall(k, s, DeleteCall(where_), config);
    RowsAfterCall(k, s, DeleteCall(where_));
    EverythingMatches(s.rows, where_);
  }

  /** Vectors generated for an update reach the caller only: every stored vector is the old one. */
  lemma {:induction false} UpdateStoresNoVector(k: Collection, s: State, where_: Row, update: Row, i: nat)
    requires Indexed(k) && k.vector !in update && i < |s.rows|
    requires Apply(k, s, UpdateCall(where_, update)).1.Ok?
    ensures |Apply(k, s, UpdateCall(where_, update)).0.rows| == |s.rows|
    ensures var r := Apply(k, s, UpdateCall(where_, update)).0.rows[i];
            (k.vector in r <==> k.vector in s.rows[i]) && (k.vector in r ==> r[k.vector] == s.rows[i][k.vector])
  {
    RowsAfterCall(k, s, UpdateCall(where_, update));
  }

  // ---- Runs ----

  /** Calls that all return, from an empty collection. */
  predicate IsRun(k: Collection, states: seq<State>, calls: seq<Call>) {
    && |states| == |calls| + 1
    && states[0] == State([], map[])
    && forall i | 0 <= i < |calls| ::
         Apply(k, states[i], calls[i]).1.Ok? && Apply(k, states[i], calls[i]).0 == states[i + 1]
  }

  /** The state right after the last rebuild of the index among the first `n` calls, or the first state. */
  function LastRebuild(k: Collection, states: seq<State>, calls: seq<Call>, config: Config, n: nat): (i: nat)
    requires n <= |calls| < |states|
    ensures i <= n
  {
    if n == 0 then 0
    else if Refreshes(k, states[n - 1], calls[n - 1], config) then n
    else LastRebuild(k, states, calls, config, n - 1)
  }

  /** Over any run, an index holds exactly the rows of the state after its last rebuild. */
  lemma {:induction false} IndexOverRun(k: Collection, states: seq<State>, calls: seq<Call>, config: Config, n: nat)
    requires Indexed(k) && config in k.relevant && IsRun(k, states, calls) && n <= |calls|
    ensures IndexRows(states[n], config) == states[LastRebuild(k, states, calls, config, n)].rows
    ensures Fresh(states[n], config) <==>
            states[LastRebuild(k, states, calls, config, n)].rows == states[n].rows
  {
    if n > 0 {
      IndexOverRun(k, states, calls, config, n - 1);
      IndexAfterCall(k, states[n - 1], calls[n - 1], config);
    }
  }

  /** A run in which every call rebuilds or changes no row keeps every relevant index fresh throughout. */
  lemma {:induction false} CarefulRunStaysFresh(k: Collection, states: seq<State>, calls: seq<Call>, config: Config,
                                                n: nat)
    requires Indexed(k) && config in k.relevant && IsRun(k, states, calls) && n <= |calls|
    requires forall i | 0 <= i < n ::
               Refreshes(k, states[i], calls[i], config) || ChangesNoRow(states[i].rows, calls[i])
    ensures Fresh(states[n], config)
  {
    if n > 0 {
      CarefulRunStaysFresh(k, states, calls, config, n - 1);
      StaysFreshExactly(k, states[n - 1], calls[n - 1], config);
    }
  }
}
