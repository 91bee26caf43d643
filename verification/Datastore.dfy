/** The in-memory datastore: tables by collection name, and vector indices that should follow the tables. */
module Datastores {
  import opened Wrappers
  import opened Properties
  import opened Datatables

  datatype Config = Config(name: string, collection: string, vectorProperty: string)

  /** An index, as the rows and the column it was built from. */
  datatype Snapshot = Snapshot(rows: seq<Row>, column: string)

  /** What the datastore holds for one collection: its rows, and an index per vector configuration. */
  datatype State = State(rows: seq<Row>, indices: map<string, Snapshot>)

  type Outcome = Result<seq<Row>, DatastoreError>

  type Generator = (string, seq<Row>) -> seq<Value>

  /** What is fixed about one collection: `vector` is the column generated vectors go to. */
  datatype Collection = Collection(
    name: string, entity: Entity, vector: string, generating: bool, relevant: seq<Config>, generate: Generator)

  // ---- Vectors ----

  predicate HasLength(v: Value) {
    v.ListVal? || v.DictVal? || (v.Atom? && v.p.PStr?)
  }

  predicate Embedded(r: Row, column: string) {
    column in r && Truthy(r[column])
  }

  /** Some row holds a non-empty vector. */
  predicate SomeEmbedded(rows: seq<Row>, column: string) {
    exists i | 0 <= i < |rows| :: Embedded(rows[i], column)
  }

  function FirstEmbedded(rows: seq<Row>, column: string): (r: Option<Value>)
    ensures r.Some? <==> SomeEmbedded(rows, column)
    ensures r.Some? ==> exists i | 0 <= i < |rows| :: Embedded(rows[i], column) && rows[i][column] == r.value
  {
    if rows == [] then None
    else if Embedded(rows[0], column) then Some(rows[0][column])
    else
      assert forall i | 0 < i < |rows| :: rows[1..][i - 1] == rows[i];
      FirstEmbedded(rows[1..], column)
  }

  /** One vector per entity, as far as both lists go. */
  function WithVectors(rows: seq<Row>, vectors: seq<Value>, column: string): (r: seq<Row>)
    ensures |r| == |rows|
  {
    seq(|rows|, i requires 0 <= i < |rows| => if i < |vectors| then rows[i][column := vectors[i]] else rows[i])
  }

  /** `_process_vectors_for_entities`. */
  function Vectorised(k: Collection, rows: seq<Row>): Outcome {
    if !k.generating then Ok(rows)
    else if k.vector !in k.entity then Raise(MissingVectorColumn)
    else if rows == [] then Raise(NoEntities)
    else if Embedded(rows[0], k.vector) then Ok(rows)
    else Ok(WithVectors(rows, k.generate(k.name, rows), k.vector))
  }

  /** `_affects_vectors`: the vector column, or any string under a name that is not hidden. */
  predicate AffectsVectors(k: Collection, update: Row) {
    k.generating && (k.vector in update || exists n | n in update :: IsText(update[n]) && !Hidden(n))
  }

  predicate IsText(v: Value) {
    v.Atom? && v.p.PStr?
  }

  predicate Hidden(n: string) {
    n != "" && n[0] == '_'
  }

  // ---- Indices ----

  function ColumnFor(config: Config, k: Collection): string {
    if config.vectorProperty != "" then config.vectorProperty else k.vector
  }

  /** The part of `_rebuild_affected_indices` for one configuration: no vector at all, no new index. */
  function RebuiltFor(k: Collection, s: State, config: Config): (State, Option<DatastoreError>) {
    match FirstEmbedded(s.rows, ColumnFor(config, k))
    case None => (s, None)
    case Some(v) =>
      if !HasLength(v) then (s, Some(LengthOfScalar))
      else if config.name == "" then (s, Some(UnnamedConfig))
      else (s.(indices := s.indices[config.name := Snapshot(s.rows, ColumnFor(config, k))]), None)
  }

  /** `_rebuild_affected_indices`: an exception leaves the indices rebuilt so far. */
  function Rebuilt(k: Collection, s: State, configs: seq<Config>): (State, Option<DatastoreError>)
    decreases |configs|
  {
    if configs == [] then (s, None)
    else
      var n := |configs| - 1;
      var t := Rebuilt(k, s, configs[..n]);
      if t.1.Some? then t else RebuiltFor(k, t.0, configs[n])
  }

  function Finished(t: (State, Option<DatastoreError>), r: seq<Row>): (State, Outcome) {
    (t.0, if t.1.Some? then Raise(t.1.value) else Ok(r))
  }

  // ---- Calls ----

  datatype Call =
    | CreateCall(entities: seq<Row>)
    | UpdateCall(where_: Row, update: Row)
    | DeleteCall(where_: Row)

  /** The table's part of each call: the rows it leaves, unchanged when it raises, and what it returns. */
  function TableCreated(e: Entity, rows: seq<Row>, entities: seq<Row>): (seq<Row>, Outcome) {
    var more := WithDefaults(e, entities);
    if AllConform(e, more) then (rows + more, Ok(more)) else (rows, Raise(EntityError))
  }

  function TableUpdated(e: Entity, rows: seq<Row>, where_: Row, update: Row): (seq<Row>, Outcome) {
    if Partial(e, where_) && Partial(e, update)
    then (Updated(rows, where_, update), Ok(UpdatedOnly(rows, where_, update)))
    else (rows, Raise(EntityError))
  }

  function TableDeleted(e: Entity, rows: seq<Row>, where_: Row): (seq<Row>, Outcome) {
    if Partial(e, where_) then (Remaining(rows, where_), Ok([])) else (rows, Raise(EntityError))
  }

  /** The table has changed, the indices not yet. */
  function Written(s: State, t: (seq<Row>, Outcome)): (State, Outcome) {
    (s.(rows := t.0), t.1)
  }

  /** The rebuild that ends a call on a collection with a generator. */
  function Reindexed(k: Collection, t: (State, Outcome), due: bool): (State, Outcome) {
    if t.1.Raise? || !due then t else Finished(Rebuilt(k, t.0, k.relevant), t.1.value)
  }

  /** Vectors are generated before the rows are stored. */
  function Created(k: Collection, s: State, entities: seq<Row>): (State, Outcome) {
    var given := Prepared(k, entities);
    if given.Raise? then (s, given) else Stored(k, s, given.value)
  }

  function Prepared(k: Collection, entities: seq<Row>): Outcome {
    if k.generating then Vectorised(k, WithDefaults(k.entity, entities)) else Ok(entities)
  }

  function Stored(k: Collection, s: State, entities: seq<Row>): (State, Outcome) {
    Reindexed(k, Written(s, TableCreated(k.entity, s.rows, entities)), k.generating)
  }

  /** Vectors are generated after the rows are stored, for the rows that are returned. */
  function AfterUpdate(k: Collection, s: State, where_: Row, update: Row): (State, Outcome) {
    Returned(k, Written(s, TableUpdated(k.entity, s.rows, where_, update)), AffectsVectors(k, update))
  }

  function Returned(k: Collection, t: (State, Outcome), affected: bool): (State, Outcome) {
    if t.1.Raise? || !affected then t else Reindexed(k, (t.0, Vectorised(k, t.1.value)), true)
  }

  function AfterDelete(k: Collection, s: State, where_: Row): (State, Outcome) {
    Reindexed(k, Written(s, TableDeleted(k.entity, s.rows, where_)), k.generating)
  }

  function Apply(k: Collection, s: State, call: Call): (State, Outcome) {
    match call
    case CreateCall(entities) => Created(k, s, entities)
    case UpdateCall(where_, update) => AfterUpdate(k, s, where_, update)
    case DeleteCall(where_) => AfterDelete(k, s, where_)
  }

  /** The column a generated vector goes to. */
  predicate Generates(k: Collection, given: seq<Row>) {
    k.generating && given != [] && !Embedded(given[0], k.vector)
  }

  /**
   * What a batch leaves behind: its rows after those there were, each with the caller's values and the defaults of the
   * properties not given; only the vector column may hold a generated vector instead.
   */
  lemma {:induction false} CreateStores(k: Collection, s: State, entities: seq<Row>)
    requires Created(k, s, entities).1.Ok?
    ensures var rows, given := Created(k, s, entities).1.value, WithDefaults(k.entity, entities);
      && Created(k, s, entities).0.rows == s.rows + rows && |rows| == |entities|
      && (!Generates(k, given) ==> forall i | 0 <= i < |rows| :: FilledRow(k.entity, entities[i], rows[i]))
      && (Generates(k, given) ==> forall i | 0 <= i < |rows| ::
            var vectors := k.generate(k.name, given);
            rows[i] == if i < |vectors| then given[i][k.vector := vectors[i]] else given[i])
  {
    var given, rows := WithDefaults(k.entity, entities), Created(k, s, entities).1.value;
    RebuildKeepsRows(k, Written(s, TableCreated(k.entity, s.rows, Prepared(k, entities).value)).0, k.relevant);
    var prepared := Prepared(k, entities).value;
    forall i | 0 <= i < |rows| && k.generating ensures rows[i] == prepared[i] {
      assert FilledRow(k.entity, prepared[i], rows[i]);
      assert FilledRow(k.entity, entities[i], given[i]);
    }
  }

  lemma {:induction false} RebuildKeepsRows(k: Collection, s: State, configs: seq<Config>)
    ensures Rebuilt(k, s, configs).0.rows == s.rows
    decreases |configs|
  {
    if configs != [] {
      RebuildKeepsRows(k, s, configs[..|configs| - 1]);
    }
  }

  // ---- Configurations ----

  /** `_has_vector_properties`, and the collections whose entity has one. */
  predicate HasVectors(e: Entity) {
    exists n | n in e :: e[n].kind.VectorK?
  }

  function Vectored(schema: map<string, Entity>): set<string> {
    set c | c in schema && HasVectors(schema[c])
  }

  /** A search configuration's retriever: its collection, "" for any, and whether it has an embedding model. */
  datatype Search = Search(collection: string, embeds: bool)

  /** `_get_first_embedding_model` finds one. */
  predicate Embeds(searches: seq<Search>, c: string) {
    exists i | 0 <= i < |searches| ::
      searches[i].embeds && (searches[i].collection == "" || searches[i].collection == c)
  }

  /** The collections that get a vector generator. */
  function Generating(vectored: set<string>, searches: seq<Search>): set<string> {
    set c | c in vectored && Embeds(searches, c)
  }

  lemma {:induction false} GeneratingGrows(vectored: set<string>, searches: seq<Search>, c: string)
    ensures Generating(vectored + {c}, searches) ==
            Generating(vectored, searches) + if Embeds(searches, c) then {c} else {}
  {
  }

  const IMPLICIT_COLUMN := "_embedding"

  /** The first vector property of an entity in the order of its properties, or the implicit name. */
  function FirstVector(e: Entity, names: seq<string>): (r: string)
    ensures || (r in e && e[r].kind.VectorK?)
            || (r == IMPLICIT_COLUMN && forall n | n in names && n in e :: !e[n].kind.VectorK?)
  {
    if names == [] then IMPLICIT_COLUMN
    else if names[0] in e && e[names[0]].kind.VectorK? then names[0]
    else FirstVector(e, names[1..])
  }

  predicate Names(config: Config, c: string) {
    config.collection != "" && config.collection == c
  }

  function ImplicitName(c: string): string {
    "vector_" + c
  }

  function Matching(configs: seq<Config>, c: string): (r: seq<Config>)
    ensures forall g :: g in r <==> g in configs && Names(g, c)
  {
    if configs == [] then []
    else
      Matching(configs[..|configs| - 1], c)
      + if Names(configs[|configs| - 1], c) then [configs[|configs| - 1]] else []
  }

  /** The configurations rebuilt for a collection: those that name it, or else the implicit one. */
  function Relevant(configs: seq<Config>, c: string): (r: seq<Config>)
    ensures forall g | g in r :: g in configs
  {
    var matching := Matching(configs, c);
    if matching != [] then matching else WithName(configs, ImplicitName(c))
  }

  function WithName(configs: seq<Config>, name: string): (r: seq<Config>)
    ensures forall g | g in r :: g in configs && g.name == name
    ensures |r| <= 1 && (r == [] <==> forall g | g in configs :: g.name != name)
  {
    if configs == [] then []
    else if configs[0].name == name then [configs[0]] else WithName(configs[1..], name)
  }

  predicate NamesDistinct(configs: seq<Config>) {
    forall i, j | 0 <= i < j < |configs| :: configs[i].name != configs[j].name
  }

  lemma {:induction false} MatchingDistinct(configs: seq<Config>, c: string)
    requires NamesDistinct(configs)
    ensures NamesDistinct(Matching(configs, c))
    decreases |configs|
  {
    if configs != [] {
      var n := |configs| - 1;
      MatchingDistinct(configs[..n], c);
      var earlier := Matching(configs[..n], c);
      forall i | 0 <= i < |earlier| ensures earlier[i].name != configs[n].name {
        assert earlier[i] in configs[..n];
      }
    }
  }

  lemma {:induction false} RelevantDistinct(configs: seq<Config>, c: string)
    requires NamesDistinct(configs)
    ensures NamesDistinct(Relevant(configs, c))
  {
    MatchingDistinct(configs, c);
  }

  /** `_get_first_vector_property_name`: `column` is the entity's own vector column, or the implicit one. */
  function VectorName(configs: seq<Config>, c: string, column: string): string {
    if configs == [] then column
    else if Names(configs[0], c) && configs[0].vectorProperty != "" then configs[0].vectorProperty
    else VectorName(configs[1..], c, column)
  }

  lemma {:induction false} RelevantGrows(configs: seq<Config>, config: Config, c: string)
    requires Relevant(configs, c) != []
    ensures Relevant(configs + [config], c) != []
  {
    var more := configs + [config];
    assert more[..|configs|] == configs;
    var g := Relevant(configs, c)[0];
    assert g in more;
    assert Matching(configs, c) == [] ==> g.name == ImplicitName(c);
  }

  lemma {:induction false} ImplicitIsRelevant(configs: seq<Config>, config: Config, c: string)
    requires config.name == ImplicitName(c)
    ensures Relevant(configs + [config], c) != []
  {
    assert config in configs + [config];
  }

  /** Once a rebuild has raised, the configurations after it are not looked at. */
  lemma {:induction false} RebuildStops(k: Collection, s: State, configs: seq<Config>, n: nat)
    requires n <= |configs| && Rebuilt(k, s, configs[..n]).1.Some?
    ensures Rebuilt(k, s, configs) == Rebuilt(k, s, configs[..n])
    decreases |configs|
  {
    if n == |configs| {
      assert configs[..n] == configs;
    } else {
      assert configs[..|configs| - 1][..n] == configs[..n];
      RebuildStops(k, s, configs[..|configs| - 1], n);
    }
  }
}
