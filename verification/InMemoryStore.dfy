/** The datastore object: every call does to its collection what `Apply` says, and nothing to any other. */
module InMemoryStores {
  import opened Wrappers
  import opened Properties
  import opened Datatables
  import opened Datastores
  import opened IndexFreshness

  class InMemoryDatastore {
    const schema: map<string, Entity>
    const generate: Generator
    /** The properties of each entity, in the order of its dictionary. */
    const order: map<string, seq<string>>
    const searches: seq<Search>
    var tables: map<string, Datatable>
    var configs: seq<Config>
    var generators: set<string>
    var indices: map<string, map<string, Snapshot>>

    function VectorColumn(c: string): string
      requires c in schema
    {
      FirstVector(schema[c], if c in order then order[c] else [])
    }

    ghost predicate Valid()
      reads this, tables.Values
    {
      TablesValid() && indices.Keys == schema.Keys && ConfigsValid()
    }

    /** One table per collection, none of them shared. */
    ghost predicate TablesValid()
      reads this`tables, tables.Values
    {
      && tables.Keys == schema.Keys
      && (forall c | c in tables :: tables[c].entity == schema[c] && tables[c].Valid())
      && (forall c, d | c in tables && d in tables && c != d :: tables[c] != tables[d])
    }

    /** Every collection with a generator has a configuration to rebuild. */
    ghost predicate ConfigsValid()
      reads this`configs, this`generators
    {
      && NamesDistinct(configs)
      && generators <= schema.Keys
      && (forall c | c in generators :: Relevant(configs, c) != [])
    }

    ghost function RowsIn(c: string): seq<Row>
      requires TablesValid() && c in tables
      reads this`tables, tables.Values
    {
      tables[c].Rows()
    }

    ghost function StateOf(c: string): State
      requires TablesValid() && c in tables && c in indices
      reads this`tables, this`indices, tables.Values
    {
      State(RowsIn(c), indices[c])
    }

    function CollectionOf(c: string): Collection
      requires c in schema
      reads this`configs, this`generators
    {
      Collection(c, schema[c], VectorName(configs, c, VectorColumn(c)), c in generators, Relevant(configs, c), generate)
    }

    /** The collections of a datastore with a generator are the ones the freshness results are about. */
    lemma {:induction false} GeneratingIsIndexed(c: string)
      requires Valid() && c in generators
      ensures Indexed(CollectionOf(c)) && CollectionOf(c).relevant != []
    {
      RelevantDistinct(configs, c);
    }

    /**
     * `__init__`, after the schema is complete and `_build_config_maps` has rejected equal names; `order` lists the
     * properties of each entity.
     */
    constructor (schema: map<string, Entity>, order: map<string, seq<string>>, configs: seq<Config>,
                 searches: seq<Search>, generate: Generator)
      requires NamesDistinct(configs)
      ensures Valid() && this.schema == schema && this.order == order && fresh(tables.Values)
      ensures generators == Generating(Vectored(schema), searches)
      ensures forall c | c in schema :: StateOf(c) == State([], map[])
      ensures configs <= this.configs
    {
      this.schema := schema;
      this.configs := configs;
      this.generate := generate;
      this.order := order;
      this.searches := searches;
      tables := map[];
      generators := {};
      indices := map c | c in schema :: map[];
      new;
      CreateTables();
      InitializeVectors(Vectored(schema));
    }

    /** One empty table per collection. */
    method CreateTables()
      requires tables == map[]
      modifies this`tables
      ensures tables.Keys == schema.Keys
      ensures forall c | c in tables ::
                fresh(tables[c]) && tables[c].entity == schema[c] && tables[c].Valid() && tables[c].Rows() == []
      ensures forall c, d | c in tables && d in tables && c != d :: tables[c] != tables[d]
    {
      var left := schema.Keys;
      while left != {}
        invariant left <= schema.Keys && tables.Keys == schema.Keys - left
        invariant forall c | c in tables ::
                    fresh(tables[c]) && tables[c].entity == schema[c] && tables[c].Valid() && tables[c].Rows() == []
        invariant forall c, d | c in tables && d in tables && c != d :: tables[c] != tables[d]
        decreases left
      {
        var c :| c in left;
        var table := new Datatable(schema[c]);
        tables := tables[c := table];
        left := left - {c};
      }
    }

    /** `_initialize_vector_infrastructure`: a configuration for every collection with vectors. */
    method InitializeVectors(vectored: set<string>)
      requires ConfigsValid() && generators == {} && vectored <= schema.Keys
      modifies this`configs, this`generators
      ensures ConfigsValid() && generators == Generating(vectored, searches) && old(configs) <= configs
    {
      var left, done := vectored, {};
      while left != {}
        invariant left + done == vectored && ConfigsValid() && old(configs) <= configs
        invariant generators == Generating(done, searches)
        decreases left
      {
        var c :| c in left;
        FindOrCreateConfig(c);
        GeneratingGrows(done, searches, c);
        var embeds := FindEmbeddingModel(c);
        if embeds {
          generators := generators + {c};
        }
        left, done := left - {c}, done + {c};
      }
      assert done == vectored;
    }

    /** `_find_or_create_vector_config`. */
    method FindOrCreateConfig(c: string)
      requires ConfigsValid() && c in schema
      modifies this`configs
      ensures ConfigsValid() && Relevant(configs, c) != []
      ensures configs == if Relevant(old(configs), c) != [] then old(configs)
                         else old(configs) + [Config(ImplicitName(c), c, VectorName(old(configs), c, VectorColumn(c)))]
    {
      var relevant := FindRelevant(c);
      if relevant == [] {
        var column := FindVectorName(c);
        var config := Config(ImplicitName(c), c, column);
        forall d | Relevant(configs, d) != [] ensures Relevant(configs + [config], d) != [] {
          RelevantGrows(configs, config, d);
        }
        ImplicitIsRelevant(configs, config, c);
        configs := configs + [config];
      }
    }

    /** `_get_first_embedding_model`. */
    method FindEmbeddingModel(c: string) returns (found: bool)
      ensures found == Embeds(searches, c)
    {
      for i := 0 to |searches|
        invariant !Embeds(searches[..i], c)
      {
        if searches[i].embeds && (searches[i].collection == "" || searches[i].collection == c) {
          return true;
        }
      }
      assert searches[..|searches|] == searches;
      return false;
    }

    /** `_get_first_vector_property_name`. */
    method FindVectorName(c: string) returns (r: string)
      requires c in schema
      ensures r == VectorName(configs, c, VectorColumn(c))
    {
      ghost var column := VectorColumn(c);
      for i := 0 to |configs|
        invariant VectorName(configs, c, column) == VectorName(configs[i..], c, column)
      {
        if configs[i].collection != "" && configs[i].collection == c && configs[i].vectorProperty != "" {
          return configs[i].vectorProperty;
        }
      }
      var names := if c in order then order[c] else [];
      for i := 0 to |names|
        invariant column == FirstVector(schema[c], names[i..])
      {
        if names[i] in schema[c] && schema[c][names[i]].kind.VectorK? {
          return names[i];
        }
      }
      return IMPLICIT_COLUMN;
    }

    /** The configurations of a collection: those that name it, or else the implicit one. */
    method FindRelevant(c: string) returns (r: seq<Config>)
      ensures r == Relevant(configs, c)
    {
      r := [];
      for i := 0 to |configs|
        invariant r == Datastores.Matching(configs[..i], c)
      {
        assert configs[..i + 1][..i] == configs[..i];
        if configs[i].collection != "" && configs[i].collection == c {
          r := r + [configs[i]];
        }
      }
      assert configs[..|configs|] == configs;
      if r == [] {
        for i := 0 to |configs|
          invariant WithName(configs, ImplicitName(c)) == WithName(configs[i..], ImplicitName(c))
        {
          if configs[i].name == "vector_" + c {
            return [configs[i]];
          }
        }
      }
    }

    /** `_affects_vectors`. */
    method CheckAffects(c: string, update: Row) returns (r: bool)
      requires c in schema
      ensures r == AffectsVectors(CollectionOf(c), update)
    {
      if c !in generators {
        return false;
      }
      var column := FindVectorName(c);
      if column in update {
        return true;
      }
      var left := update.Keys;
      while left != {}
        invariant left <= update.Keys
        invariant forall n | n in update && n !in left :: !(IsText(update[n]) && !Hidden(n))
        decreases left
      {
        var n :| n in left;
        if update[n].Atom? && update[n].p.PStr? && !(['_'] <= n) {
          assert IsText(update[n]) && !Hidden(n);
          return true;
        }
        left := left - {n};
      }
      return false;
    }

    /** `_process_vectors_for_entities`. */
    method ProcessVectors(c: string, entities: seq<Row>) returns (r: Outcome)
      requires c in schema
      ensures r == Vectorised(CollectionOf(c), entities)
    {
      if c !in generators {
        return Ok(entities);
      }
      var column := FindVectorName(c);
      if column !in schema[c] {
        return Raise(MissingVectorColumn);
      }
      if entities == [] {
        return Raise(NoEntities);
      }
      if Embedded(entities[0], column) {
        return Ok(entities);
      }
      var vectors := generate(c, entities);
      var rows := entities;
      var i := 0;
      while i < |entities| && i < |vectors|
        invariant 0 <= i <= |entities| == |rows|
        invariant i <= |vectors|
        invariant forall j | 0 <= j < |rows| ::
                    rows[j] == if j < i then entities[j][column := vectors[j]] else entities[j]
      {
        rows := rows[i := rows[i][column := vectors[i]]];
        i := i + 1;
      }
      assert rows == WithVectors(entities, vectors, column);
      return Ok(rows);
    }

    method FindEmbedded(rows: seq<Row>, column: string) returns (r: Option<Value>)
      ensures r == FirstEmbedded(rows, column)
    {
      for i := 0 to |rows|
        invariant FirstEmbedded(rows, column) == FirstEmbedded(rows[i..], column)
      {
        if Embedded(rows[i], column) {
          return Some(rows[i][column]);
        }
      }
      return None;
    }

    /** `_rebuild_affected_indices` for one configuration. */
    method RebuildIndex(c: string, config: Config, entities: seq<Row>) returns (e: Option<DatastoreError>)
      requires c in schema && c in indices
      modifies this`indices
      ensures indices.Keys == old(indices.Keys)
      ensures (State(entities, indices[c]), e)
           == RebuiltFor(CollectionOf(c), State(entities, old(indices[c])), config)
      ensures forall d | d in indices && d != c :: indices[d] == old(indices[d])
    {
      var column := config.vectorProperty;
      if column == "" {
        column := FindVectorName(c);
      }
      var first := FindEmbedded(entities, column);
      if first.None? {
        return None;
      }
      if !HasLength(first.value) {
        return Some(LengthOfScalar);
      }
      if config.name == "" {
        return Some(UnnamedConfig);
      }
      indices := indices[c := indices[c][config.name := Snapshot(entities, column)]];
      return None;
    }

    /** The loop of `_rebuild_affected_indices`. */
    method RebuildIndices(c: string, relevant: seq<Config>, entities: seq<Row>) returns (e: Option<DatastoreError>)
      requires c in schema && c in indices
      modifies this`indices
      ensures indices.Keys == old(indices.Keys)
      ensures (State(entities, indices[c]), e)
           == Rebuilt(CollectionOf(c), State(entities, old(indices[c])), relevant)
      ensures forall d | d in indices && d != c :: indices[d] == old(indices[d])
    {
      ghost var k, s := CollectionOf(c), State(entities, indices[c]);
      for i := 0 to |relevant|
        invariant indices.Keys == old(indices.Keys)
        invariant (State(entities, indices[c]), None) == Rebuilt(k, s, relevant[..i])
        invariant forall d | d in indices && d != c :: indices[d] == old(indices[d])
      {
        assert relevant[..i + 1][..i] == relevant[..i];
        e := RebuildIndex(c, relevant[i], entities);
        if e.Some? {
          RebuildStops(k, s, relevant, i + 1);
          return;
        }
      }
      assert relevant[..|relevant|] == relevant;
      return None;
    }

    /** `_rebuild_affected_indices`. */
    method RebuildAffectedIndices(c: string, entities: seq<Row>) returns (e: Option<DatastoreError>)
      requires c in schema && c in indices
      modifies this`indices
      ensures indices.Keys == old(indices.Keys)
      ensures (State(entities, indices[c]), e)
           == Rebuilt(CollectionOf(c), State(entities, old(indices[c])), CollectionOf(c).relevant)
      ensures forall d | d in indices && d != c :: indices[d] == old(indices[d])
    {
      var relevant := FindRelevant(c);
      e := RebuildIndices(c, relevant, entities);
    }

    /** The end of a call: `soFar` is what it would return without a rebuild. */
    method Reindex(c: string, entities: seq<Row>, soFar: Outcome, due: bool) returns (r: Outcome)
      requires c in schema && c in indices
      modifies this`indices
      ensures indices.Keys == old(indices.Keys)
      ensures (State(entities, indices[c]), r)
           == Reindexed(CollectionOf(c), (State(entities, old(indices[c])), soFar), due)
      ensures forall d | d in indices && d != c :: indices[d] == old(indices[d])
    {
      r := soFar;
      if r.Ok? && due {
        var e := RebuildAffectedIndices(c, entities);
        if e.Some? {
          r := Raise(e.value);
        }
      }
    }

    /** The end of a call on one collection: no table changes. */
    method ReindexTable(c: string, soFar: Outcome, due: bool) returns (r: Outcome)
      requires TablesValid() && indices.Keys == schema.Keys && c in schema
      modifies this`indices
      ensures TablesValid() && indices.Keys == schema.Keys
      ensures (State(RowsIn(c), indices[c]), r)
           == Reindexed(CollectionOf(c), (State(RowsIn(c), old(indices[c])), soFar), due)
      ensures forall d | d in schema :: RowsIn(d) == old(RowsIn(d)) && (d != c ==> indices[d] == old(indices[d]))
    {
      r := Reindex(c, tables[c].Rows(), soFar, due);
    }

    // ---- One table, within the datastore ----

    method UpdateTable(c: string, where_: Row, update: Row) returns (r: Outcome)
      requires TablesValid() && c in schema
      modifies tables[c]
      ensures TablesValid()
      ensures (RowsIn(c), r) == TableUpdated(schema[c], old(RowsIn(c)), where_, update)
      ensures forall d | d in schema && d != c :: RowsIn(d) == old(RowsIn(d))
    {
      r := tables[c].Update(where_, update);
    }

    method DeleteFromTable(c: string, where_: Row) returns (r: Outcome)
      requires TablesValid() && c in schema
      modifies tables[c]
      ensures TablesValid()
      ensures (RowsIn(c), r) == TableDeleted(schema[c], old(RowsIn(c)), where_)
      ensures forall d | d in schema && d != c :: RowsIn(d) == old(RowsIn(d))
    {
      var e := tables[c].Delete(where_);
      r := if e.Some? then Raise(e.value) else Ok([]);
    }

    method CreateInTable(c: string, entities: seq<Row>) returns (r: Outcome)
      requires TablesValid() && c in schema && (entities != [] || RowsIn(c) != [])
      modifies tables[c]
      ensures TablesValid()
      ensures (RowsIn(c), r) == TableCreated(schema[c], old(RowsIn(c)), entities)
      ensures forall d | d in schema && d != c :: RowsIn(d) == old(RowsIn(d))
    {
      r := tables[c].Create(entities);
    }

    // ---- The calls ----

    /** The table a call may write: the one of its collection. */
    function Touched(c: string): set<Datatable>
      reads this`tables
    {
      if c in tables then {tables[c]} else {}
    }

    /** `list`. */
    method List(c: string, where_: Option<Row>, limit: Option<int>) returns (r: Outcome)
      requires Valid()
      ensures c !in schema ==> r == Raise(UnknownCollection)
      ensures c in schema && StateOf(c).rows == [] ==> r == Ok([])
      ensures c in schema && StateOf(c).rows != [] ==>
                r == if where_.None? then Ok(Limited(StateOf(c).rows, limit))
                     else if !Partial(schema[c], where_.value) then Raise(EntityError)
                     else Ok(Limited(Selected(StateOf(c).rows, where_.value), limit))
    {
      if c !in schema {
        return Raise(UnknownCollection);
      }
      r := tables[c].List(where_, limit);
    }

    /** `update`: a vector-affecting update that matches nothing raises after the table has been written. */
    method Update(c: string, where_: Row, update: Row) returns (r: Outcome)
      requires Valid()
      modifies this`indices, Touched(c)
      ensures Valid()
      ensures c !in schema ==> r == Raise(UnknownCollection)
      ensures c in schema ==> (StateOf(c), r) == Apply(CollectionOf(c), old(StateOf(c)), UpdateCall(where_, update))
      ensures forall d | d in schema && d != c :: StateOf(d) == old(StateOf(d))
    {
      if c !in schema {
        return Raise(UnknownCollection);
      }
      r := UpdateKnown(c, where_, update);
    }

    method UpdateKnown(c: string, where_: Row, update: Row) returns (r: Outcome)
      requires TablesValid() && indices.Keys == schema.Keys && c in schema
      modifies this`indices, tables[c]
      ensures TablesValid() && indices.Keys == schema.Keys
      ensures (State(RowsIn(c), indices[c]), r)
           == AfterUpdate(CollectionOf(c), State(old(RowsIn(c)), old(indices[c])), where_, update)
      ensures forall d | d in schema && d != c :: RowsIn(d) == old(RowsIn(d)) && indices[d] == old(indices[d])
    {
      r := UpdateTable(c, where_, update);
      var affected := CheckAffects(c, update);
      r := ReturnUpdated(c, r, affected);
    }

    method ReturnUpdated(c: string, updated: Outcome, affected: bool) returns (r: Outcome)
      requires TablesValid() && indices.Keys == schema.Keys && c in schema
      modifies this`indices
      ensures TablesValid() && indices.Keys == schema.Keys
      ensures (State(RowsIn(c), indices[c]), r)
           == Returned(CollectionOf(c), (State(RowsIn(c), old(indices[c])), updated), affected)
      ensures forall d | d in schema :: RowsIn(d) == old(RowsIn(d)) && (d != c ==> indices[d] == old(indices[d]))
    {
      r := updated;
      if r.Ok? && affected {
        r := ProcessVectors(c, r.value);
        r := ReindexTable(c, r, true);
      }
    }

    /** `delete`. */
    method Delete(c: string, where_: Row) returns (r: Outcome)
      requires Valid()
      modifies this`indices, Touched(c)
      ensures Valid()
      ensures c !in schema ==> r == Raise(UnknownCollection)
      ensures c in schema ==> (StateOf(c), r) == Apply(CollectionOf(c), old(StateOf(c)), DeleteCall(where_))
      ensures forall d | d in schema && d != c :: StateOf(d) == old(StateOf(d))
    {
      if c !in schema {
        return Raise(UnknownCollection);
      }
      r := DeleteKnown(c, where_);
    }

    method DeleteKnown(c: string, where_: Row) returns (r: Outcome)
      requires TablesValid() && indices.Keys == schema.Keys && c in schema
      modifies this`indices, tables[c]
      ensures TablesValid() && indices.Keys == schema.Keys
      ensures (State(RowsIn(c), indices[c]), r)
           == AfterDelete(CollectionOf(c), State(old(RowsIn(c)), old(indices[c])), where_)
      ensures forall d | d in schema && d != c :: RowsIn(d) == old(RowsIn(d)) && indices[d] == old(indices[d])
    {
      r := DeleteFromTable(c, where_);
      r := ReindexTable(c, r, c in generators);
    }

    /** `create` of a batch. */
    method Create(c: string, entities: seq<Row>) returns (r: Outcome)
      requires Valid() && (c in schema ==> entities != [] || c in generators || StateOf(c).rows != [])
      modifies this`indices, Touched(c)
      ensures Valid()
      ensures c !in schema ==> r == Raise(UnknownCollection)
      ensures c in schema ==> (StateOf(c), r) == Apply(CollectionOf(c), old(StateOf(c)), CreateCall(entities))
      ensures forall d | d in schema && d != c :: StateOf(d) == old(StateOf(d))
    {
      if c !in schema {
        return Raise(UnknownCollection);
      }
      r := CreateKnown(c, entities);
    }

    method CreateKnown(c: string, entities: seq<Row>) returns (r: Outcome)
      requires TablesValid() && indices.Keys == schema.Keys && c in schema
      requires entities != [] || c in generators || RowsIn(c) != []
      modifies this`indices, tables[c]
      ensures TablesValid() && indices.Keys == schema.Keys
      ensures (State(RowsIn(c), indices[c]), r)
           == Created(CollectionOf(c), State(old(RowsIn(c)), old(indices[c])), entities)
      ensures forall d | d in schema && d != c :: RowsIn(d) == old(RowsIn(d)) && indices[d] == old(indices[d])
    {
      r := Prepare(c, entities);
      if r.Ok? {
        r := Store(c, r.value);
      }
    }

    /** Defaults and vectors, for collections with a generator. */
    method Prepare(c: string, entities: seq<Row>) returns (r: Outcome)
      requires c in schema
      ensures r == Prepared(CollectionOf(c), entities)
      ensures r.Ok? && (entities != [] || c in generators) ==> r.value != []
    {
      r := Ok(entities);
      if c in generators {
        r := ProcessVectors(c, WithDefaults(schema[c], entities));
      }
    }

    method Store(c: string, entities: seq<Row>) returns (r: Outcome)
      requires TablesValid() && indices.Keys == schema.Keys && c in schema
      requires entities != [] || RowsIn(c) != []
      modifies this`indices, tables[c]
      ensures TablesValid() && indices.Keys == schema.Keys
      ensures (State(RowsIn(c), indices[c]), r)
           == Stored(CollectionOf(c), State(old(RowsIn(c)), old(indices[c])), entities)
      ensures forall d | d in schema && d != c :: RowsIn(d) == old(RowsIn(d)) && indices[d] == old(indices[d])
    {
      r := CreateInTable(c, entities);
      r := ReindexTable(c, r, c in generators);
    }
  }
}
