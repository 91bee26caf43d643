/** One collection of the in-memory datastore: columns of cells, read and written through row masks. */
module Datatables {
  import opened Wrappers
  import opened Properties

  /** An entity as a dictionary from column names to values. */
  type Row = map<string, Value>

  type Entity = map<string, Property>

  datatype DatastoreError =
    EntityError | UnknownCollection | NoEntities | MissingVectorColumn | UnnamedConfig | LengthOfScalar

  // ---- Validation ----

  /** `validate_partial_entity`: known names with values of their type. */
  predicate Partial(e: Entity, r: Row) {
    forall n | n in r :: n in e && IsMember(r[n], e[n])
  }

  predicate Conforms(e: Entity, r: Row) {
    Partial(e, r) && forall n | n in e :: n in r
  }

  function EntityDefaults(e: Entity): Row {
    map n | n in e && e[n].default.Some? :: e[n].default.value
  }

  // ---- Rows: the reference definition of every operation ----

  /** Elementwise equality of a column with a value: a missing cell equals nothing. */
  predicate CellEq(cell: Value, v: Value) {
    if cell.Atom? && v.Atom? then cell.p != PNull && PyEq(cell.p, v.p) else cell == v
  }

  /** All conditions hold, and there is at least one. */
  predicate Matches(r: Row, where_: Row) {
    where_ != map[] && forall n | n in where_ :: n in r && CellEq(r[n], where_[n])
  }

  function Selected(rows: seq<Row>, where_: Row): seq<Row> {
    if rows == [] then []
    else Selected(rows[..|rows| - 1], where_) + if Matches(rows[|rows| - 1], where_) then [rows[|rows| - 1]] else []
  }

  function Remaining(rows: seq<Row>, where_: Row): seq<Row> {
    if rows == [] then []
    else Remaining(rows[..|rows| - 1], where_) + if Matches(rows[|rows| - 1], where_) then [] else [rows[|rows| - 1]]
  }

  function Updated(rows: seq<Row>, where_: Row, update: Row): (r: seq<Row>)
    ensures |r| == |rows|
    ensures forall i | 0 <= i < |rows| :: r[i] == if Matches(rows[i], where_) then rows[i] + update else rows[i]
  {
    seq(|rows|, i requires 0 <= i < |rows| => if Matches(rows[i], where_) then rows[i] + update else rows[i])
  }

  /** The new values of the rows that matched before the update. */
  function UpdatedOnly(rows: seq<Row>, where_: Row, update: Row): seq<Row> {
    if rows == [] then []
    else
      var n := |rows| - 1;
      UpdatedOnly(rows[..n], where_, update) + if Matches(rows[n], where_) then [rows[n] + update] else []
  }

  /** `data.iloc[:limit]`: a negative limit counts from the end. */
  function Limited(rows: seq<Row>, limit: Option<int>): seq<Row> {
    match limit
    case None => rows
    case Some(k) =>
      if k >= 0 then (if k <= |rows| then rows[..k] else rows)
      else if -k <= |rows| then rows[..|rows| + k] else []
  }

  /** A limit keeps that many rows from the front, a negative one all but that many at the end. */
  lemma {:induction false} LimitKeeps(rows: seq<Row>, limit: int)
    ensures Limited(rows, Some(limit)) <= rows
    ensures limit >= |rows| ==> Limited(rows, Some(limit)) == rows
    ensures 0 <= limit < |rows| ==> |Limited(rows, Some(limit))| == limit
    ensures -|rows| < limit < 0 ==> |Limited(rows, Some(limit))| == |rows| + limit
    ensures limit <= -|rows| && limit < 0 ==> Limited(rows, Some(limit)) == []
    ensures Limited(rows, None) == rows
  {
  }

  /** A condition on `None` selects nothing, not even a cell that holds it; numbers match by their value. */
  lemma {:induction false} MatchesByValue(r: Row, n: string, p: Prim)
    requires n in r && r[n].Atom?
    ensures Matches(r, map[n := Atom(p)]) <==> r[n].p != PNull && Number(r[n].p) == Number(p)
    ensures !Matches(r, map[n := NoneValue])
  {
    assert n in map[n := Atom(p)] && n in map[n := NoneValue];
  }

  // ---- What the operations do to the rows as a whole ----

  /** Deleting splits the rows without losing or inventing any. */
  lemma {:induction false} DeleteSplits(rows: seq<Row>, where_: Row)
    ensures multiset(Selected(rows, where_)) + multiset(Remaining(rows, where_)) == multiset(rows)
    decreases |rows|
  {
    if rows != [] {
      var n := |rows| - 1;
      DeleteSplits(rows[..n], where_);
      assert rows == rows[..n] + [rows[n]];
      assert Matches(rows[n], where_) || !Matches(rows[n], where_);
    }
  }

  /** Exactly the matching rows are taken out, and nothing at all by an empty condition. */
  lemma {:induction false} DeleteTakesMatching(rows: seq<Row>, where_: Row)
    ensures forall r | r in Selected(rows, where_) :: Matches(r, where_)
    ensures forall r | r in Remaining(rows, where_) :: !Matches(r, where_)
    ensures where_ == map[] ==> Remaining(rows, where_) == rows
    decreases |rows|
  {
    if rows != [] {
      DeleteTakesMatching(rows[..|rows| - 1], where_);
      assert rows == rows[..|rows| - 1] + [rows[|rows| - 1]];
    }
  }

  lemma {:induction false} NothingMatches(rows: seq<Row>, where_: Row)
    requires forall r | r in rows :: !Matches(r, where_)
    ensures Remaining(rows, where_) == rows && Selected(rows, where_) == []
    decreases |rows|
  {
    if rows != [] {
      assert rows == rows[..|rows| - 1] + [rows[|rows| - 1]];
      NothingMatches(rows[..|rows| - 1], where_);
    }
  }

  lemma {:induction false} EverythingMatches(rows: seq<Row>, where_: Row)
    requires forall i | 0 <= i < |rows| :: Matches(rows[i], where_)
    ensures Remaining(rows, where_) == []
    decreases |rows|
  {
    if rows != [] {
      EverythingMatches(rows[..|rows| - 1], where_);
    }
  }

  /** Deleting twice by the same condition is deleting once. */
  lemma {:induction false} DeleteIdempotent(rows: seq<Row>, where_: Row)
    ensures Remaining(Remaining(rows, where_), where_) == Remaining(rows, where_)
    ensures Selected(Remaining(rows, where_), where_) == []
  {
    DeleteTakesMatching(rows, where_);
    NothingMatches(Remaining(rows, where_), where_);
  }

  /** An update returns as many rows as it matched, even when it changes a column it filtered on. */
  lemma {:induction false} UpdateReturnsMatched(rows: seq<Row>, where_: Row, update: Row)
    ensures |UpdatedOnly(rows, where_, update)| == |Selected(rows, where_)|
    ensures forall i | 0 <= i < |Selected(rows, where_)| ::
              UpdatedOnly(rows, where_, update)[i] == Selected(rows, where_)[i] + update
    ensures forall r | r in UpdatedOnly(rows, where_, update) :: r in Updated(rows, where_, update)
    decreases |rows|
  {
    if rows != [] {
      var n := |rows| - 1;
      UpdateReturnsMatched(rows[..n], where_, update);
      assert Updated(rows, where_, update) ==
          Updated(rows[..n], where_, update) + [if Matches(rows[n], where_) then rows[n] + update else rows[n]];
    }
  }

  /** Without touching the filtered columns, the rows returned are the ones a listing would now select. */
  lemma {:induction false} UpdateThenList(rows: seq<Row>, where_: Row, update: Row)
    requires where_.Keys !! update.Keys
    ensures Selected(Updated(rows, where_, update), where_) == UpdatedOnly(rows, where_, update)
    decreases |rows|
  {
    if rows != [] {
      var n := |rows| - 1;
      var r := rows[n];
      UpdateThenList(rows[..n], where_, update);
      var us := Updated(rows, where_, update);
      assert us[..n] == Updated(rows[..n], where_, update);
      assert Matches(r, where_) ==> Matches(r + update, where_);
    }
  }

  // ---- Columns ----

  /** Every column holds one cell per row. */
  predicate Columnar(columns: map<string, seq<Value>>, count: nat) {
    forall n | n in columns :: |columns[n]| == count
  }

  function RowsOf(columns: map<string, seq<Value>>, count: nat): (rows: seq<Row>)
    requires Columnar(columns, count)
    ensures |rows| == count
    ensures forall i | 0 <= i < count :: rows[i].Keys == columns.Keys
    ensures forall i, n | 0 <= i < count && n in columns :: rows[i][n] == columns[n][i]
  {
    seq(count, i requires 0 <= i < count => map n | n in columns :: columns[n][i])
  }

  /** `data.loc[mask, column] = v`. */
  function Written(column: seq<Value>, mask: seq<bool>, v: Value): (r: seq<Value>)
    requires |mask| == |column|
    ensures |r| == |column|
    ensures forall i | 0 <= i < |r| :: r[i] == if mask[i] then v else column[i]
  {
    seq(|column|, i requires 0 <= i < |column| => if mask[i] then v else column[i])
  }

  function ColumnOf(rows: seq<Row>, n: string): (r: seq<Value>)
    requires forall i | 0 <= i < |rows| :: n in rows[i]
    ensures |r| == |rows|
    ensures forall i | 0 <= i < |rows| :: r[i] == rows[i][n]
  {
    seq(|rows|, i requires 0 <= i < |rows| => rows[i][n])
  }

  /** Writing each updated column under one mask is updating each row the mask selects. */
  lemma {:induction false} WrittenColumns(before: map<string, seq<Value>>, after: map<string, seq<Value>>, count: nat,
                       mask: seq<bool>, where_: Row, update: Row)
    requires Columnar(before, count) && Columnar(after, count) && |mask| == count
    requires after.Keys == before.Keys && update.Keys <= before.Keys
    requires forall n | n in before ::
               after[n] == if n in update then Written(before[n], mask, update[n]) else before[n]
    requires forall i | 0 <= i < count :: mask[i] == Matches(RowsOf(before, count)[i], where_)
    ensures RowsOf(after, count) == Updated(RowsOf(before, count), where_, update)
  {
    var rows, news := RowsOf(before, count), RowsOf(after, count);
    forall i | 0 <= i < count ensures news[i] == Updated(rows, where_, update)[i] {
      if mask[i] {
        assert news[i] == rows[i] + update;
      } else {
        assert news[i] == rows[i];
      }
    }
  }

  lemma {:induction false} AppendedColumns(before: map<string, seq<Value>>, count: nat, data: seq<Row>,
    after: map<string, seq<Value>>)
    requires Columnar(before, count) && after.Keys == before.Keys
    requires forall i | 0 <= i < |data| :: data[i].Keys == before.Keys
    requires forall n | n in before :: after[n] == before[n] + ColumnOf(data, n)
    ensures Columnar(after, count + |data|)
    ensures RowsOf(after, count + |data|) == RowsOf(before, count) + data
  {
    var news, all := RowsOf(after, count + |data|), RowsOf(before, count) + data;
    forall i | 0 <= i < |all| ensures news[i] == all[i] {
      assert news[i].Keys == all[i].Keys;
    }
  }

  lemma {:induction false} KeptColumns(kept: seq<Row>, columns: map<string, seq<Value>>)
    requires forall i | 0 <= i < |kept| :: kept[i].Keys == columns.Keys
    requires forall n | n in columns :: columns[n] == ColumnOf(kept, n)
    ensures Columnar(columns, |kept|)
    ensures RowsOf(columns, |kept|) == kept
  {
    var rows := RowsOf(columns, |kept|);
    forall i | 0 <= i < |kept| ensures rows[i] == kept[i] {
      assert rows[i].Keys == kept[i].Keys;
    }
  }

  // ---- The table ----

  class Datatable {
    const entity: Entity
    var columns: map<string, seq<Value>>
    var count: nat

    constructor (entity: Entity)
      ensures this.entity == entity && Valid() && Rows() == []
    {
      this.entity := entity;
      columns := map n | n in entity :: [];
      count := 0;
    }

    /** The columns are the entity's, and every stored row conforms to it. */
    ghost predicate Valid()
      reads this
    {
      columns.Keys == entity.Keys && Columnar(columns, count) && AllConform(entity, RowsOf(columns, count))
    }

    /** The table as a sequence of rows. */
    function Rows(): seq<Row>
      requires Columnar(columns, count)
      reads this
    {
      RowsOf(columns, count)
    }

    /** `_convert_where_to_filter`: the conjunction of one boolean column per condition. */
    method Filter(where_: Row) returns (mask: seq<bool>)
      requires Valid() && where_.Keys <= entity.Keys
      ensures |mask| == count
      ensures forall i | 0 <= i < count :: mask[i] == Matches(Rows()[i], where_)
    {
      if where_ == map[] {
        return seq(count, i => false);
      }
      mask := seq(count, i => true);
      var left := where_.Keys;
      while left != {}
        invariant left <= where_.Keys && |mask| == count
        invariant forall i | 0 <= i < count ::
                    mask[i] <==> forall n | n in where_ && n !in left :: CellEq(columns[n][i], where_[n])
        decreases left
      {
        var n :| n in left;
        var clause := Equals(columns[n], where_[n]);
        mask := And(mask, clause);
        left := left - {n};
      }
    }

    method Validate(r: Row) returns (ok: bool)
      ensures ok <==> Partial(entity, r)
    {
      var left := r.Keys;
      while left != {}
        invariant left <= r.Keys
        invariant forall n | n in r && n !in left :: n in entity && IsMember(r[n], entity[n])
        decreases left
      {
        var n :| n in left;
        if n !in entity || !IsMember(r[n], entity[n]) {
          return false;
        }
        left := left - {n};
      }
      return true;
    }

    /** `validate_entities`. */
    method ValidateAll(data: seq<Row>) returns (ok: bool)
      ensures ok <==> AllConform(entity, data)
    {
      for i := 0 to |data|
        invariant AllConform(entity, data[..i])
      {
        ok := Validate(data[i]);
        if !ok || !(forall n | n in entity :: n in data[i]) {
          assert !Conforms(entity, data[i]);
          return false;
        }
        assert data[..i + 1] == data[..i] + [data[i]];
      }
      assert data[..|data|] == data;
      return true;
    }

    /** The rows under a mask, in order. */
    method Pick(mask: seq<bool>, wanted: bool) returns (r: seq<Row>)
      requires Columnar(columns, count) && |mask| == count
      ensures r == Picked(Rows(), mask, wanted)
    {
      var rows := Rows();
      r := [];
      for i := 0 to count
        invariant r == Picked(rows[..i], mask[..i], wanted)
      {
        assert rows[..i + 1][..i] == rows[..i] && mask[..i + 1][..i] == mask[..i];
        if mask[i] == wanted {
          r := r + [rows[i]];
        }
      }
      assert rows[..count] == rows && mask[..count] == mask;
    }

    /** `list`; an empty table answers before looking at the condition. */
    method List(where_: Option<Row>, limit: Option<int>) returns (r: Result<seq<Row>, DatastoreError>)
      requires Valid()
      ensures r == if Rows() == [] then Ok([])
                   else if where_.None? then Ok(Limited(Rows(), limit))
                   else if !Partial(entity, where_.value) then Raise(EntityError)
                   else Ok(Limited(Selected(Rows(), where_.value), limit))
    {
      if count == 0 {
        return Ok([]);
      }
      var data := Rows();
      if where_.Some? {
        var ok := Validate(where_.value);
        if !ok {
          return Raise(EntityError);
        }
        var mask := Filter(where_.value);
        data := Pick(mask, true);
        PickedIsSelected(Rows(), mask, where_.value);
      }
      return Ok(Limited(data, limit));
    }

    /** Write every updated column under a mask taken beforehand. */
    method Write(mask: seq<bool>, update: Row)
      requires Columnar(columns, count) && |mask| == count && update.Keys <= columns.Keys
      modifies this`columns
      ensures columns.Keys == old(columns.Keys) && Columnar(columns, count)
      ensures forall n | n in columns ::
                columns[n] == if n in update then Written(old(columns)[n], mask, update[n]) else old(columns)[n]
    {
      var left := update.Keys;
      while left != {}
        invariant left <= update.Keys && columns.Keys == old(columns.Keys) && Columnar(columns, count)
        invariant forall n | n in columns ::
                    columns[n] == if n in update && n !in left then Written(old(columns)[n], mask, update[n])
                                  else old(columns)[n]
        decreases left
      {
        var n :| n in left;
        columns := columns[n := Written(columns[n], mask, update[n])];
        left := left - {n};
      }
    }

    /** `update`: the mask is taken before any column is written. */
    method Update(where_: Row, update: Row) returns (r: Result<seq<Row>, DatastoreError>)
      requires Valid()
      modifies this`columns
      ensures Valid()
      ensures r.Raise? <==> !(Partial(entity, where_) && Partial(entity, update))
      ensures r.Raise? ==> r.error == EntityError && Rows() == old(Rows())
      ensures r.Ok? ==> Rows() == Updated(old(Rows()), where_, update)
      ensures r.Ok? ==> r.value == UpdatedOnly(old(Rows()), where_, update)
    {
      var ok := Validate(where_);
      if ok {
        ok := Validate(update);
      }
      if !ok {
        return Raise(EntityError);
      }
      ghost var before := Rows();
      var mask := Filter(where_);
      Write(mask, update);
      WrittenColumns(old(columns), columns, count, mask, where_, update);
      UpdatedConform(before, where_, update, entity);
      var picked := Pick(mask, true);
      PickedIsUpdated(before, Rows(), mask, where_, update);
      return Ok(picked);
    }

    /** `pd.concat` with the frame of the new rows. */
    method Append(data: seq<Row>)
      requires Columnar(columns, count)
      requires forall i | 0 <= i < |data| :: data[i].Keys == columns.Keys
      modifies this
      ensures columns.Keys == old(columns.Keys) && Columnar(columns, count)
      ensures Rows() == old(Rows()) + data
    {
      columns := map n | n in columns :: columns[n] + ColumnOf(data, n);
      count := count + |data|;
      AppendedColumns(old(columns), old(count), data, columns);
    }

    /** `create` of a batch: defaults are filled in, every row must conform, or nothing changes. */
    method Create(entities: seq<Row>) returns (r: Result<seq<Row>, DatastoreError>)
      requires Valid() && (entities != [] || count > 0)
      modifies this
      ensures Valid()
      ensures r.Ok? <==> AllConform(entity, WithDefaults(entity, entities))
      ensures r.Raise? ==> r.error == EntityError && Rows() == old(Rows())
      ensures r.Ok? ==> r.value == WithDefaults(entity, entities) && Rows() == old(Rows()) + r.value
      ensures r.Ok? ==> |r.value| == |entities|
      ensures r.Ok? ==> forall i | 0 <= i < |entities| :: FilledRow(entity, entities[i], r.value[i])
    {
      var data := WithDefaults(entity, entities);
      var ok := ValidateAll(data);
      if !ok {
        return Raise(EntityError);
      }
      ConformingKeys(entity, data);
      Append(data);
      AppendedConform(entity, old(Rows()), data);
      return Ok(data);
    }

    /** `delete`; a condition nothing meets is only worth a warning. */
    method Delete(where_: Row) returns (r: Option<DatastoreError>)
      requires Valid()
      modifies this
      ensures Valid()
      ensures r == if Partial(entity, where_) then None else Some(EntityError)
      ensures Rows() == if r.None? then Remaining(old(Rows()), where_) else old(Rows())
    {
      var ok := Validate(where_);
      if !ok {
        return Some(EntityError);
      }
      var mask := Filter(where_);
      var kept := Pick(mask, false);
      PickedIsRemaining(Rows(), mask, where_);
      RemainingConform(Rows(), where_, entity);
      ConformingKeys(entity, kept);
      columns := map n | n in columns :: ColumnOf(kept, n);
      count := |kept|;
      KeptColumns(kept, columns);
      return None;
    }
  }

  // ---- Rows stay well formed ----

  predicate AllConform(e: Entity, rows: seq<Row>) {
    forall i | 0 <= i < |rows| :: Conforms(e, rows[i])
  }

  lemma {:induction false} ConformingKeys(e: Entity, rows: seq<Row>)
    requires AllConform(e, rows)
    ensures forall i | 0 <= i < |rows| :: rows[i].Keys == e.Keys
  {
    forall i | 0 <= i < |rows| ensures rows[i].Keys == e.Keys {
      assert Conforms(e, rows[i]);
    }
  }

  lemma {:induction false} AppendedConform(e: Entity, rows: seq<Row>, data: seq<Row>)
    requires AllConform(e, rows) && AllConform(e, data)
    ensures AllConform(e, rows + data)
  {
  }

  lemma {:induction false} UpdatedConform(rows: seq<Row>, where_: Row, update: Row, e: Entity)
    requires AllConform(e, rows) && Partial(e, update)
    ensures AllConform(e, Updated(rows, where_, update))
  {
    forall i | 0 <= i < |rows| ensures Conforms(e, Updated(rows, where_, update)[i]) {
      assert Conforms(e, rows[i]);
    }
  }

  lemma {:induction false} RemainingConform(rows: seq<Row>, where_: Row, e: Entity)
    requires AllConform(e, rows)
    ensures AllConform(e, Remaining(rows, where_))
    decreases |rows|
  {
    if rows != [] {
      var n := |rows| - 1;
      assert AllConform(e, rows[..n]) by {
        assert forall i | 0 <= i < n :: rows[..n][i] == rows[i];
      }
      RemainingConform(rows[..n], where_, e);
      assert Conforms(e, rows[n]);
    }
  }

  // ---- Masks ----

  function Equals(column: seq<Value>, v: Value): (r: seq<bool>)
    ensures |r| == |column| && forall i | 0 <= i < |r| :: r[i] == CellEq(column[i], v)
  {
    seq(|column|, i requires 0 <= i < |column| => CellEq(column[i], v))
  }

  function And(a: seq<bool>, b: seq<bool>): (r: seq<bool>)
    requires |a| == |b|
    ensures |r| == |a| && forall i | 0 <= i < |r| :: r[i] == (a[i] && b[i])
  {
    seq(|a|, i requires 0 <= i < |a| => a[i] && b[i])
  }

  /** The caller's values, the defaults of the properties not given, and nothing else. */
  ghost predicate FilledRow(e: Entity, given: Row, r: Row) {
    && (forall n :: n in r <==> n in given || (n in e && e[n].default.Some?))
    && (forall n | n in given :: r[n] == given[n])
    && (forall n | n in r && n !in given :: r[n] == e[n].default.value)
  }

  function FilledIn(e: Entity, given: Row): (r: Row)
    ensures FilledRow(e, given, r)
  {
    EntityDefaults(e) + given
  }

  function WithDefaults(e: Entity, entities: seq<Row>): (r: seq<Row>)
    ensures |r| == |entities|
    ensures forall i | 0 <= i < |r| :: FilledRow(e, entities[i], r[i])
  {
    seq(|entities|, i requires 0 <= i < |entities| => FilledIn(e, entities[i]))
  }

  function Picked(rows: seq<Row>, mask: seq<bool>, wanted: bool): seq<Row>
    requires |rows| == |mask|
  {
    if rows == [] then []
    else
      var n := |rows| - 1;
      Picked(rows[..n], mask[..n], wanted) + if mask[n] == wanted then [rows[n]] else []
  }

  lemma {:induction false} PickedIsSelected(rows: seq<Row>, mask: seq<bool>, where_: Row)
    requires |rows| == |mask| && forall i | 0 <= i < |rows| :: mask[i] == Matches(rows[i], where_)
    ensures Picked(rows, mask, true) == Selected(rows, where_)
    decreases |rows|
  {
    if rows != [] {
      PickedIsSelected(rows[..|rows| - 1], mask[..|rows| - 1], where_);
    }
  }

  lemma {:induction false} PickedIsRemaining(rows: seq<Row>, mask: seq<bool>, where_: Row)
    requires |rows| == |mask| && forall i | 0 <= i < |rows| :: mask[i] == Matches(rows[i], where_)
    ensures Picked(rows, mask, false) == Remaining(rows, where_)
    decreases |rows|
  {
    if rows != [] {
      PickedIsRemaining(rows[..|rows| - 1], mask[..|rows| - 1], where_);
    }
  }

  lemma {:induction false} PickedIsUpdated(before: seq<Row>, after: seq<Row>, mask: seq<bool>, where_: Row, update: Row)
    requires |before| == |after| == |mask|
    requires forall i | 0 <= i < |before| :: mask[i] == Matches(before[i], where_)
    requires forall i | 0 <= i < |before| :: after[i] == if mask[i] then before[i] + update else before[i]
    ensures Picked(after, mask, true) == UpdatedOnly(before, where_, update)
    ensures after == Updated(before, where_, update)
    decreases |before|
  {
    if before != [] {
      var n := |before| - 1;
      PickedIsUpdated(before[..n], after[..n], mask[..n], where_, update);
    }
  }
}
