/**
 * The database as the services see it through Prisma: a table of rows with
 * `create`, `createMany({skipDuplicates: true})`, `updateMany`, `deleteMany` and
 * `findFirst`. A row maps column names to values. Some columns are unique; a
 * table may be faulty, in which case every call throws the same error
 * (a lost connection, a schema mismatch, ...).
 */
module DbTable {
  import opened Wrappers
  import opened JsValues
  import opened SyncTypes

  type Row = map<string, Value>

  /** Prisma's `where`: each given column must be equal; a column given as `undefined` is no condition. */
  predicate Matches(row: Row, where: Row)
  {
    forall c :: c in where && where[c] != Undefined ==> c in row && row[c] == where[c]
  }

  /** What Prisma writes for `data`: the columns given as `undefined` are left out. */
  function Stored(data: Row): (r: Row)
    ensures forall c :: c in r <==> c in data && data[c] != Undefined
    ensures forall c :: c in r ==> r[c] == data[c]
  {
    map c | c in data && data[c] != Undefined :: data[c]
  }

  /** `data` repeats, in a unique column, a value some row already holds. */
  predicate Conflicts(rows: seq<Row>, unique: set<string>, data: Row)
  {
    exists i, c :: 0 <= i < |rows| && c in unique && c in rows[i] && c in Stored(data)
      && Stored(data)[c] != Null && rows[i][c] == Stored(data)[c]
  }

  /**
   * `updateMany` would leave two rows with the same non-null value in a unique column:
   * a matching row `i` gets the value `data` gives that column, and another row `j`
   * holds it afterwards (it is updated too, or it already held that value).
   */
  predicate UpdateConflicts(rows: seq<Row>, unique: set<string>, where: Row, data: Row)
  {
    exists i, j, c :: 0 <= i < |rows| && 0 <= j < |rows| && i != j && Matches(rows[i], where)
      && c in unique && c in Stored(data) && Stored(data)[c] != Null
      && (Matches(rows[j], where) || (c in rows[j] && rows[j][c] == Stored(data)[c]))
  }

  function CountMatching(rows: seq<Row>, where: Row): (n: nat)
    ensures n <= |rows|
  {
    if rows == [] then 0 else (if Matches(rows[0], where) then 1 else 0) + CountMatching(rows[1..], where)
  }

  /** Every matching row gets the stored columns of `data` written over it. */
  function UpdateRows(rows: seq<Row>, where: Row, data: Row): (r: seq<Row>)
    ensures |r| == |rows|
  {
    if rows == [] then []
    else [if Matches(rows[0], where) then rows[0] + Stored(data) else rows[0]] + UpdateRows(rows[1..], where, data)
  }

  /** The rows that do not match, in their order. */
  function DeleteRows(rows: seq<Row>, where: Row): (r: seq<Row>)
    ensures |r| <= |rows|
  {
    if rows == [] then []
    else (if Matches(rows[0], where) then [] else [rows[0]]) + DeleteRows(rows[1..], where)
  }

  function FirstMatching(rows: seq<Row>, where: Row): Option<Row>
  {
    if rows == [] then None
    else if Matches(rows[0], where) then Some(rows[0])
    else FirstMatching(rows[1..], where)
  }

  /** The table as a value: its rows, its unique columns and whether it throws. */
  datatype TableState = TableState(rows: seq<Row>, unique: set<string>, fault: Option<Thrown>)

  /** `create({data})`: a unique-column clash throws P2002. */
  function CreateOp(t: TableState, data: Row): (Result<Row, Thrown>, TableState)
  {
    if t.fault.Some? then (Err(t.fault.value), t)
    else if Conflicts(t.rows, t.unique, data) then
      (Err(KnownRequestError("P2002", "Unique constraint failed")), t)
    else (Ok(Stored(data)), t.(rows := t.rows + [Stored(data)]))
  }

  /** `createMany({data, skipDuplicates: true})` with one record: a clash is skipped and counts 0. */
  function CreateManyOp(t: TableState, data: Row): (Result<nat, Thrown>, TableState)
  {
    if t.fault.Some? then (Err(t.fault.value), t)
    else if Conflicts(t.rows, t.unique, data) then (Ok(0), t)
    else (Ok(1), t.(rows := t.rows + [Stored(data)]))
  }

  /** `updateMany({where, data})`, answering the number of rows matched; a unique-column clash throws P2002. */
  function UpdateManyOp(t: TableState, where: Row, data: Row): (Result<nat, Thrown>, TableState)
  {
    if t.fault.Some? then (Err(t.fault.value), t)
    else if UpdateConflicts(t.rows, t.unique, where, data) then
      (Err(KnownRequestError("P2002", "Unique constraint failed")), t)
    else (Ok(CountMatching(t.rows, where)), t.(rows := UpdateRows(t.rows, where, data)))
  }

  /** `deleteMany({where})`, answering the number of rows removed. */
  function DeleteManyOp(t: TableState, where: Row): (Result<nat, Thrown>, TableState)
  {
    if t.fault.Some? then (Err(t.fault.value), t)
    else (Ok(CountMatching(t.rows, where)), t.(rows := DeleteRows(t.rows, where)))
  }

  /** `findFirst({where})` */
  function FindFirstOp(t: TableState, where: Row): Result<Option<Row>, Thrown>
  {
    if t.fault.Some? then Err(t.fault.value) else Ok(FirstMatching(t.rows, where))
  }

  /** `updateMany` changes exactly the matching rows, each by writing the stored columns of `data` over it. */
  lemma {:induction false} UpdateRowsPointwise(rows: seq<Row>, where: Row, data: Row)
    ensures forall i :: 0 <= i < |rows| ==>
      UpdateRows(rows, where, data)[i] == if Matches(rows[i], where) then rows[i] + Stored(data) else rows[i]
  {
    if rows != [] {
      UpdateRowsPointwise(rows[1..], where, data);
    }
  }

  /** `deleteMany` removes the matching rows, keeps every other row, and answers how many it removed. */
  lemma {:induction false} DeleteRowsExactly(rows: seq<Row>, where: Row)
    ensures |DeleteRows(rows, where)| + CountMatching(rows, where) == |rows|
    ensures forall r :: r in DeleteRows(rows, where) <==> r in rows && !Matches(r, where)
  {
    if rows != [] {
      DeleteRowsExactly(rows[1..], where);
      assert forall r :: r in rows <==> r == rows[0] || r in rows[1..];
    }
  }

  /** The count is positive exactly when some row matches. */
  lemma {:induction false} CountMatchingPositive(rows: seq<Row>, where: Row)
    ensures CountMatching(rows, where) > 0 <==> exists i :: 0 <= i < |rows| && Matches(rows[i], where)
    ensures FirstMatching(rows, where).Some? <==> CountMatching(rows, where) > 0
    ensures FirstMatching(rows, where).Some? ==>
      FirstMatching(rows, where).value in rows && Matches(FirstMatching(rows, where).value, where)
  {
    if rows != [] {
      CountMatchingPositive(rows[1..], where);
      if !Matches(rows[0], where) && CountMatching(rows, where) > 0 {
        var i :| 0 <= i < |rows[1..]| && Matches(rows[1..][i], where);
        assert rows[i + 1] == rows[1..][i];
      }
      if exists i :: 0 <= i < |rows| && Matches(rows[i], where) {
        var i :| 0 <= i < |rows| && Matches(rows[i], where);
        if i > 0 {
          assert rows[1..][i - 1] == rows[i];
        }
      }
    }
  }

  /**
   * Where a column of the condition is `undefined`, only the other columns decide:
   * `{organization_id: org, external_id: undefined}` selects every row of `org`.
   */
  lemma UndefinedColumnIsNoCondition(row: Row, where: Row, c: string)
    requires c in where && where[c] == Undefined
    ensures Matches(row, where) <==> Matches(row, map k | k in where && k != c :: where[k])
  {
  }

  /** No two rows hold the same non-null value in a unique column. */
  predicate UniqueHolds(rows: seq<Row>, unique: set<string>)
  {
    forall i, j, c ::
      (0 <= i < |rows| && 0 <= j < |rows| && i != j && c in unique
       && c in rows[i] && c in rows[j] && rows[i][c] != Null) ==> rows[i][c] != rows[j][c]
  }

  /** A `create` that succeeds keeps the unique columns unique. */
  lemma CreateKeepsUnique(t: TableState, data: Row)
    requires UniqueHolds(t.rows, t.unique)
    ensures CreateOp(t, data).0.Ok? ==> UniqueHolds(CreateOp(t, data).1.rows, t.unique)
  {
    if CreateOp(t, data).0.Ok? {
      var rows' := t.rows + [Stored(data)];
      forall i, j, c | 0 <= i < |rows'| && 0 <= j < |rows'| && i != j && c in t.unique
        && c in rows'[i] && c in rows'[j] && rows'[i][c] != Null
        ensures rows'[i][c] != rows'[j][c]
      {
        if i == |t.rows| {
          assert !(rows'[j][c] == Stored(data)[c]);
        } else if j == |t.rows| {
          assert !(rows'[i][c] == Stored(data)[c]);
        }
      }
    }
  }

  /** An `updateMany` that succeeds keeps the unique columns unique: a clash would have thrown. */
  lemma UpdateManyKeepsUnique(t: TableState, where: Row, data: Row)
    requires UniqueHolds(t.rows, t.unique)
    ensures UpdateManyOp(t, where, data).0.Ok? ==> UniqueHolds(UpdateManyOp(t, where, data).1.rows, t.unique)
  {
    if UpdateManyOp(t, where, data).0.Ok? {
      var rows' := UpdateRows(t.rows, where, data);
      UpdateRowsPointwise(t.rows, where, data);
      forall i, j, c | 0 <= i < |rows'| && 0 <= j < |rows'| && i != j && c in t.unique
        && c in rows'[i] && c in rows'[j] && rows'[i][c] != Null
        ensures rows'[i][c] != rows'[j][c]
      {
        UpdatedPairDistinct(t, where, data, i, j, c);
      }
    }
  }

  /** One pair of rows after a non-clashing update. */
  lemma UpdatedPairDistinct(t: TableState, where: Row, data: Row, i: nat, j: nat, c: string)
    requires UniqueHolds(t.rows, t.unique) && !UpdateConflicts(t.rows, t.unique, where, data)
    requires i < |t.rows| && j < |t.rows| && i != j && c in t.unique
    requires var rows' := UpdateRows(t.rows, where, data);
      c in rows'[i] && c in rows'[j] && rows'[i][c] != Null
    ensures UpdateRows(t.rows, where, data)[i][c] != UpdateRows(t.rows, where, data)[j][c]
  {
    UpdateRowsPointwise(t.rows, where, data);
    var rows := t.rows;
    if Matches(rows[i], where) && c in Stored(data) {
      assert !(Matches(rows[j], where) || (c in rows[j] && rows[j][c] == Stored(data)[c]));
    } else if Matches(rows[j], where) && c in Stored(data) {
      assert !(Matches(rows[i], where) || (c in rows[i] && rows[i][c] == Stored(data)[c]));
    }
  }

  /** The database as a mutable table. */
  class Table {
    var rows: seq<Row>
    const unique: set<string>
    const fault: Option<Thrown>

    function State(): TableState
      reads this
    {
      TableState(rows, unique, fault)
    }

    constructor (rows0: seq<Row>, unique0: set<string>, fault0: Option<Thrown>)
      ensures State() == TableState(rows0, unique0, fault0)
    {
      rows := rows0;
      unique := unique0;
      fault := fault0;
    }

    method Create(data: Row) returns (r: Result<Row, Thrown>)
      modifies this
      ensures (r, State()) == CreateOp(old(State()), data)
    {
      var next := CreateOp(State(), data);
      r, rows := next.0, next.1.rows;
    }

    method CreateMany(data: Row) returns (r: Result<nat, Thrown>)
      modifies this
      ensures (r, State()) == CreateManyOp(old(State()), data)
    {
      var next := CreateManyOp(State(), data);
      r, rows := next.0, next.1.rows;
    }

    method UpdateMany(where: Row, data: Row) returns (r: Result<nat, Thrown>)
      modifies this
      ensures (r, State()) == UpdateManyOp(old(State()), where, data)
    {
      var next := UpdateManyOp(State(), where, data);
      r, rows := next.0, next.1.rows;
    }

    method DeleteMany(where: Row) returns (r: Result<nat, Thrown>)
      modifies this
      ensures (r, State()) == DeleteManyOp(old(State()), where)
    {
      var next := DeleteManyOp(State(), where);
      r, rows := next.0, next.1.rows;
    }

    method FindFirst(where: Row) returns (r: Result<Option<Row>, Thrown>)
      ensures r == FindFirstOp(State(), where)
    {
      r := FindFirstOp(State(), where);
    }
  }
}
