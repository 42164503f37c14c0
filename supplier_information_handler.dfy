/**
 * src/services/table-handlers/ifs-supplier-information-synchronization-handler.ts:
 * `supplier_info_tab` rows written to the `suppliers` table.
 */
module SupplierInformationHandler {
  import opened Wrappers
  import opened JsValues
  import opened SyncTypes
  import opened DbTable

  const IfsTableName: string := "supplier_info_tab"
  const TargetTableName: string := "suppliers"
  const SupportedActions: seq<string> := ["insert", "update", "upsert", "delete"]

  /** The record `create` and `createMany` write: the supplier's id and name, its organisation and the IFS row key. */
  function SupplierRecord(org: string, data: Value): (r: Row)
    ensures "organization_group_id" in r && r["organization_group_id"] == Str(org)
    ensures "external_id" in r && r["external_id"] == Get(data, "rowkey")
    ensures "supplier_id" in r && r["supplier_id"] == Get(data, "supplier_id")
    ensures "name" in r && r["name"] == Get(data, "name")
  {
    map[
      "supplier_id" := Get(data, "supplier_id"),
      "name" := Get(data, "name"),
      "organization_group_id" := Str(org),
      "external_id" := Get(data, "rowkey")
    ]
  }

  /** The columns an update writes: only the supplier's id and name. */
  function SupplierChanges(data: Value): Row
  {
    map["supplier_id" := Get(data, "supplier_id"), "name" := Get(data, "name")]
  }

  /** The rows an update or delete addresses: this organisation's row with the IFS row key. */
  function RowOf(org: string, data: Value): Row
  {
    map["organization_group_id" := Str(org), "external_id" := Get(data, "rowkey")]
  }

  function InsertSpec(t: TableState, org: string, data: Value): (Result<SyncResult, Thrown>, TableState)
  {
    if !Readable(data) then (Err(ReadOfNothing), t)
    else
      var (r, t') := CreateOp(t, SupplierRecord(org, data));
      (if r.Ok? then Ok(Done(SupplierInformationCreated)) else Err(r.error), t')
  }

  function UpdateSpec(t: TableState, org: string, data: Value): (Result<SyncResult, Thrown>, TableState)
  {
    if !Readable(data) then (Err(ReadOfNothing), t)
    else
      var (r, t') := UpdateManyOp(t, RowOf(org, data), SupplierChanges(data));
      (if r.Ok? then Ok(CountOutcome(r.value, SupplierInformationUpdated)) else Err(r.error), t')
  }

  /**
   * `createMany` with `skipDuplicates`; when it wrote nothing the update runs, its
   * reply is dropped (a throw still propagates) and the upsert reports an update.
   */
  function UpsertSpec(t: TableState, org: string, data: Value): (Result<SyncResult, Thrown>, TableState)
  {
    if !Readable(data) then (Err(ReadOfNothing), t)
    else
      var (c, t1) := CreateManyOp(t, SupplierRecord(org, data));
      if c.Err? then (Err(c.error), t1)
      else if c.value > 0 then (Ok(Done(SupplierInformationCreatedViaUpsert)), t1)
      else
        var (u, t2) := UpdateSpec(t1, org, data);
        (if u.Ok? then Ok(Done(SupplierInformationUpdatedViaUpsert)) else u, t2)
  }

  function DeleteSpec(t: TableState, org: string, data: Value): (Result<SyncResult, Thrown>, TableState)
  {
    if !Readable(data) then (Err(ReadOfNothing), t)
    else
      var (r, t') := DeleteManyOp(t, RowOf(org, data));
      (if r.Ok? then Ok(CountOutcome(r.value, SupplierInformationDeleted)) else Err(r.error), t')
  }

  /** `handleTableSynchronization`: the action's operation, or a throw for any other action. */
  function HandleSpec(t: TableState, action: string, org: string, data: Value): (Result<SyncResult, Thrown>, TableState)
  {
    if action == "insert" then InsertSpec(t, org, data)
    else if action == "update" then UpdateSpec(t, org, data)
    else if action == "upsert" then UpsertSpec(t, org, data)
    else if action == "delete" then DeleteSpec(t, org, data)
    else (Err(UnsupportedAction(action)), t)
  }

  /**
   * Every reply has status 200; a failed reply is always the not-found reply;
   * any other action throws and leaves the table alone.
   */
  lemma HandleReplies(t: TableState, action: string, org: string, data: Value)
    ensures HandlerReply(HandleSpec(t, action, org, data).0)
    ensures !IsSynchronizationAction(action) ==>
      HandleSpec(t, action, org, data) == (Err(UnsupportedAction(action)), t)
  {
    if action == "insert" {
      assert HandlerReply(InsertSpec(t, org, data).0);
    } else if action == "update" {
      UpdateReplies(t, org, data);
    } else if action == "upsert" {
      UpsertReplies(t, org, data);
    } else if action == "delete" {
      assert HandlerReply(DeleteSpec(t, org, data).0);
    }
  }

  lemma UpdateReplies(t: TableState, org: string, data: Value)
    ensures HandlerReply(UpdateSpec(t, org, data).0)
  {
  }

  lemma UpsertReplies(t: TableState, org: string, data: Value)
    ensures HandlerReply(UpsertSpec(t, org, data).0)
  {
    if Readable(data) {
      var (c, t1) := CreateManyOp(t, SupplierRecord(org, data));
      if c.Ok? && c.value == 0 {
        UpdateReplies(t1, org, data);
      }
    }
  }

  /** On a faulty table every action throws the table's error and writes nothing. */
  lemma FaultyTableThrows(t: TableState, action: string, org: string, data: Value)
    requires t.fault.Some? && IsSynchronizationAction(action) && Readable(data)
    ensures HandleSpec(t, action, org, data) == (Err(t.fault.value), t)
  {
  }

  /**
   * When `createMany` skips the record and no row of this organisation carries the
   * row key, nothing is written and yet the upsert reports a successful update.
   */
  lemma UpsertReportsUpdateWhenNothingMatched(t: TableState, org: string, data: Value)
    requires t.fault.None? && Readable(data)
    requires Conflicts(t.rows, t.unique, SupplierRecord(org, data))
    requires forall i :: 0 <= i < |t.rows| ==> !Matches(t.rows[i], RowOf(org, data))
    ensures UpdateSpec(t, org, data).0 == Ok(NotFound)
    ensures UpsertSpec(t, org, data) == (Ok(Done(SupplierInformationUpdatedViaUpsert)), t)
  {
    CountMatchingPositive(t.rows, RowOf(org, data));
    UpdateRowsPointwise(t.rows, RowOf(org, data), SupplierChanges(data));
    assert UpdateRows(t.rows, RowOf(org, data), SupplierChanges(data)) == t.rows;
  }

  /**
   * An update or a delete leaves every row of another organisation as it was:
   * the organisation is part of every where-clause.
   */
  lemma OtherOrganisationsUntouched(t: TableState, org: string, data: Value, row: Row)
    requires t.fault.None? && Readable(data)
    requires row in t.rows && "organization_group_id" in row && row["organization_group_id"] != Str(org)
    ensures row in UpdateSpec(t, org, data).1.rows
    ensures row in DeleteSpec(t, org, data).1.rows
  {
    assert !Matches(row, RowOf(org, data));
    UpdateRowsPointwise(t.rows, RowOf(org, data), SupplierChanges(data));
    var i :| 0 <= i < |t.rows| && t.rows[i] == row;
    assert UpdateSpec(t, org, data).1.rows[i] == row;
    DeleteRowsExactly(t.rows, RowOf(org, data));
  }

  method Insert(org: string, data: Value, bank: Table) returns (r: Result<SyncResult, Thrown>)
    modifies bank
    ensures (r, bank.State()) == InsertSpec(old(bank.State()), org, data)
  {
    if !Readable(data) {
      return Err(ReadOfNothing);
    }
    var created := bank.Create(SupplierRecord(org, data));
    if created.Err? {
      return Err(created.error);
    }
    r := Ok(Done(SupplierInformationCreated));
  }

  method Update(org: string, data: Value, bank: Table) returns (r: Result<SyncResult, Thrown>)
    modifies bank
    ensures (r, bank.State()) == UpdateSpec(old(bank.State()), org, data)
  {
    if !Readable(data) {
      return Err(ReadOfNothing);
    }
    var updated := bank.UpdateMany(RowOf(org, data), SupplierChanges(data));
    if updated.Err? {
      return Err(updated.error);
    }
    if updated.value == 0 {
      r := Ok(NotFound);
    } else {
      r := Ok(Done(SupplierInformationUpdated));
    }
  }

  method Upsert(org: string, data: Value, bank: Table) returns (r: Result<SyncResult, Thrown>)
    modifies bank
    ensures (r, bank.State()) == UpsertSpec(old(bank.State()), org, data)
  {
    if !Readable(data) {
      return Err(ReadOfNothing);
    }
    var created := bank.CreateMany(SupplierRecord(org, data));
    if created.Err? {
      return Err(created.error);
    }
    if created.value == 0 {
      var updated := Update(org, data, bank);
      if updated.Err? {
        return updated;
      }
      r := Ok(Done(SupplierInformationUpdatedViaUpsert));
    } else {
      r := Ok(Done(SupplierInformationCreatedViaUpsert));
    }
  }

  method Delete(org: string, data: Value, bank: Table) returns (r: Result<SyncResult, Thrown>)
    modifies bank
    ensures (r, bank.State()) == DeleteSpec(old(bank.State()), org, data)
  {
    if !Readable(data) {
      return Err(ReadOfNothing);
    }
    var deleted := bank.DeleteMany(RowOf(org, data));
    if deleted.Err? {
      return Err(deleted.error);
    }
    if deleted.value == 0 {
      r := Ok(NotFound);
    } else {
      r := Ok(Done(SupplierInformationDeleted));
    }
  }

  method Handle(action: string, org: string, data: Value, bank: Table) returns (r: Result<SyncResult, Thrown>)
    modifies bank
    ensures (r, bank.State()) == HandleSpec(old(bank.State()), action, org, data)
  {
    if action == "insert" {
      r := Insert(org, data, bank);
    } else if action == "update" {
      r := Update(org, data, bank);
    } else if action == "upsert" {
      r := Upsert(org, data, bank);
    } else if action == "delete" {
      r := Delete(org, data, bank);
    } else {
      r := Err(UnsupportedAction(action));
    }
  }
}
