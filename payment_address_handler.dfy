/**
 * src/services/table-handlers/ifs-payment-address-synchronization-handler.ts:
 * `payment_address_tab` rows written to the `supplier_bank_addresses` table.
 */
module PaymentAddressHandler {
  import opened Wrappers
  import opened JsValues
  import opened SyncTypes
  import opened DbTable

  const IfsTableName: string := "payment_address_tab"
  const TargetTableName: string := "supplier_bank_addresses"
  const SupportedActions: seq<string> := ["insert", "update", "upsert", "delete"]

  /** `buildPaymentAddressDataForDatabase`: the IFS fields renamed to the bank-address columns. */
  function PaymentAddressRecord(org: string, data: Value): (r: Row)
    ensures "is_default" in r && r["is_default"].Bool?
    ensures r["is_default"].b <==> Get(data, "default_address") == Str("TRUE")
    ensures "blocked_for_use" in r && r["blocked_for_use"].Bool?
    ensures r["blocked_for_use"].b <==> Get(data, "blocked_for_use") == Str("TRUE")
    ensures "organization_id" in r && r["organization_id"] == Str(org)
    ensures "external_id" in r && r["external_id"] == Get(data, "rowkey")
  {
    map[
      "tenant_id" := Get(data, "company"),
      "supplier_id" := Get(data, "identity"),
      "bank_name" := Get(data, "data2"),
      "bic" := Get(data, "bic_code"),
      "is_default" := Bool(Get(data, "default_address") == Str("TRUE")),
      "blocked_for_use" := Bool(Get(data, "blocked_for_use") == Str("TRUE")),
      "way_id" := Get(data, "way_id"),
      "address_id" := Get(data, "address_id"),
      "organization_id" := Str(org),
      "external_id" := Get(data, "rowkey")
    ]
  }

  /** The rows an update or delete addresses: this organisation's row with the IFS row key. */
  function RowOf(org: string, data: Value): Row
  {
    map["external_id" := Get(data, "rowkey"), "organization_id" := Str(org)]
  }

  function InsertSpec(t: TableState, org: string, data: Value): (Result<SyncResult, Thrown>, TableState)
  {
    if !Readable(data) then (Err(ReadOfNothing), t)
    else
      var (r, t') := CreateOp(t, PaymentAddressRecord(org, data));
      (if r.Ok? then Ok(Done(PaymentAddressCreated)) else Err(r.error), t')
  }

  function UpdateSpec(t: TableState, org: string, data: Value): (Result<SyncResult, Thrown>, TableState)
  {
    if !Readable(data) then (Err(ReadOfNothing), t)
    else
      var (r, t') := UpdateManyOp(t, RowOf(org, data), PaymentAddressRecord(org, data));
      (if r.Ok? then Ok(CountOutcome(r.value, PaymentAddressUpdated)) else Err(r.error), t')
  }

  /** An update reply seen through the upsert: a success is relabelled, a not-found passes through. */
  function UpsertUpdateReply(u: SyncResult): SyncResult
  {
    SyncResult(u.status, if u.success then PaymentAddressUpdatedViaUpsert else u.message, u.success, u.errorType)
  }

  function UpsertSpec(t: TableState, org: string, data: Value): (Result<SyncResult, Thrown>, TableState)
  {
    if !Readable(data) then (Err(ReadOfNothing), t)
    else
      var (c, t1) := CreateManyOp(t, PaymentAddressRecord(org, data));
      if c.Err? then (Err(c.error), t1)
      else if c.value > 0 then (Ok(Done(PaymentAddressCreatedViaUpsert)), t1)
      else
        var (u, t2) := UpdateSpec(t1, org, data);
        (if u.Ok? then Ok(UpsertUpdateReply(u.value)) else u, t2)
  }

  function DeleteSpec(t: TableState, org: string, data: Value): (Result<SyncResult, Thrown>, TableState)
  {
    if !Readable(data) then (Err(ReadOfNothing), t)
    else
      var (r, t') := DeleteManyOp(t, RowOf(org, data));
      (if r.Ok? then Ok(CountOutcome(r.value, PaymentAddressDeleted)) else Err(r.error), t')
  }

  /** `handleTableSynchronization`: the action's operation, or a throw for any other action. */
  function HandleSpec(t: TableState, action: string, org: string, data: Value): (Result<SyncResult, Thrown>, TableState)
  {
    if action == "insert" then InsertSpec(t, org, data)
    else if action == "update" then UpdateSpec(t, org, data)
    else if action == "upsert" then UpsertSpec(t, org, data)
    else if action == "delete" then DeleteSpec(t, org, data)
    else (Err(UnsupportedAction(action)), t)
  }

  /**
   * Every reply has status 200; a failed reply is always the not-found reply;
   * any other action throws and leaves the table alone.
   */
  lemma HandleReplies(t: TableState, action: string, org: string, data: Value)
    ensures HandlerReply(HandleSpec(t, action, org, data).0)
    ensures !IsSynchronizationAction(action) ==>
      HandleSpec(t, action, org, data) == (Err(UnsupportedAction(action)), t)
  {
    if action == "insert" {
      assert HandlerReply(InsertSpec(t, org, data).0);
    } else if action == "update" {
      UpdateReplies(t, org, data);
    } else if action == "upsert" {
      UpsertReplies(t, org, data);
    } else if action == "delete" {
      assert HandlerReply(DeleteSpec(t, org, data).0);
    }
  }

  lemma UpdateReplies(t: TableState, org: string, data: Value)
    ensures HandlerReply(UpdateSpec(t, org, data).0)
  {
  }

  lemma UpsertReplies(t: TableState, org: string, data: Value)
    ensures HandlerReply(UpsertSpec(t, org, data).0)
  {
    if Readable(data) {
      var (c, t1) := CreateManyOp(t, PaymentAddressRecord(org, data));
      if c.Ok? && c.value == 0 {
        UpdateReplies(t1, org, data);
      }
    }
  }

  /** On a faulty table every action throws the table's error and writes nothing. */
  lemma FaultyTableThrows(t: TableState, action: string, org: string, data: Value)
    requires t.fault.Some? && IsSynchronizationAction(action) && Readable(data)
    ensures HandleSpec(t, action, org, data) == (Err(t.fault.value), t)
  {
  }

  /**
   * An update reports not-found exactly when no row of this organisation carries
   * the row key, and it leaves every other row as it was.
   */
  lemma UpdateTouchesOnlyItsRow(t: TableState, org: string, data: Value)
    requires t.fault.None? && Readable(data)
    ensures UpdateSpec(t, org, data).0 == Ok(NotFound) <==>
      forall i :: 0 <= i < |t.rows| ==> !Matches(t.rows[i], RowOf(org, data))
    ensures forall i :: 0 <= i < |t.rows| && !Matches(t.rows[i], RowOf(org, data)) ==>
      UpdateSpec(t, org, data).1.rows[i] == t.rows[i]
  {
    CountMatchingPositive(t.rows, RowOf(org, data));
    UpdateRowsPointwise(t.rows, RowOf(org, data), PaymentAddressRecord(org, data));
  }

  /** An upsert creates the row when it can; otherwise it is an update, whose not-found reply it passes on. */
  lemma UpsertFallsBackToUpdate(t: TableState, org: string, data: Value)
    requires t.fault.None? && Readable(data)
    ensures !Conflicts(t.rows, t.unique, PaymentAddressRecord(org, data)) ==>
      UpsertSpec(t, org, data) == (Ok(Done(PaymentAddressCreatedViaUpsert)),
                                   t.(rows := t.rows + [Stored(PaymentAddressRecord(org, data))]))
    ensures Conflicts(t.rows, t.unique, PaymentAddressRecord(org, data)) ==>
      UpsertSpec(t, org, data).1 == UpdateSpec(t, org, data).1 &&
      (UpsertSpec(t, org, data).0 == Ok(NotFound) <==> UpdateSpec(t, org, data).0 == Ok(NotFound))
  {
  }

  method Insert(org: string, data: Value, bank: Table) returns (r: Result<SyncResult, Thrown>)
    modifies bank
    ensures (r, bank.State()) == InsertSpec(old(bank.State()), org, data)
  {
    if !Readable(data) {
      return Err(ReadOfNothing);
    }
    var created := bank.Create(PaymentAddressRecord(org, data));
    if created.Err? {
      return Err(created.error);
    }
    r := Ok(Done(PaymentAddressCreated));
  }

  method Update(org: string, data: Value, bank: Table) returns (r: Result<SyncResult, Thrown>)
    modifies bank
    ensures (r, bank.State()) == UpdateSpec(old(bank.State()), org, data)
  {
    if !Readable(data) {
      return Err(ReadOfNothing);
    }
    var updated := bank.UpdateMany(RowOf(org, data), PaymentAddressRecord(org, data));
    if updated.Err? {
      return Err(updated.error);
    }
    if updated.value == 0 {
      r := Ok(NotFound);
    } else {
      r := Ok(Done(PaymentAddressUpdated));
    }
  }

  method Upsert(org: string, data: Value, bank: Table) returns (r: Result<SyncResult, Thrown>)
    modifies bank
    ensures (r, bank.State()) == UpsertSpec(old(bank.State()), org, data)
  {
    if !Readable(data) {
      return Err(ReadOfNothing);
    }
    var created := bank.CreateMany(PaymentAddressRecord(org, data));
    if created.Err? {
      return Err(created.error);
    }
    if created.value == 0 {
      var updated := Update(org, data, bank);
      if updated.Err? {
        return updated;
      }
      var u := updated.value;
      r := Ok(SyncResult(u.status, if u.success then PaymentAddressUpdatedViaUpsert else u.message, u.success, u.errorType));
    } else {
      r := Ok(Done(PaymentAddressCreatedViaUpsert));
    }
  }

  method Delete(org: string, data: Value, bank: Table) returns (r: Result<SyncResult, Thrown>)
    modifies bank
    ensures (r, bank.State()) == DeleteSpec(old(bank.State()), org, data)
  {
    if !Readable(data) {
      return Err(ReadOfNothing);
    }
    var deleted := bank.DeleteMany(RowOf(org, data));
    if deleted.Err? {
      return Err(deleted.error);
    }
    if deleted.value == 0 {
      r := Ok(NotFound);
    } else {
      r := Ok(Done(PaymentAddressDeleted));
    }
  }

  method Handle(action: string, org: string, data: Value, bank: Table) returns (r: Result<SyncResult, Thrown>)
    modifies bank
    ensures (r, bank.State()) == HandleSpec(old(bank.State()), action, org, data)
  {
    if action == "insert" {
      r := Insert(org, data, bank);
    } else if action == "update" {
      r := Update(org, data, bank);
    } else if action == "upsert" {
      r := Upsert(org, data, bank);
    } else if action == "delete" {
      r := Delete(org, data, bank);
    } else {
      r := Err(UnsupportedAction(action));
    }
  }
}
