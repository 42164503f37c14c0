/**
 * src/services/table-handlers/ifs-supplier-document-tax-synchronization-handler.ts:
 * `supplier_document_tax_info_tab` rows written onto the `suppliers` table. Every
 * write is an update of the supplier's tax columns; a delete is acknowledged and skipped.
 */
module SupplierDocumentTaxHandler {
  import opened Wrappers
  import opened JsValues
  import opened SyncTypes
  import opened DbTable

  const IfsTableName: string := "supplier_document_tax_info_tab"
  const TargetTableName: string := "suppliers"
  const SupportedActions: seq<string> := ["insert", "update", "upsert"]

  /** The tax columns written: the VAT number and the company. */
  function TaxChanges(data: Value): Row
  {
    map["vat_id" := Get(data, "vat_no"), "company_id" := Get(data, "company")]
  }

  function RowOf(org: string, data: Value): Row
  {
    map["organization_group_id" := Str(org), "external_id" := Get(data, "rowkey")]
  }

  /** `updateSupplierWithTaxInformation` */
  function UpdateSpec(t: TableState, org: string, data: Value): (Result<SyncResult, Thrown>, TableState)
  {
    if !Readable(data) then (Err(ReadOfNothing), t)
    else
      var (r, t') := UpdateManyOp(t, RowOf(org, data), TaxChanges(data));
      (if r.Ok? then Ok(CountOutcome(r.value, SupplierTaxInformationUpdated)) else Err(r.error), t')
  }

  /** `handleTableSynchronization`: insert, update and upsert update; delete is skipped without a database call. */
  function HandleSpec(t: TableState, action: string, org: string, data: Value): (Result<SyncResult, Thrown>, TableState)
  {
    if action in SupportedActions then UpdateSpec(t, org, data)
    else if action == "delete" then (Ok(Done(SupplierTaxInformationDeletionSkipped)), t)
    else (Err(UnsupportedAction(action)), t)
  }

  /**
   * Insert, update and upsert are one operation; a delete succeeds, leaves the table
   * alone and does not even read the payload; any other action throws.
   */
  lemma HandleCases(t: TableState, action: string, org: string, data: Value)
    ensures action in {"insert", "update", "upsert"} ==> HandleSpec(t, action, org, data) == UpdateSpec(t, org, data)
    ensures action == "delete" ==> HandleSpec(t, action, org, data) == (Ok(Done(SupplierTaxInformationDeletionSkipped)), t)
    ensures !IsSynchronizationAction(action) ==> HandleSpec(t, action, org, data) == (Err(UnsupportedAction(action)), t)
  {
  }

  /** Every reply has status 200 and a failed reply is the not-found reply. */
  lemma HandleReplies(t: TableState, action: string, org: string, data: Value)
    requires IsSynchronizationAction(action)
    ensures HandlerReply(HandleSpec(t, action, org, data).0)
  {
    HandleCases(t, action, org, data);
    if action != "delete" {
      assert HandlerReply(UpdateSpec(t, org, data).0);
    }
  }

  /** On a faulty table every action but the delete throws the table's error and writes nothing. */
  lemma FaultyTableThrows(t: TableState, action: string, org: string, data: Value)
    requires t.fault.Some? && IsSynchronizationAction(action) && action != "delete" && Readable(data)
    ensures HandleSpec(t, action, org, data) == (Err(t.fault.value), t)
  {
    HandleCases(t, action, org, data);
  }

  /** Delete is handled but is not among the actions the handler declares. */
  lemma DeleteHandledButNotDeclared()
    ensures "delete" !in SupportedActions
    ensures forall t, org, data :: HandleSpec(t, "delete", org, data).0.Ok?
  {
  }

  /**
   * The update changes exactly the rows of this organisation with the row key, writing
   * only the tax columns, and reports not-found exactly when there is none; an update
   * that would duplicate a unique value throws P2002 and writes nothing.
   */
  lemma UpdateWritesTaxColumns(t: TableState, org: string, data: Value)
    requires t.fault.None? && Readable(data)
    ensures UpdateConflicts(t.rows, t.unique, RowOf(org, data), TaxChanges(data)) ==>
      UpdateSpec(t, org, data) == (Err(KnownRequestError("P2002", "Unique constraint failed")), t)
    ensures !UpdateConflicts(t.rows, t.unique, RowOf(org, data), TaxChanges(data)) ==>
      (UpdateSpec(t, org, data).0 == Ok(NotFound) <==>
        forall i :: 0 <= i < |t.rows| ==> !Matches(t.rows[i], RowOf(org, data)))
    ensures !UpdateConflicts(t.rows, t.unique, RowOf(org, data), TaxChanges(data)) ==>
      forall i :: 0 <= i < |t.rows| ==>
        UpdateSpec(t, org, data).1.rows[i] ==
          if Matches(t.rows[i], RowOf(org, data)) then t.rows[i] + Stored(TaxChanges(data)) else t.rows[i]
  {
    CountMatchingPositive(t.rows, RowOf(org, data));
    UpdateRowsPointwise(t.rows, RowOf(org, data), TaxChanges(data));
  }

  method Update(org: string, data: Value, bank: Table) returns (r: Result<SyncResult, Thrown>)
    modifies bank
    ensures (r, bank.State()) == UpdateSpec(old(bank.State()), org, data)
  {
    if !Readable(data) {
      return Err(ReadOfNothing);
    }
    var updated := bank.UpdateMany(RowOf(org, data), TaxChanges(data));
    if updated.Err? {
      return Err(updated.error);
    }
    if updated.value == 0 {
      r := Ok(NotFound);
    } else {
      r := Ok(Done(SupplierTaxInformationUpdated));
    }
  }

  method Handle(action: string, org: string, data: Value, bank: Table) returns (r: Result<SyncResult, Thrown>)
    modifies bank
    ensures (r, bank.State()) == HandleSpec(old(bank.State()), action, org, data)
  {
    if action == "insert" || action == "update" || action == "upsert" {
      r := Update(org, data, bank);
    } else if action == "delete" {
      r := Ok(Done(SupplierTaxInformationDeletionSkipped));
    } else {
      r := Err(UnsupportedAction(action));
    }
  }
}
