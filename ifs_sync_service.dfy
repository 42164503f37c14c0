/**
 * src/modules/ifs-sync/services/ifs-sync.service.ts: `processData` mirrors an IFS
 * row into one of three mirror tables keyed by organisation and row key. Every
 * write action is an upsert; a delete removes the matching rows; the row found
 * before the write is returned as `previousData`.
 */
module IfsSync {
  import opened Wrappers
  import opened JsText
  import opened JsValues
  import opened SyncTypes
  import opened DbTable
  import opened KeyNormalization

  /** The three mirror models: `iFS_Supplier`, `iFS_Payment_Address`, `iFS_Supplier_Document_Tax`. */
  datatype Mirror = SupplierTab | PaymentTab | TaxTab

  /** The `prismaTables` lookup; any other name has no model. */
  function MirrorOf(table: string): (m: Option<Mirror>)
    ensures m.Some? <==> table in {"supplier_info_tab", "payment_address_tab", "supplier_document_tax_info_tab"}
  {
    if table == "supplier_info_tab" then Some(SupplierTab)
    else if table == "payment_address_tab" then Some(PaymentTab)
    else if table == "supplier_document_tax_info_tab" then Some(TaxTab)
    else None
  }

  datatype MirrorDb = MirrorDb(supplier: TableState, payment: TableState, tax: TableState)

  function TableOf(db: MirrorDb, m: Mirror): TableState
  {
    match m
    case SupplierTab => db.supplier
    case PaymentTab => db.payment
    case TaxTab => db.tax
  }

  function WithTable(db: MirrorDb, m: Mirror, t: TableState): (r: MirrorDb)
    ensures TableOf(r, m) == t
    ensures forall m' :: m' != m ==> TableOf(r, m') == TableOf(db, m')
  {
    match m
    case SupplierTab => db.(supplier := t)
    case PaymentTab => db.(payment := t)
    case TaxTab => db.(tax := t)
  }

  /** The column names each model exposes through `fields`; empty when it exposes none. */
  datatype Fields = Fields(supplier: seq<string>, payment: seq<string>, tax: seq<string>)

  /** `IfsResponse & { previousData? }`: `previousData` is absent, or the row found (`null` as `None`). */
  datatype IfsResponse = IfsResponse(message: string, success: bool, error: Option<string>, previousData: Option<Option<Row>>)

  const MissingRowkey: IfsResponse := IfsResponse("Missing required field: rowkey", false, None, None)
  const UnsupportedActionResponse: IfsResponse := IfsResponse("Unsupported action", false, None, None)

  /** The `catch` of `processData`. */
  function Failed(e: Thrown): IfsResponse
  {
    IfsResponse("Database operation failed", false, Some(ErrorText(e)), None)
  }

  function UnsupportedTable(table: string): Thrown
  {
    PlainError("Unsupported table: " + table)
  }

  /**
   * The row-key check: the payload is an object whose `rowkey` is a string with
   * something other than white space in it.
   */
  function RowkeyOf(data: Value): (r: Option<string>)
    ensures r.Some? ==> data.Obj? && Get(data, "rowkey") == Str(r.value) && Trim(r.value) != []
    ensures r.None? <==> !Get(data, "rowkey").Str? || Trim(Get(data, "rowkey").s) == []
  {
    match Get(data, "rowkey")
    case Str(k) => if Trim(k) == [] then None else Some(k)
    case _ => None
  }

  /** The where-clause of every mirror operation: `{organization_id, rowkey}`. */
  function ByRow(org: string, rowkey: string): Row
  {
    map["organization_id" := Str(org), "rowkey" := Str(rowkey)]
  }

  /** `readExistingData`: the first matching row; `null` for an unknown table or a failed read. */
  function ReadExisting(db: MirrorDb, table: string, org: string, rowkey: string): Option<Row>
  {
    match MirrorOf(table)
    case None => None
    case Some(m) =>
      match FindFirstOp(TableOf(db, m), ByRow(org, rowkey))
      case Ok(found) => found
      case Err(_) => None
  }

  /** An object's entries as the column map Prisma receives. */
  function EntriesRow(es: Entries): (r: Row)
    ensures forall k :: k in r ==> Lookup(es, k) == Some(r[k])
  {
    map k | k in Keys(es) && Lookup(es, k).Some? :: Lookup(es, k).value
  }

  /** `{...data, organization_id, updated_at: new Date()}` before normalisation. */
  function Stamped(es: Entries, org: string, now: string): Entries
  {
    Put(Put(es, "organization_id", Str(org)), "updated_at", Date(now))
  }

  /** The record `upsertRecord` writes: stamped, normalised, mapped for payments, filtered to the model's columns. */
  function UpsertRecord(m: Mirror, fields: Fields, es: Entries, org: string, now: string): Entries
  {
    var normalized := NormalizeKeys(Obj(Stamped(es, org, now))).entries;
    match m
    case SupplierTab => FilterValidFields(normalized, fields.supplier)
    case PaymentTab => FilterValidFields(MapPaymentFields(normalized), fields.payment)
    case TaxTab => FilterValidFields(normalized, fields.tax)
  }

  /**
   * `performUpsert`: `createMany` with `skipDuplicates`, and when it wrote nothing an
   * `updateMany` of the organisation's rows with the row key. All three outcomes succeed.
   */
  function PerformUpsertSpec(t: TableState, record: Row, org: string, rowkey: string): (Result<(string, bool), Thrown>, TableState)
  {
    var (c, t1) := CreateManyOp(t, record);
    if c.Err? then (Err(c.error), t1)
    else if c.value > 0 then (Ok(("Record created successfully", true)), t1)
    else
      var (u, t2) := UpdateManyOp(t1, ByRow(org, rowkey), record);
      if u.Err? then (Err(u.error), t2)
      else if u.value > 0 then (Ok(("Record updated successfully", true)), t2)
      else (Ok(("Record not found for update", true)), t2)
  }

  /** `performDelete`: `deleteMany` of the organisation's rows with the row key. */
  function PerformDeleteSpec(t: TableState, org: string, rowkey: string): (Result<(string, bool), Thrown>, TableState)
  {
    var (d, t1) := DeleteManyOp(t, ByRow(org, rowkey));
    if d.Err? then (Err(d.error), t1)
    else if d.value > 0 then (Ok(("Record deleted successfully", true)), t1)
    else (Ok(("Record not found or already deleted", false)), t1)
  }

  /** An operation's outcome with `previousData` added, or the caught error. */
  function Respond(r: Result<(string, bool), Thrown>, previous: Option<Row>): IfsResponse
  {
    if r.Ok? then IfsResponse(r.value.0, r.value.1, None, Some(previous)) else Failed(r.error)
  }

  /** `processData`; `now` is the text of the `new Date()` the upsert stamps. */
  function ProcessSpec(db: MirrorDb, fields: Fields, table: string, action: string, data: Value, org: string, now: string)
    : (IfsResponse, MirrorDb)
  {
    match RowkeyOf(data)
    case None => (MissingRowkey, db)
    case Some(rowkey) =>
      var previous := ReadExisting(db, table, org, rowkey);
      if action == "delete" then
        match MirrorOf(table)
        case None => (Failed(UnsupportedTable(table)), db)
        case Some(m) =>
          var (r, t) := PerformDeleteSpec(TableOf(db, m), org, rowkey);
          (Respond(r, previous), WithTable(db, m, t))
      else if action == "upsert" || action == "insert" || action == "update" then
        match MirrorOf(table)
        case None => (Failed(UnsupportedTable(table)), db)
        case Some(m) =>
          var record := EntriesRow(UpsertRecord(m, fields, data.entries, org, now));
          var (r, t) := PerformUpsertSpec(TableOf(db, m), record, org, rowkey);
          (Respond(r, previous), WithTable(db, m, t))
      else (UnsupportedActionResponse, db)
  }

  // ---------------------------------------------------------------------------
  // Properties
  // ---------------------------------------------------------------------------

  /**
   * A request without a usable row key, with an unknown action or for an unknown
   * table changes no table.
   */
  lemma RejectedRequestsWriteNothing(db: MirrorDb, fields: Fields, table: string, action: string, data: Value, org: string, now: string)
    ensures RowkeyOf(data).None? ==> ProcessSpec(db, fields, table, action, data, org, now) == (MissingRowkey, db)
    ensures RowkeyOf(data).Some? && !IsSynchronizationAction(action) ==>
      ProcessSpec(db, fields, table, action, data, org, now) == (UnsupportedActionResponse, db)
    ensures RowkeyOf(data).Some? && IsSynchronizationAction(action) && MirrorOf(table).None? ==>
      ProcessSpec(db, fields, table, action, data, org, now) == (Failed(UnsupportedTable(table)), db)
  {
  }

  /** Only the table named by the request can change. */
  lemma OnlyNamedTableChanges(db: MirrorDb, fields: Fields, table: string, action: string, data: Value, org: string, now: string, m: Mirror)
    requires MirrorOf(table) != Some(m)
    ensures TableOf(ProcessSpec(db, fields, table, action, data, org, now).1, m) == TableOf(db, m)
  {
  }

  /** Insert, update and upsert are one and the same operation. */
  lemma WriteActionsAreOneUpsert(db: MirrorDb, fields: Fields, table: string, action: string, data: Value, org: string, now: string)
    requires action in {"upsert", "insert", "update"}
    ensures ProcessSpec(db, fields, table, action, data, org, now) == ProcessSpec(db, fields, table, "upsert", data, org, now)
  {
  }

  /**
   * The upsert never reports a failure of its own: all three of its outcomes are
   * successes. It throws exactly when the table is faulty, or when the create is
   * skipped and the fallback update would duplicate a unique value (P2002).
   */
  lemma PerformUpsertSucceedsUnlessThrown(t: TableState, record: Row, org: string, rowkey: string)
    ensures PerformUpsertSpec(t, record, org, rowkey).0.Ok? ==> PerformUpsertSpec(t, record, org, rowkey).0.value.1
    ensures PerformUpsertSpec(t, record, org, rowkey).0.Err? <==>
      t.fault.Some? || (Conflicts(t.rows, t.unique, record) && UpdateConflicts(t.rows, t.unique, ByRow(org, rowkey), record))
    ensures t.fault.None? && PerformUpsertSpec(t, record, org, rowkey).0.Err? ==>
      PerformUpsertSpec(t, record, org, rowkey) == (Err(KnownRequestError("P2002", "Unique constraint failed")), t)
  {
  }

  /** So an upsert reply that is not a success is the missing row key, or the caught database error. */
  lemma UpsertOnlyFailsByThrowing(db: MirrorDb, fields: Fields, table: string, data: Value, org: string, now: string)
    ensures var r := ProcessSpec(db, fields, table, "upsert", data, org, now).0;
      !r.success ==> r == MissingRowkey || r.message == "Database operation failed"
  {
    if RowkeyOf(data).Some? && MirrorOf(table).Some? {
      var m := MirrorOf(table).value;
      var record := EntriesRow(UpsertRecord(m, fields, data.entries, org, now));
      PerformUpsertSucceedsUnlessThrown(TableOf(db, m), record, org, RowkeyOf(data).value);
    }
  }

  /**
   * On a working table the delete succeeds exactly when a row of this organisation
   * with this row key existed, and it removes exactly those rows.
   */
  lemma {:induction false} DeleteSucceedsIffRowExisted(db: MirrorDb, fields: Fields, table: string, data: Value, org: string, now: string)
    requires MirrorOf(table).Some? && RowkeyOf(data).Some?
    requires TableOf(db, MirrorOf(table).value).fault.None?
    ensures var t := TableOf(db, MirrorOf(table).value);
      var where := ByRow(org, RowkeyOf(data).value);
      var (r, db') := ProcessSpec(db, fields, table, "delete", data, org, now);
      (r.success <==> exists i :: 0 <= i < |t.rows| && Matches(t.rows[i], where))
      && (forall row :: row in TableOf(db', MirrorOf(table).value).rows <==> row in t.rows && !Matches(row, where))
  {
    var t := TableOf(db, MirrorOf(table).value);
    var where := ByRow(org, RowkeyOf(data).value);
    CountMatchingPositive(t.rows, where);
    DeleteRowsExactly(t.rows, where);
  }

  /**
   * `previousData` is the row the request addresses as it was before the write, when
   * the table could be read and has one.
   */
  lemma PreviousDataIsTheRowBefore(db: MirrorDb, fields: Fields, table: string, action: string, data: Value, org: string, now: string)
    requires MirrorOf(table).Some? && RowkeyOf(data).Some?
    requires TableOf(db, MirrorOf(table).value).fault.None?
    ensures var r := ProcessSpec(db, fields, table, action, data, org, now).0;
      r.previousData.Some? && r.previousData.value.Some? ==>
        var t := TableOf(db, MirrorOf(table).value);
        r.previousData.value.value in t.rows && Matches(r.previousData.value.value, ByRow(org, RowkeyOf(data).value))
  {
    PreviousDataIsTheRead(db, fields, table, action, data, org, now);
    ReadExistingMatches(db, table, org, RowkeyOf(data).value);
  }

  /** `previousData`, when the reply carries it, is what `readExistingData` read before the write. */
  lemma PreviousDataIsTheRead(db: MirrorDb, fields: Fields, table: string, action: string, data: Value, org: string, now: string)
    requires RowkeyOf(data).Some?
    ensures var r := ProcessSpec(db, fields, table, action, data, org, now).0;
      r.previousData.Some? ==> r.previousData.value == ReadExisting(db, table, org, RowkeyOf(data).value)
  {
  }

  /** A row `readExistingData` finds is one of the table's rows and has this organisation and row key. */
  lemma ReadExistingMatches(db: MirrorDb, table: string, org: string, rowkey: string)
    requires MirrorOf(table).Some?
    ensures ReadExisting(db, table, org, rowkey).Some? ==>
      ReadExisting(db, table, org, rowkey).value in TableOf(db, MirrorOf(table).value).rows &&
      Matches(ReadExisting(db, table, org, rowkey).value, ByRow(org, rowkey))
  {
    CountMatchingPositive(TableOf(db, MirrorOf(table).value).rows, ByRow(org, rowkey));
  }

  /** An upsert of a record that clashes with no unique value creates it: the rows grow by that record. */
  lemma UpsertCreatesNewRecord(t: TableState, record: Row, org: string, rowkey: string)
    requires t.fault.None? && !Conflicts(t.rows, t.unique, record)
    ensures PerformUpsertSpec(t, record, org, rowkey) == (Ok(("Record created successfully", true)), t.(rows := t.rows + [Stored(record)]))
  {
  }

  /**
   * When the create is skipped the organisation's rows with the row key are
   * overwritten with the record; "not found" is reported, still as a success, only
   * when there is none. An update that would duplicate a unique value throws P2002
   * and writes nothing.
   */
  lemma UpsertFallsBackToUpdate(t: TableState, record: Row, org: string, rowkey: string)
    requires t.fault.None? && Conflicts(t.rows, t.unique, record)
    ensures UpdateConflicts(t.rows, t.unique, ByRow(org, rowkey), record) ==>
      PerformUpsertSpec(t, record, org, rowkey) == (Err(KnownRequestError("P2002", "Unique constraint failed")), t)
    ensures !UpdateConflicts(t.rows, t.unique, ByRow(org, rowkey), record) ==>
      PerformUpsertSpec(t, record, org, rowkey).0.Ok? && PerformUpsertSpec(t, record, org, rowkey).0.value.1
    ensures !UpdateConflicts(t.rows, t.unique, ByRow(org, rowkey), record) ==>
      (PerformUpsertSpec(t, record, org, rowkey).0.value.0 == "Record not found for update" <==>
        forall i :: 0 <= i < |t.rows| ==> !Matches(t.rows[i], ByRow(org, rowkey)))
    ensures !UpdateConflicts(t.rows, t.unique, ByRow(org, rowkey), record) ==>
      forall i :: 0 <= i < |t.rows| ==>
        PerformUpsertSpec(t, record, org, rowkey).1.rows[i] ==
          if Matches(t.rows[i], ByRow(org, rowkey)) then t.rows[i] + Stored(record) else t.rows[i]
  {
    CountMatchingPositive(t.rows, ByRow(org, rowkey));
    UpdateRowsPointwise(t.rows, ByRow(org, rowkey), record);
  }

  /** Every entry whose key lower-cases to `k` holds `x`, and there is one: the last of them holds `x`. */
  lemma {:induction false} LastWithSingleValue(es: Entries, k: string, x: Value)
    requires forall i :: 0 <= i < |es| && ToLower(es[i].0) == k ==> es[i].1 == x
    requires exists i :: 0 <= i < |es| && ToLower(es[i].0) == k
    ensures LastWithLowerKey(es, k) == Some(x)
  {
    var j :| 0 <= j < |es| && ToLower(es[j].0) == k;
    if j > 0 {
      assert es[1..][j - 1] == es[j];
      forall i | 0 <= i < |es[1..]| && ToLower(es[1..][i].0) == k ensures es[1..][i].1 == x {
        assert es[1..][i] == es[i + 1];
      }
      LastWithSingleValue(es[1..], k, x);
    } else if LastWithLowerKey(es[1..], k).Some? {
      var i :| 0 <= i < |es[1..]| && ToLower(es[1..][i].0) == k && es[1..][i].1 == LastWithLowerKey(es[1..], k).value;
      assert es[1..][i] == es[i + 1];
    }
  }

  /** Assigning `k` in an object with unique keys: the entry for `k` holds `v`, every other entry is an old one. */
  lemma {:induction false} PutEntries(es: Entries, k: string, v: Value)
    requires UniqueKeys(es)
    ensures forall i :: 0 <= i < |Put(es, k, v)| ==>
      Put(es, k, v)[i] == (k, v) || (Put(es, k, v)[i] in es && Put(es, k, v)[i].0 != k)
  {
    if es != [] && es[0].0 != k {
      assert UniqueKeys(es[1..]) by {
        forall i, j | 0 <= i < j < |es[1..]| ensures es[1..][i].0 != es[1..][j].0 {
          assert es[1..][i] == es[i + 1] && es[1..][j] == es[j + 1];
        }
      }
      PutEntries(es[1..], k, v);
      forall i | 1 <= i < |Put(es, k, v)| ensures Put(es, k, v)[i] == Put(es[1..], k, v)[i - 1] {
      }
    } else if es != [] {
      forall i | 1 <= i < |es| ensures es[i].0 != k {
        assert es[0].0 != es[i].0;
      }
    }
  }

  /** In the stamped payload, every entry whose key lower-cases to `organization_id` holds the organisation. */
  lemma StampedOnlyOrganisation(es: Entries, org: string, now: string)
    requires UniqueKeys(es)
    requires forall i :: 0 <= i < |es| && ToLower(es[i].0) == "organization_id" ==> es[i].0 == "organization_id"
    ensures forall i :: 0 <= i < |Stamped(es, org, now)| && ToLower(Stamped(es, org, now)[i].0) == "organization_id" ==>
      Stamped(es, org, now)[i].1 == Str(org)
  {
    var s1 := Put(es, "organization_id", Str(org));
    var s2 := Put(s1, "updated_at", Date(now));
    PutEntries(es, "organization_id", Str(org));
    PutKeepsKeysUnique(es, "organization_id", Str(org));
    PutEntries(s1, "updated_at", Date(now));
    forall i | 0 <= i < |s2| && ToLower(s2[i].0) == "organization_id" ensures s2[i].1 == Str(org) {
      assert |ToLower(s2[i].0)| == |s2[i].0|;
      assert s2[i].0 != "updated_at";
      assert s2[i] in s1;
    }
  }

  lemma LowerCaseUnchanged(s: string)
    requires IsLowerCase(s)
    ensures ToLower(s) == s
  {
  }

  /** The stamp's own `organization_id` is not overwritten by the `updated_at` stamp. */
  lemma StampedLookup(es: Entries, org: string, now: string)
    ensures Lookup(Stamped(es, org, now), "organization_id") == Some(Str(org))
  {
    var s1 := Put(es, "organization_id", Str(org));
    assert "organization_id" != "updated_at" by {
      assert |"organization_id"| != |"updated_at"|;
    }
    assert Lookup(Put(s1, "updated_at", Date(now)), "organization_id") == Lookup(s1, "organization_id");
  }

  lemma HasLowerKey(es: Entries, k: string, v: Value) returns (j: nat)
    requires Lookup(es, k) == Some(v) && ToLower(k) == k
    ensures j < |es| && ToLower(es[j].0) == k
  {
    assert (k, v) in es;
    j :| j < |es| && es[j] == (k, v);
  }

  lemma OrganisationIdIsLowerCase()
    ensures ToLower("organization_id") == "organization_id"
  {
    LowerCaseUnchanged("organization_id");
  }

  /**
   * The `organization_id` written is the organisation of the request, provided the
   * payload has no other key that lower-cases to `organization_id`.
   */
  lemma StampedOrganisation(es: Entries, org: string, now: string)
    requires UniqueKeys(es)
    requires forall i :: 0 <= i < |es| && ToLower(es[i].0) == "organization_id" ==> es[i].0 == "organization_id"
    ensures Lookup(NormalizeKeys(Obj(Stamped(es, org, now))).entries, "organization_id") == Some(Str(org))
  {
    StampedLast(es, org, now);
    NormalizeKeysLookup(Stamped(es, org, now), "organization_id");
  }

  lemma StampedLast(es: Entries, org: string, now: string)
    requires UniqueKeys(es)
    requires forall i :: 0 <= i < |es| && ToLower(es[i].0) == "organization_id" ==> es[i].0 == "organization_id"
    ensures LastWithLowerKey(Stamped(es, org, now), "organization_id") == Some(Str(org))
  {
    StampedOnlyOrganisation(es, org, now);
    StampedLookup(es, org, now);
    OrganisationIdIsLowerCase();
    var j := HasLowerKey(Stamped(es, org, now), "organization_id", Str(org));
    LastWithSingleValue(Stamped(es, org, now), "organization_id", Str(org));
  }

  /**
   * Otherwise the payload can override it: with both `organization_id` and, after it,
   * `ORGANIZATION_ID`, the record carries the latter's value and not the request's
   * organisation.
   */
  lemma PayloadOverridesOrganisation(org: string, now: string)
    ensures Lookup(NormalizeKeys(Obj(Stamped([("organization_id", Str("a")), ("ORGANIZATION_ID", Str("b"))], org, now))).entries,
                   "organization_id") == Some(Str("b"))
  {
    var s2 := StampedPair(org, now);
    LastOfStampedPair(org, now);
    NormalizeKeysLookup(s2, "organization_id");
  }

  lemma StampedPair(org: string, now: string) returns (s2: Entries)
    ensures s2 == Stamped([("organization_id", Str("a")), ("ORGANIZATION_ID", Str("b"))], org, now)
    ensures s2 == [("organization_id", Str(org)), ("ORGANIZATION_ID", Str("b")), ("updated_at", Date(now))]
  {
    PutOverFirst(org);
    PutAfterPair(org, now);
    s2 := [("organization_id", Str(org)), ("ORGANIZATION_ID", Str("b")), ("updated_at", Date(now))];
  }

  lemma PutOverFirst(org: string)
    ensures Put([("organization_id", Str("a")), ("ORGANIZATION_ID", Str("b"))], "organization_id", Str(org))
         == [("organization_id", Str(org)), ("ORGANIZATION_ID", Str("b"))]
  {
    var es := [("organization_id", Str("a")), ("ORGANIZATION_ID", Str("b"))];
    assert es[1..] == [("ORGANIZATION_ID", Str("b"))];
  }

  lemma PutAfterPair(org: string, now: string)
    ensures Put([("organization_id", Str(org)), ("ORGANIZATION_ID", Str("b"))], "updated_at", Date(now))
         == [("organization_id", Str(org)), ("ORGANIZATION_ID", Str("b")), ("updated_at", Date(now))]
  {
    var s1 := [("organization_id", Str(org)), ("ORGANIZATION_ID", Str("b"))];
    assert |"organization_id"| != |"updated_at"| && |"ORGANIZATION_ID"| != |"updated_at"|;
    assert Put(s1[2..], "updated_at", Date(now)) == [("updated_at", Date(now))];
    assert Put(s1[1..], "updated_at", Date(now)) == [s1[1]] + Put(s1[2..], "updated_at", Date(now));
  }

  lemma LastOfStampedPair(org: string, now: string)
    ensures LastWithLowerKey([("organization_id", Str(org)), ("ORGANIZATION_ID", Str("b")), ("updated_at", Date(now))],
                             "organization_id") == Some(Str("b"))
  {
    var s2 := [("organization_id", Str(org)), ("ORGANIZATION_ID", Str("b")), ("updated_at", Date(now))];
    assert ToLower("ORGANIZATION_ID") == "organization_id";
    assert ToLower("updated_at") != "organization_id" by {
      assert |ToLower("updated_at")| == 10;
    }
    assert LastWithLowerKey(s2[2..], "organization_id") == None;
    assert s2[1..][1..] == s2[2..];
  }

  // ---------------------------------------------------------------------------
  // The service
  // ---------------------------------------------------------------------------

  class Service {
    const supplierTab: Table
    const paymentTab: Table
    const taxTab: Table
    const fields: Fields

    constructor (s: Table, p: Table, t: Table, f: Fields)
      ensures supplierTab == s && paymentTab == p && taxTab == t && fields == f
    {
      supplierTab := s;
      paymentTab := p;
      taxTab := t;
      fields := f;
    }

    function Db(): MirrorDb
      reads supplierTab, paymentTab, taxTab
    {
      MirrorDb(supplierTab.State(), paymentTab.State(), taxTab.State())
    }

    function Model(m: Mirror): Table
    {
      match m
      case SupplierTab => supplierTab
      case PaymentTab => paymentTab
      case TaxTab => taxTab
    }

    /** `performUpsert` on one model. */
    static method PerformUpsert(model: Table, record: Row, org: string, rowkey: string) returns (r: Result<(string, bool), Thrown>)
      modifies model
      ensures (r, model.State()) == PerformUpsertSpec(old(model.State()), record, org, rowkey)
    {
      var created := model.CreateMany(record);
      if created.Err? {
        return Err(created.error);
      }
      if created.value > 0 {
        return Ok(("Record created successfully", true));
      }
      var updated := model.UpdateMany(ByRow(org, rowkey), record);
      if updated.Err? {
        return Err(updated.error);
      }
      if updated.value > 0 {
        r := Ok(("Record updated successfully", true));
      } else {
        r := Ok(("Record not found for update", true));
      }
    }

    /** `performDelete` on one model. */
    static method PerformDelete(model: Table, org: string, rowkey: string) returns (r: Result<(string, bool), Thrown>)
      modifies model
      ensures (r, model.State()) == PerformDeleteSpec(old(model.State()), org, rowkey)
    {
      var deleted := model.DeleteMany(ByRow(org, rowkey));
      if deleted.Err? {
        return Err(deleted.error);
      }
      if deleted.value > 0 {
        r := Ok(("Record deleted successfully", true));
      } else {
        r := Ok(("Record not found or already deleted", false));
      }
    }

    /** `readExistingData` */
    method ReadExistingData(table: string, org: string, rowkey: string) returns (previous: Option<Row>)
      ensures previous == ReadExisting(Db(), table, org, rowkey)
    {
      var m := MirrorOf(table);
      if m.None? {
        return None;
      }
      var found := Model(m.value).FindFirst(ByRow(org, rowkey));
      assert Model(m.value).State() == TableOf(Db(), m.value);
      previous := if found.Ok? then found.value else None;
    }

    /** `upsertRecord`'s shaping of the payload, with its loops. */
    method BuildRecord(m: Mirror, es: Entries, org: string, now: string) returns (record: Entries)
      ensures record == UpsertRecord(m, fields, es, org, now)
    {
      var normalized := Normalize(Obj(Stamped(es, org, now)));
      match m {
        case SupplierTab =>
          record := FilterValidFieldsLoop(normalized.entries, fields.supplier);
        case PaymentTab =>
          record := FilterValidFieldsLoop(MapPaymentFields(normalized.entries), fields.payment);
        case TaxTab =>
          record := FilterValidFieldsLoop(normalized.entries, fields.tax);
      }
    }

    /** `processData` */
    method ProcessData(table: string, action: string, data: Value, org: string, now: string) returns (r: IfsResponse)
      requires supplierTab != paymentTab && paymentTab != taxTab && supplierTab != taxTab
      modifies supplierTab, paymentTab, taxTab
      ensures (r, Db()) == ProcessSpec(old(Db()), fields, table, action, data, org, now)
    {
      var rowkey := RowkeyOf(data);
      if rowkey.None? {
        return MissingRowkey;
      }
      var previous := ReadExistingData(table, org, rowkey.value);
      var isWrite := action == "upsert" || action == "insert" || action == "update";
      if action != "delete" && !isWrite {
        return UnsupportedActionResponse;
      }
      var m := MirrorOf(table);
      if m.None? {
        return Failed(UnsupportedTable(table));
      }
      ghost var db := Db();
      var outcome;
      if action == "delete" {
        outcome := PerformDelete(Model(m.value), org, rowkey.value);
      } else {
        var record := BuildRecord(m.value, data.entries, org, now);
        outcome := PerformUpsert(Model(m.value), EntriesRow(record), org, rowkey.value);
      }
      assert Db() == WithTable(db, m.value, Model(m.value).State());
      r := Respond(outcome, previous);
    }
  }
}
