/**
 * src/utilities/ifs-table-sql-audit-logger.ts: the SQL text written to the audit
 * log for a synchronisation request, the IFS-to-target table map it uses, and the
 * 32-bit hash the log line carries instead of the statement.
 */
module AuditSql {
  import opened Wrappers
  import opened JsText
  import opened JsValues
  import opened SyncTypes
  import SupplierInformationHandler
  import PaymentAddressHandler
  import SupplierDocumentTaxHandler

  // ---------------------------------------------------------------------------
  // getTargetDatabaseTableNameFromIfsTableName
  // ---------------------------------------------------------------------------

  /** The fixed table map; an unmapped name stands for itself. */
  function TargetTableName(ifsTable: string): string
  {
    if ifsTable == "supplier_info_tab" then "suppliers"
    else if ifsTable == "payment_address_tab" then "supplier_bank_addresses"
    else if ifsTable == "supplier_document_tax_info_tab" then "suppliers"
    else ifsTable
  }

  /** The audit map names, for each handler's IFS table, the table that handler declares it writes. */
  lemma TargetTableAgreesWithHandlers()
    ensures TargetTableName(SupplierInformationHandler.IfsTableName) == SupplierInformationHandler.TargetTableName
    ensures TargetTableName(PaymentAddressHandler.IfsTableName) == PaymentAddressHandler.TargetTableName
    ensures TargetTableName(SupplierDocumentTaxHandler.IfsTableName) == SupplierDocumentTaxHandler.TargetTableName
    ensures forall t :: t !in {"supplier_info_tab", "payment_address_tab", "supplier_document_tax_info_tab"} ==>
      TargetTableName(t) == t
  {
  }

  // ---------------------------------------------------------------------------
  // Object.keys / Object.values
  // ---------------------------------------------------------------------------

  const NotAnObject: Thrown := PlainError("Cannot convert undefined or null to object")

  /** The index names "0", "1", ... of an array or a string of length `n`. */
  function IndexNames(n: nat): (ks: seq<string>)
    ensures |ks| == n
  {
    seq(n, i requires 0 <= i < n => NatToDecimal(i))
  }

  /** `Object.keys(v)`: throws for `null` and `undefined`; a number, boolean or date has none. */
  function ObjectKeys(v: Value): Result<seq<string>, Thrown>
  {
    match v
    case Undefined => Err(NotAnObject)
    case Null => Err(NotAnObject)
    case Obj(es) => Ok(Keys(es))
    case Arr(items) => Ok(IndexNames(|items|))
    case Str(s) => Ok(IndexNames(|s|))
    case _ => Ok([])
  }

  /** `Object.values(v)`, in the order of `Object.keys(v)`. */
  function ObjectValues(v: Value): Result<seq<Value>, Thrown>
  {
    match v
    case Undefined => Err(NotAnObject)
    case Null => Err(NotAnObject)
    case Obj(es) => Ok(Values(es))
    case Arr(items) => Ok(items)
    case Str(s) => Ok(seq(|s|, i requires 0 <= i < |s| => Str([s[i]])))
    case _ => Ok([])
  }

  /** Keys and values come together: both throw or both give the same number of elements. */
  lemma KeysAndValuesAlign(v: Value)
    ensures ObjectKeys(v).Ok? <==> Readable(v)
    ensures ObjectValues(v).Ok? <==> Readable(v)
    ensures Readable(v) ==> |ObjectKeys(v).value| == |ObjectValues(v).value|
    ensures v.Obj? ==> ObjectKeys(v).value == Keys(v.entries) && ObjectValues(v).value == Values(v.entries)
  {
  }

  // ---------------------------------------------------------------------------
  // buildSqlStatementForAuditLogging
  // ---------------------------------------------------------------------------

  /**
   * Each item between two `q` characters, with no escaping: `"${key}"` for the column
   * names and `'${value}'` for the values.
   */
  function Wrapped(q: char, xs: seq<string>): (r: seq<string>)
    ensures |r| == |xs|
    ensures forall i :: 0 <= i < |xs| ==>
      |r[i]| == |xs[i]| + 2 && r[i][0] == q == r[i][|r[i]| - 1] && r[i][1..|r[i]| - 1] == xs[i]
  {
    seq(|xs|, i requires 0 <= i < |xs| => [q] + xs[i] + [q])
  }

  function Texts(vs: seq<Value>): (ts: seq<string>)
    ensures |ts| == |vs|
    ensures forall i :: 0 <= i < |vs| ==> ts[i] == ToJsString(vs[i])
  {
    seq(|vs|, i requires 0 <= i < |vs| => ToJsString(vs[i]))
  }

  /** The column list of the insert: the payload's keys, then `organization_id`. */
  function InsertColumns(data: Value): seq<string>
    requires Readable(data)
  {
    Wrapped('"', ObjectKeys(data).value + ["organization_id"])
  }

  /** The value list of the insert: the payload's values, then the organisation. */
  function InsertValues(data: Value, org: string): seq<string>
    requires Readable(data)
  {
    Wrapped('\'', Texts(ObjectValues(data).value) + [org])
  }

  /** The `"column"='value'` assignments of the update, one per entry of the payload. */
  function Assignments(data: Value): seq<string>
    requires Readable(data)
  {
    var ks := ObjectKeys(data).value;
    var vs := Texts(ObjectValues(data).value);
    seq(|ks|, i requires 0 <= i < |ks| => "\"" + ks[i] + "\"='" + (if i < |vs| then vs[i] else "") + "'")
  }

  /** The condition of the update and the delete: the payload's `rowkey` and the organisation. */
  function RowCondition(data: Value, org: string): string
  {
    "rowkey='" + ToJsString(Get(data, "rowkey")) + "' AND organization_id='" + org + "'"
  }

  /**
   * `buildSqlStatementForAuditLogging`. It throws exactly when the action reads the
   * payload (every action but an unknown one) and the payload is `null` or `undefined`.
   */
  function BuildSqlStatement(ifsTable: string, action: string, org: string, data: Value): (r: Result<string, Thrown>)
    ensures r.Err? <==> IsSynchronizationAction(action) && !Readable(data)
    ensures !IsSynchronizationAction(action) ==> r == Ok("-- Unknown synchronization action: " + action)
  {
    var target := TargetTableName(ifsTable);
    if action == "insert" || action == "upsert" then
      if !Readable(data) then Err(NotAnObject)
      else Ok("INSERT INTO \"" + target + "\" (" + Join(InsertColumns(data), ", ") + ") VALUES ("
              + Join(InsertValues(data, org), ", ") + ") ON CONFLICT DO UPDATE SET ...")
    else if action == "update" then
      if !Readable(data) then Err(NotAnObject)
      else Ok("UPDATE \"" + target + "\" SET " + Join(Assignments(data), ", ") + " WHERE " + RowCondition(data, org))
    else if action == "delete" then
      if !Readable(data) then Err(ReadOfNothing)
      else Ok("DELETE FROM \"" + target + "\" WHERE " + RowCondition(data, org))
    else Ok("-- Unknown synchronization action: " + action)
  }

  /** Insert and upsert log the same statement. */
  lemma InsertIsUpsert(ifsTable: string, org: string, data: Value)
    ensures BuildSqlStatement(ifsTable, "insert", org, data) == BuildSqlStatement(ifsTable, "upsert", org, data)
  {
  }

  /**
   * The insert's column and value lists have one element per payload key plus the
   * organisation, which comes last in both.
   */
  lemma InsertListsAlign(org: string, data: Value)
    requires Readable(data)
    ensures |InsertColumns(data)| == |InsertValues(data, org)| == |ObjectKeys(data).value| + 1
    ensures InsertColumns(data)[|ObjectKeys(data).value|] == "\"organization_id\""
    ensures InsertValues(data, org)[|ObjectKeys(data).value|] == "'" + org + "'"
  {
    KeysAndValuesAlign(data);
    var ks := ObjectKeys(data).value;
    var ts := Texts(ObjectValues(data).value);
    assert (ks + ["organization_id"])[|ks|] == "organization_id";
    assert (ts + [org])[|ts|] == org;
  }

  /** The update writes one assignment per entry of an object payload, naming its key and value in order. */
  lemma AssignmentsFollowEntries(data: Value)
    requires data.Obj?
    ensures |Assignments(data)| == |data.entries|
    ensures forall i :: 0 <= i < |data.entries| ==>
      Assignments(data)[i] == "\"" + data.entries[i].0 + "\"='" + ToJsString(data.entries[i].1) + "'"
  {
  }

  // ---------------------------------------------------------------------------
  // generateSqlStatementHash
  // ---------------------------------------------------------------------------

  const TwoTo31: int := 0x8000_0000
  const TwoTo32: int := 0x1_0000_0000

  /** `ToInt32`: the 32-bit two's-complement value congruent to `x`. */
  function ToInt32(x: int): (r: int)
    ensures -TwoTo31 <= r < TwoTo31
  {
    ((x + TwoTo31) % TwoTo32) - TwoTo31
  }

  /** Numbers that differ by a multiple of 2^32 have the same 32-bit value. */
  lemma ToInt32Shift(x: int, k: int)
    ensures ToInt32(x + TwoTo32 * k) == ToInt32(x)
  {
    var q := (x + TwoTo31) / TwoTo32;
    var r := (x + TwoTo31) % TwoTo32;
    assert x + TwoTo32 * k + TwoTo31 == TwoTo32 * (q + k) + r;
  }

  lemma ToInt32Offset(x: int)
    ensures ToInt32(x) == x + TwoTo32 * (-((x + TwoTo31) / TwoTo32))
  {
  }

  /** The UTF-16 code units of one character, which `charCodeAt` walks. */
  function CharUnits(c: char): (us: seq<int>)
    ensures 1 <= |us| <= 2
    ensures forall i :: 0 <= i < |us| ==> 0 <= us[i] < 0x1_0000
    ensures c as int < 0x1_0000 <==> us == [c as int]
  {
    if c as int < 0x1_0000 then [c as int]
    else [0xD800 + (c as int - 0x1_0000) / 0x400, 0xDC00 + (c as int - 0x1_0000) % 0x400]
  }

  /** The text as JavaScript stores it: a sequence of UTF-16 code units. */
  function CodeUnits(s: string): (us: seq<int>)
    ensures |us| >= |s|
    ensures forall i :: 0 <= i < |us| ==> 0 <= us[i] < 0x1_0000
  {
    if s == [] then [] else CodeUnits(s[..|s| - 1]) + CharUnits(s[|s| - 1])
  }

  /** One step: `hash = ((hash << 5) - hash) + char; hash = hash & hash`. */
  function HashStep(h: int, unit: int): int
  {
    ToInt32(ToInt32(h * 32) - h + unit)
  }

  /** The hash of a sequence of code units, folded from the left starting at 0. */
  function HashFold(us: seq<int>): (h: int)
    ensures -TwoTo31 <= h < TwoTo31
  {
    if us == [] then 0 else HashStep(HashFold(us[..|us| - 1]), us[|us| - 1])
  }

  /** The polynomial `sum of us[i] * 31^(n-1-i)` over the integers, without any truncation. */
  function Poly31(us: seq<int>): int
  {
    if us == [] then 0 else 31 * Poly31(us[..|us| - 1]) + us[|us| - 1]
  }

  /** The hash is the 32-bit value of the base-31 polynomial of the code units. */
  lemma {:induction false} HashFoldIsPoly31(us: seq<int>)
    ensures HashFold(us) == ToInt32(Poly31(us))
  {
    if us != [] {
      var front := us[..|us| - 1];
      var c := us[|us| - 1];
      var p := Poly31(front);
      HashFoldIsPoly31(front);
      var h := ToInt32(p);
      ToInt32Offset(p);
      var b := -((p + TwoTo31) / TwoTo32);
      ToInt32Offset(h * 32);
      var a := -((h * 32 + TwoTo31) / TwoTo32);
      assert ToInt32(h * 32) - h + c == 31 * p + c + TwoTo32 * (a + 31 * b);
      ToInt32Shift(31 * p + c, a + 31 * b);
    }
  }

  /** `Math.abs(hash).toString(16)` */
  function HashText(sql: string): string
  {
    var h := HashFold(CodeUnits(sql));
    ToHex(if h < 0 then -h else h)
  }

  /** The hash text is one to eight lower-case hex digits, `0` for the empty statement, and reads back as |hash|. */
  lemma HashTextShape(sql: string)
    ensures 1 <= |HashText(sql)| <= 8
    ensures forall i :: 0 <= i < |HashText(sql)| ==> HashText(sql)[i] in "0123456789abcdef"
    ensures sql == [] ==> HashText(sql) == "0"
    ensures var h := ToInt32(Poly31(CodeUnits(sql))); FromHex(HashText(sql)) == if h < 0 then -h else h
  {
    var h := HashFold(CodeUnits(sql));
    var m := if h < 0 then -h else h;
    assert Pow16(8) == TwoTo32;
    HexLength(m, 8);
    HexRoundTrip(m);
    HashFoldIsPoly31(CodeUnits(sql));
  }

  /** `generateSqlStatementHash` */
  method GenerateHash(sql: string) returns (hex: string)
    ensures hex == HashText(sql)
  {
    var units := CodeUnits(sql);
    var hash := 0;
    var i := 0;
    while i < |units|
      invariant 0 <= i <= |units|
      invariant hash == HashFold(units[..i])
    {
      assert units[..i + 1][..i] == units[..i];
      hash := ToInt32(ToInt32(hash * 32) - hash + units[i]);
      i := i + 1;
    }
    assert units[..|units|] == units;
    hex := ToHex(if hash < 0 then -hash else hash);
  }
}
