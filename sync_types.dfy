/**
 * The result record of the table synchronisation path, its fixed messages and
 * error types (src/types/ifs-table-synchronization-response-messages.ts), and the
 * values a database call or a handler can throw.
 */
module SyncTypes {
  import opened Wrappers
  import opened JsValues

  /** `{status, message, success, error_type?}` */
  datatype SyncResult = SyncResult(status: nat, message: string, success: bool, errorType: Option<string>)

  /** What a `catch` can receive: Prisma's four error classes, a plain `Error`, or any other thrown value. */
  datatype Thrown =
    | KnownRequestError(code: string, message: string)
    | ValidationError(message: string)
    | InitializationError(message: string)
    | RustPanicError(message: string)
    | PlainError(message: string)
    | NonError(text: string)      // a thrown string, `null`, `undefined`, ...: its `String(value)` text

  /** `error instanceof Error ? error.message : String(error)` */
  function ErrorText(e: Thrown): string
  {
    match e
    case NonError(text) => text
    case _ => e.message
  }

  /** The four synchronisation actions. */
  predicate IsSynchronizationAction(action: string)
  {
    action in ["insert", "update", "upsert", "delete"]
  }

  // Response messages
  const SupplierInformationCreated: string := "Supplier information record created successfully"
  const SupplierInformationUpdated: string := "Supplier information record updated successfully"
  const SupplierInformationCreatedViaUpsert: string := "Supplier information record created via upsert operation"
  const SupplierInformationUpdatedViaUpsert: string := "Supplier information record updated via upsert operation"
  const SupplierInformationDeleted: string := "Supplier information record deleted successfully"
  const PaymentAddressCreated: string := "Payment address record created successfully"
  const PaymentAddressUpdated: string := "Payment address record updated successfully"
  const PaymentAddressCreatedViaUpsert: string := "Payment address record created via upsert operation"
  const PaymentAddressUpdatedViaUpsert: string := "Payment address record updated via upsert operation"
  const PaymentAddressDeleted: string := "Payment address record deleted successfully"
  const SupplierTaxInformationUpdated: string := "Supplier tax information updated successfully"
  const SupplierTaxInformationDeletionSkipped: string := "Supplier tax information deletion not supported - operation skipped"
  const RecordNotFound: string := "Requested record not found in database"
  const UnsupportedTableName: string := "Unsupported IFS table name"
  const InvalidSynchronizationAction: string := "Invalid synchronization action"
  const DuplicateRecordViolation: string := "Duplicate record constraint violation"
  const ForeignKeyConstraintViolation: string := "Foreign key constraint violation"
  const DatabaseOperationValidationFailed: string := "Database operation validation failed"
  const DatabaseSchemaValidationFailed: string := "Database schema validation failed"
  const DatabaseConnectionInitializationFailed: string := "Database connection initialization failed"
  const UnknownDatabaseOperationError: string := "Unknown database operation error"

  // Error types
  const RecordNotFoundType: string := "record_not_found"
  const UnsupportedTableType: string := "unsupported_table"
  const InvalidActionType: string := "invalid_action"

  /** The not-found reply every handler gives when a where-clause matched no row. */
  const NotFound: SyncResult := SyncResult(200, RecordNotFound, false, Some(RecordNotFoundType))

  /** A successful handler reply. */
  function Done(message: string): SyncResult
  {
    SyncResult(200, message, true, None)
  }

  /** A reply decided by the number of rows a write matched: none is the not-found reply. */
  function CountOutcome(count: nat, done: string): (r: SyncResult)
    ensures r.status == 200
    ensures r.success <==> count > 0
    ensures r.success ==> r == Done(done)
    ensures !r.success ==> r == NotFound
  {
    if count == 0 then NotFound else Done(done)
  }

  /**
   * What a handler answers: a throw, or a reply of status 200 that is either a
   * success without an error type or the not-found reply.
   */
  predicate HandlerReply(r: Result<SyncResult, Thrown>)
  {
    r.Ok? ==> r.value.status == 200 && (!r.value.success ==> r.value == NotFound) && (r.value.success ==> r.value.errorType.None?)
  }

  /** Reading a property of `null` or `undefined` throws a `TypeError`; any other value can be read. */
  predicate Readable(v: Value)
  {
    !v.Null? && !v.Undefined?
  }

  const ReadOfNothing: Thrown := PlainError("Cannot read properties of null or undefined")

  /** `throw new Error(`Unsupported synchronization action: ${action}`)` */
  function UnsupportedAction(action: string): Thrown
  {
    PlainError("Unsupported synchronization action: " + action)
  }
}
