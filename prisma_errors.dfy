/** src/utilities/prisma-error-mapper.ts: a thrown value mapped to a failed synchronisation result. */
module PrismaErrors {
  import opened Wrappers
  import opened SyncTypes

  /**
   * `mapPrismaErrorToSynchronizationResult`. The status classifies the error: 404 for
   * a missing record, 409 for a unique or foreign-key violation, 400 for another
   * known request error, 422 for a validation error, 500 for everything else.
   */
  function MapPrismaError(e: Thrown): (r: SyncResult)
    ensures !r.success && r.errorType.None?
    ensures r.status in {400, 404, 409, 422, 500}
    ensures r.status == 404 <==> e.KnownRequestError? && e.code == "P2025"
    ensures r.status == 409 <==> e.KnownRequestError? && (e.code == "P2002" || e.code == "P2003")
    ensures r.status == 400 <==> e.KnownRequestError? && e.code !in {"P2025", "P2002", "P2003"}
    ensures r.status == 422 <==> e.ValidationError?
    ensures r.status == 500 <==> !e.KnownRequestError? && !e.ValidationError?
    ensures r.message == DuplicateRecordViolation <==> e.KnownRequestError? && e.code == "P2002"
    ensures r.message == DatabaseConnectionInitializationFailed <==> e.InitializationError? || e.RustPanicError?
    ensures r.message == UnknownDatabaseOperationError <==> e.PlainError? || e.NonError?
  {
    match e
    case KnownRequestError(code, _) =>
      if code == "P2025" then SyncResult(404, RecordNotFound, false, None)
      else if code == "P2002" then SyncResult(409, DuplicateRecordViolation, false, None)
      else if code == "P2003" then SyncResult(409, ForeignKeyConstraintViolation, false, None)
      else SyncResult(400, DatabaseOperationValidationFailed, false, None)
    case ValidationError(_) => SyncResult(422, DatabaseSchemaValidationFailed, false, None)
    case InitializationError(_) => SyncResult(500, DatabaseConnectionInitializationFailed, false, None)
    case RustPanicError(_) => SyncResult(500, DatabaseConnectionInitializationFailed, false, None)
    case _ => SyncResult(500, UnknownDatabaseOperationError, false, None)
  }
}
