/**
 * src/services/ifs-table-synchronization-service.ts: `synchronizeIfsTableData`
 * validates the table name and the action, runs the registered handler and turns
 * anything the handler throws into a result through the Prisma error mapper.
 */
module TableSyncService {
  import opened Wrappers
  import opened JsValues
  import opened SyncTypes
  import opened DbTable
  import opened PrismaErrors
  import opened HandlerFactory
  import AuditSql
  import SupplierInformationHandler
  import PaymentAddressHandler
  import SupplierDocumentTaxHandler

  const UnsupportedTableReply: SyncResult := SyncResult(400, UnsupportedTableName, false, Some(UnsupportedTableType))
  const InvalidActionReply: SyncResult := SyncResult(400, InvalidSynchronizationAction, false, Some(InvalidActionType))

  /** `throw new Error(`No synchronization handler available for IFS table: ${name}`)` */
  function NoHandler(table: string): Thrown
  {
    PlainError("No synchronization handler available for IFS table: " + table)
  }

  /** The two target tables the built-in handlers write. */
  datatype Db = Db(suppliers: TableState, bankAddresses: TableState)

  /** A handler's reply as the service returns it: passed through, or a throw mapped to a failure. */
  function Outcome(r: Result<SyncResult, Thrown>): SyncResult
  {
    if r.Ok? then r.value else MapPrismaError(r.error)
  }

  /** `executeSynchronizationWithHandler` once the handler is built: its reply, or what it threw. */
  function DispatchSpec(cls: HandlerClass, db: Db, action: string, org: string, data: Value,
                        custom: Result<SyncResult, Thrown>): (Result<SyncResult, Thrown>, Db)
  {
    match cls
    case SupplierInformation =>
      var (r, s) := SupplierInformationHandler.HandleSpec(db.suppliers, action, org, data);
      (r, db.(suppliers := s))
    case PaymentAddress =>
      var (r, b) := PaymentAddressHandler.HandleSpec(db.bankAddresses, action, org, data);
      (r, db.(bankAddresses := b))
    case SupplierDocumentTax =>
      var (r, s) := SupplierDocumentTaxHandler.HandleSpec(db.suppliers, action, org, data);
      (r, db.(suppliers := s))
    case Custom(_, _) => (custom, db)
  }

  /**
   * `synchronizeIfsTableData` for the registry `handlers`. A registered class of
   * unknown code answers `custom` and writes neither table.
   */
  function SynchronizeSpec(handlers: map<string, HandlerClass>, db: Db, table: string, action: string, org: string,
                           data: Value, custom: Result<SyncResult, Thrown>): (SyncResult, Db)
  {
    if table !in handlers then (UnsupportedTableReply, db)
    else if !IsSynchronizationAction(action) then (InvalidActionReply, db)
    else ExecuteSpec(handlers[table], db, table, action, org, data, custom)
  }

  /**
   * `executeSynchronizationWithHandler`: build the handler of class `cls` and run it;
   * a failed construction or a throw comes back as the mapped failure.
   */
  function ExecuteSpec(cls: HandlerClass, db: Db, table: string, action: string, org: string, data: Value,
                       custom: Result<SyncResult, Thrown>): (SyncResult, Db)
  {
    if !Constructs(cls) then (MapPrismaError(NoHandler(table)), db)
    else
      var (r, db') := DispatchSpec(cls, db, action, org, data, custom);
      (Outcome(r), db')
  }

  /**
   * The table name is checked before the action, and a request failing either check
   * writes nothing.
   */
  lemma ValidationComesFirst(handlers: map<string, HandlerClass>, db: Db, table: string, action: string, org: string,
                             data: Value, custom: Result<SyncResult, Thrown>)
    ensures table !in handlers ==>
      SynchronizeSpec(handlers, db, table, action, org, data, custom) == (UnsupportedTableReply, db)
    ensures table in handlers && !IsSynchronizationAction(action) ==>
      SynchronizeSpec(handlers, db, table, action, org, data, custom) == (InvalidActionReply, db)
  {
  }

  /** A built-in handler class. */
  predicate BuiltIn(c: HandlerClass)
  {
    !c.Custom?
  }

  /**
   * The replies a request with a built-in handler can get: a success of status 200
   * without an error type, the not-found reply, a validation reply of status 400, or
   * a mapped throw.
   */
  predicate BuiltInReply(r: SyncResult)
  {
    (r.success && r.status == 200 && r.errorType.None?)
    || r == NotFound || r == UnsupportedTableReply || r == InvalidActionReply
    || (!r.success && r.errorType.None? && r.status in {400, 404, 409, 422, 500})
  }

  lemma {:induction false} BuiltInReplies(handlers: map<string, HandlerClass>, db: Db, table: string, action: string,
                                          org: string, data: Value, custom: Result<SyncResult, Thrown>)
    requires table in handlers ==> BuiltIn(handlers[table])
    ensures BuiltInReply(SynchronizeSpec(handlers, db, table, action, org, data, custom).0)
  {
    if table in handlers && IsSynchronizationAction(action) {
      ExecuteReplies(handlers[table], db, table, action, org, data, custom);
    }
  }

  lemma {:induction false} ExecuteReplies(cls: HandlerClass, db: Db, table: string, action: string,
                                          org: string, data: Value, custom: Result<SyncResult, Thrown>)
    requires BuiltIn(cls) && IsSynchronizationAction(action)
    ensures BuiltInReply(ExecuteSpec(cls, db, table, action, org, data, custom).0)
  {
    var r := DispatchSpec(cls, db, action, org, data, custom).0;
    match cls
    case SupplierInformation =>
      SupplierInformationHandler.HandleReplies(db.suppliers, action, org, data);
      assert HandlerReply(r);
    case PaymentAddress =>
      PaymentAddressHandler.HandleReplies(db.bankAddresses, action, org, data);
      assert HandlerReply(r);
    case SupplierDocumentTax =>
      SupplierDocumentTaxHandler.HandleReplies(db.suppliers, action, org, data);
      assert HandlerReply(r);
  }

  /**
   * A faulty table surfaces as the mapped failure of its fault and nothing is written
   * (the tax handler's delete, which touches no table, excepted).
   */
  lemma FaultIsMapped(handlers: map<string, HandlerClass>, db: Db, table: string, action: string, org: string,
                      data: Value, custom: Result<SyncResult, Thrown>)
    requires table in handlers && BuiltIn(handlers[table]) && IsSynchronizationAction(action) && Readable(data)
    requires handlers[table] == PaymentAddress ==> db.bankAddresses.fault.Some?
    requires handlers[table] != PaymentAddress ==> db.suppliers.fault.Some?
    requires handlers[table] == SupplierDocumentTax ==> action != "delete"
    ensures SynchronizeSpec(handlers, db, table, action, org, data, custom).1 == db
    ensures SynchronizeSpec(handlers, db, table, action, org, data, custom).0 ==
      MapPrismaError(if handlers[table] == PaymentAddress then db.bankAddresses.fault.value else db.suppliers.fault.value)
  {
    match handlers[table]
    case SupplierInformation =>
      SupplierInformationHandler.FaultyTableThrows(db.suppliers, action, org, data);
    case PaymentAddress =>
      PaymentAddressHandler.FaultyTableThrows(db.bankAddresses, action, org, data);
    case SupplierDocumentTax =>
      SupplierDocumentTaxHandler.FaultyTableThrows(db.suppliers, action, org, data);
  }

  /** Each built-in handler writes its own target table and leaves the other alone. */
  lemma HandlersWriteOnlyTheirTable(handlers: map<string, HandlerClass>, db: Db, table: string, action: string,
                                    org: string, data: Value, custom: Result<SyncResult, Thrown>)
    ensures table in handlers && handlers[table] == PaymentAddress ==>
      SynchronizeSpec(handlers, db, table, action, org, data, custom).1.suppliers == db.suppliers
    ensures table in handlers && handlers[table] != PaymentAddress ==>
      SynchronizeSpec(handlers, db, table, action, org, data, custom).1.bankAddresses == db.bankAddresses
  {
  }

  /** The service: its handler registry and the two tables the built-in handlers write. */
  class Service {
    const factory: Factory
    const suppliers: Table
    const bankAddresses: Table

    constructor (f: Factory, s: Table, b: Table)
      ensures factory == f && suppliers == s && bankAddresses == b
    {
      factory := f;
      suppliers := s;
      bankAddresses := b;
    }

    /**
     * `synchronizeIfsTableData`. The audit statement is built and logged after the
     * handler ran; a failure there is swallowed and does not change the reply.
     */
    method Synchronize(table: string, action: string, org: string, data: Value, custom: Result<SyncResult, Thrown>)
      returns (r: SyncResult)
      requires factory.Valid() && suppliers != bankAddresses
      modifies suppliers, bankAddresses
      ensures (r, Db(suppliers.State(), bankAddresses.State()))
        == SynchronizeSpec(factory.handlers, Db(old(suppliers.State()), old(bankAddresses.State())),
                           table, action, org, data, custom)
    {
      var supported := factory.IsSupported(table);
      if !supported {
        return UnsupportedTableReply;
      }
      if !IsSynchronizationAction(action) {
        return InvalidActionReply;
      }
      r := Execute(table, action, org, data, custom);
    }

    /** `executeSynchronizationWithHandler`, then the audit statement of a completed operation. */
    method Execute(table: string, action: string, org: string, data: Value, custom: Result<SyncResult, Thrown>)
      returns (r: SyncResult)
      requires table in factory.handlers && suppliers != bankAddresses
      modifies suppliers, bankAddresses
      ensures (r, Db(suppliers.State(), bankAddresses.State()))
        == ExecuteSpec(factory.handlers[table], Db(old(suppliers.State()), old(bankAddresses.State())),
                       table, action, org, data, custom)
    {
      var handler := factory.Create(table);
      if handler.None? {
        return MapPrismaError(NoHandler(table));
      }
      var outcome := Dispatch(handler.value, action, org, data, custom);
      if outcome.Ok? {
        var audit := AuditSql.BuildSqlStatement(table, action, org, data);
      }
      r := Outcome(outcome);
    }

    /** Runs the built handler of class `cls` on the table it writes. */
    method Dispatch(cls: HandlerClass, action: string, org: string, data: Value, custom: Result<SyncResult, Thrown>)
      returns (r: Result<SyncResult, Thrown>)
      requires suppliers != bankAddresses
      modifies suppliers, bankAddresses
      ensures (r, Db(suppliers.State(), bankAddresses.State()))
        == DispatchSpec(cls, Db(old(suppliers.State()), old(bankAddresses.State())), action, org, data, custom)
    {
      match cls {
        case SupplierInformation =>
          r := SupplierInformationHandler.Handle(action, org, data, suppliers);
        case PaymentAddress =>
          r := PaymentAddressHandler.Handle(action, org, data, bankAddresses);
        case SupplierDocumentTax =>
          r := SupplierDocumentTaxHandler.Handle(action, org, data, suppliers);
        case Custom(_, _) =>
          r := custom;
      }
    }

    /** `registerNewIfsTableSynchronizationHandler` */
    method RegisterHandler(name: string, cls: HandlerClass)
      requires factory.Valid()
      modifies factory
      ensures factory.Valid()
      ensures factory.handlers == old(factory.handlers)[name := cls]
      ensures factory.names == if name in old(factory.handlers) then old(factory.names) else old(factory.names) + [name]
    {
      factory.Register(name, cls);
    }
  }
}
