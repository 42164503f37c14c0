/**
 * src/services/ifs-table-synchronization-handler-factory.ts: the registry of
 * table handler classes, keyed by IFS table name, in registration order.
 */
module HandlerFactory {
  import opened Wrappers
  import SupplierInformationHandler
  import PaymentAddressHandler
  import SupplierDocumentTaxHandler

  /**
   * A registered handler class: one of the three built-in handlers, or a class
   * registered later, whose constructor may throw.
   */
  datatype HandlerClass =
    | SupplierInformation
    | PaymentAddress
    | SupplierDocumentTax
    | Custom(id: string, throwsOnConstruction: bool)

  /** `new HandlerConstructor(prisma)` succeeds. */
  predicate Constructs(c: HandlerClass)
  {
    !(c.Custom? && c.throwsOnConstruction)
  }

  /** No name occurs twice. */
  predicate Distinct(names: seq<string>)
  {
    forall i, j :: 0 <= i < j < |names| ==> names[i] != names[j]
  }

  /** A sequence without repeats has as many elements as the set of its elements. */
  lemma {:induction false} DistinctCardinality(names: seq<string>)
    requires Distinct(names)
    ensures |set n | n in names| == |names|
  {
    if names != [] {
      DistinctCardinality(names[1..]);
      assert (set n | n in names) == {names[0]} + (set n | n in names[1..]);
      assert names[0] !in names[1..] by {
        forall k | 0 <= k < |names[1..]| ensures names[1..][k] != names[0] {
          assert names[1..][k] == names[k + 1];
        }
      }
    }
  }

  /** The default registrations, in the order the constructor makes them. */
  const DefaultNames: seq<string> :=
    [SupplierInformationHandler.IfsTableName, PaymentAddressHandler.IfsTableName, SupplierDocumentTaxHandler.IfsTableName]

  class Factory {
    /** The keys of the `Map`, in insertion order. */
    var names: seq<string>
    var handlers: map<string, HandlerClass>

    /** The order list and the map hold the same names, each once. */
    ghost predicate Valid()
      reads this
    {
      Distinct(names) && (forall n :: n in handlers <==> n in names)
    }

    /** `registerDefaultIfsTableSynchronizationHandlers`, run by the constructor. */
    constructor ()
      ensures Valid()
      ensures names == DefaultNames
      ensures handlers == map[
        "supplier_info_tab" := SupplierInformation,
        "payment_address_tab" := PaymentAddress,
        "supplier_document_tax_info_tab" := SupplierDocumentTax]
    {
      names := [];
      handlers := map[];
      new;
      Register("supplier_info_tab", SupplierInformation);
      Register("payment_address_tab", PaymentAddress);
      Register("supplier_document_tax_info_tab", SupplierDocumentTax);
    }

    /**
     * `registerNewTableSynchronizationHandler`: a new name is appended; an existing
     * name keeps its place and gets the new class.
     */
    method Register(name: string, cls: HandlerClass)
      requires Valid()
      modifies this
      ensures Valid()
      ensures handlers == old(handlers)[name := cls]
      ensures names == if name in old(handlers) then old(names) else old(names) + [name]
    {
      if name !in handlers {
        names := names + [name];
      }
      handlers := handlers[name := cls];
    }

    /**
     * `createTableSynchronizationHandler`: the registered class when its constructor
     * succeeds; `null` for an unknown name or a constructor that throws.
     */
    method Create(name: string) returns (h: Option<HandlerClass>)
      ensures h.Some? <==> name in handlers && Constructs(handlers[name])
      ensures h.Some? ==> h.value == handlers[name]
    {
      if name !in handlers {
        return None;
      }
      var cls := handlers[name];
      if !Constructs(cls) {
        return None;
      }
      h := Some(cls);
    }

    /** `isIfsTableSynchronizationSupported` */
    method IsSupported(name: string) returns (b: bool)
      requires Valid()
      ensures b <==> name in handlers
    {
      b := name in names;
    }

    /** `getAllSupportedIfsTableNames`: every registered name, once each, in first-registration order. */
    method Names() returns (ns: seq<string>)
      requires Valid()
      ensures ns == names
      ensures Distinct(ns)
      ensures forall n :: n in ns <==> n in handlers
    {
      ns := names;
    }

    /** `getNumberOfRegisteredHandlers`: the size of the map. */
    method Count() returns (n: nat)
      requires Valid()
      ensures n == |handlers.Keys|
    {
      DistinctCardinality(names);
      assert handlers.Keys == set n | n in names;
      n := |names|;
    }
  }

  /**
   * A freshly built factory lists the three built-in tables in the order the
   * constructor registers them, and a table registered afterwards comes last.
   */
  method FreshFactoryNames(extra: string) returns (before: seq<string>, after: seq<string>)
    ensures before == ["supplier_info_tab", "payment_address_tab", "supplier_document_tax_info_tab"]
    ensures extra in before ==> after == before
    ensures extra !in before ==> after == before + [extra]
  {
    var f := new Factory();
    before := f.Names();
    f.Register(extra, SupplierInformation);
    after := f.Names();
  }
}
