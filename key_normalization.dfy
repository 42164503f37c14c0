/**
 * The payload shaping of src/modules/ifs-sync/services/ifs-sync.service.ts:
 * `normalizeKeys` (object keys lower-cased, recursively), `mapPaymentFields`
 * (two payment fields renamed) and `filterValidFields` (only the model's columns kept).
 */
module KeyNormalization {
  import opened Wrappers
  import opened JsText
  import opened JsValues

  // ---------------------------------------------------------------------------
  // normalizeKeys
  // ---------------------------------------------------------------------------

  /**
   * `normalizeKeys`: `null`, `undefined`, primitives and dates are returned as they
   * are, arrays element by element, and objects entry by entry, with lower-cased keys.
   */
  function NormalizeKeys(v: Value): Value
    decreases v, 1, 0
  {
    match v
    case Arr(items) => Arr(NormalizeItems(items))
    case Obj(es) => Obj(NormalizeEntries(es, 0, []))
    case _ => v
  }

  function NormalizeItems(items: seq<Value>): (r: seq<Value>)
    ensures |r| == |items|
    decreases items
  {
    if items == [] then [] else [NormalizeKeys(items[0])] + NormalizeItems(items[1..])
  }

  /**
   * The `for` loop over the entries from position `i` on, continued from the object
   * built so far: `normalizedData[key.toLowerCase()] = normalizeKeys(value)`.
   */
  function NormalizeEntries(es: Entries, i: nat, acc: Entries): Entries
    requires i <= |es|
    decreases Obj(es), 0, |es| - i
  {
    if i == |es| then acc
    else
      assert es[i] in es;
      NormalizeEntries(es, i + 1, Put(acc, ToLower(es[i].0), NormalizeKeys(es[i].1)))
  }

  /** The value of the last entry whose key lower-cases to `k`. */
  function LastWithLowerKey(es: Entries, k: string): (r: Option<Value>)
    ensures r.Some? ==> exists i :: 0 <= i < |es| && ToLower(es[i].0) == k && es[i].1 == r.value
  {
    if es == [] then None
    else
      var rest := LastWithLowerKey(es[1..], k);
      if rest.Some? then
        assert exists i :: 0 <= i < |es[1..]| && ToLower(es[1..][i].0) == k && es[1..][i].1 == rest.value;
        var i :| 0 <= i < |es[1..]| && ToLower(es[1..][i].0) == k && es[1..][i].1 == rest.value;
        assert es[i + 1] == es[1..][i];
        rest
      else if ToLower(es[0].0) == k then Some(es[0].1)
      else None
  }

  /**
   * Keys that lower-case to the same text collapse into one entry holding the
   * LAST such entry's (normalised) value.
   */
  lemma {:induction false} NormalizeEntriesLookup(es: Entries, i: nat, acc: Entries, k: string)
    requires i <= |es|
    ensures Lookup(NormalizeEntries(es, i, acc), k) ==
      match LastWithLowerKey(es[i..], k)
      case Some(v) => Some(NormalizeKeys(v))
      case None => Lookup(acc, k)
    decreases |es| - i
  {
    if i < |es| {
      assert es[i..][0] == es[i] && es[i..][1..] == es[i + 1..];
      NormalizeEntriesLookup(es, i + 1, Put(acc, ToLower(es[i].0), NormalizeKeys(es[i].1)), k);
    }
  }

  /**
   * Keys that lower-case to the same text collapse into one entry holding the LAST
   * such entry's normalised value; a key no entry lower-cases to is absent.
   */
  lemma NormalizeKeysLookup(es: Entries, k: string)
    ensures Lookup(NormalizeKeys(Obj(es)).entries, k) ==
      match LastWithLowerKey(es, k)
      case Some(v) => Some(NormalizeKeys(v))
      case None => None
  {
    NormalizeEntriesLookup(es, 0, [], k);
    assert es[0..] == es;
  }

  /** Every object key, at any depth, is lower case. */
  predicate LowerKeys(v: Value)
    decreases v
  {
    match v
    case Arr(items) => forall i :: 0 <= i < |items| ==> LowerKeys(items[i])
    case Obj(es) => forall i :: 0 <= i < |es| ==> IsLowerCase(es[i].0) && LowerKeys(es[i].1)
    case _ => true
  }

  /** Every key of the entries is lower case, and so is every key inside their values. */
  predicate LowerEntries(es: Entries)
  {
    forall j :: 0 <= j < |es| ==> IsLowerCase(es[j].0) && LowerKeys(es[j].1)
  }

  lemma {:induction false} NormalizeItemsLower(items: seq<Value>)
    ensures forall i :: 0 <= i < |items| ==> NormalizeItems(items)[i] == NormalizeKeys(items[i])
    ensures forall i :: 0 <= i < |items| ==> LowerKeys(NormalizeItems(items)[i])
    decreases items
  {
    if items != [] {
      NormalizeLowersKeys(items[0]);
      NormalizeItemsLower(items[1..]);
      assert forall i :: 1 <= i < |items| ==> NormalizeItems(items)[i] == NormalizeItems(items[1..])[i - 1];
      assert forall i :: 1 <= i < |items| ==> items[i] == items[1..][i - 1];
    }
  }

  lemma {:induction false} NormalizeEntriesLower(es: Entries, i: nat, acc: Entries)
    requires i <= |es|
    requires LowerEntries(acc)
    ensures LowerEntries(NormalizeEntries(es, i, acc))
    decreases Obj(es), 0, |es| - i
  {
    if i < |es| {
      assert es[i] in es;
      var k := ToLower(es[i].0);
      var v := NormalizeKeys(es[i].1);
      NormalizeLowersKeys(es[i].1);
      PutLower(acc, k, v);
      NormalizeEntriesLower(es, i + 1, Put(acc, k, v));
    }
  }

  lemma {:induction false} NormalizeEntriesUnique(es: Entries, i: nat, acc: Entries)
    requires i <= |es|
    requires UniqueKeys(acc)
    ensures UniqueKeys(NormalizeEntries(es, i, acc))
    decreases |es| - i
  {
    if i < |es| {
      var k := ToLower(es[i].0);
      var v := NormalizeKeys(es[i].1);
      PutKeepsKeysUnique(acc, k, v);
      NormalizeEntriesUnique(es, i + 1, Put(acc, k, v));
    }
  }

  lemma {:induction false} PutLower(acc: Entries, k: string, v: Value)
    requires IsLowerCase(k) && LowerKeys(v)
    requires LowerEntries(acc)
    ensures LowerEntries(Put(acc, k, v))
  {
    if acc != [] && acc[0].0 != k {
      PutLower(acc[1..], k, v);
      var r := Put(acc, k, v);
      assert forall i :: 1 <= i < |r| ==> r[i] == Put(acc[1..], k, v)[i - 1];
    }
  }

  /** The result has lower-case keys at every depth, and each object keeps its keys unique. */
  lemma {:induction false} NormalizeLowersKeys(v: Value)
    ensures LowerKeys(NormalizeKeys(v))
    ensures NormalizeKeys(v).Obj? ==> UniqueKeys(NormalizeKeys(v).entries)
    decreases v, 1, 0
  {
    match v
    case Arr(items) =>
      NormalizeItemsLower(items);
    case Obj(es) =>
      NormalizeEntriesLower(es, 0, []);
      NormalizeEntriesUnique(es, 0, []);
      assert NormalizeKeys(v) == Obj(NormalizeEntries(es, 0, []));
    case _ =>
  }

  // ---------------------------------------------------------------------------
  // mapPaymentFields
  // ---------------------------------------------------------------------------

  /** `if (d[from] !== undefined) { d[to] = d[from]; delete d[from]; }` */
  function Rename(es: Entries, from: string, to: string): Entries
  {
    match Lookup(es, from)
    case Some(v) => if v == Undefined then es else Remove(Put(es, to, v), from)
    case None => es
  }

  /** `mapPaymentFields`: `supplier_name` becomes `data10` and `bank_name` becomes `description`. */
  function MapPaymentFields(es: Entries): Entries
  {
    Rename(Rename(es, "supplier_name", "data10"), "bank_name", "description")
  }

  /**
   * A defined field is moved under its new name and is gone under the old one; an
   * absent or `undefined` one changes nothing; every other key keeps its value.
   */
  lemma RenameMoves(es: Entries, from: string, to: string)
    requires from != to
    ensures Lookup(es, from).Some? && Lookup(es, from).value != Undefined ==>
      Lookup(Rename(es, from, to), to) == Lookup(es, from) && Lookup(Rename(es, from, to), from) == None
    ensures !(Lookup(es, from).Some? && Lookup(es, from).value != Undefined) ==> Rename(es, from, to) == es
    ensures forall k :: k != from && k != to ==> Lookup(Rename(es, from, to), k) == Lookup(es, k)
    ensures UniqueKeys(es) ==> UniqueKeys(Rename(es, from, to))
  {
    if Lookup(es, from).Some? && Lookup(es, from).value != Undefined && UniqueKeys(es) {
      PutKeepsKeysUnique(es, to, Lookup(es, from).value);
    }
  }

  /** After the mapping neither old name holds a defined value. */
  lemma MapPaymentFieldsDropsOldNames(es: Entries)
    ensures Lookup(MapPaymentFields(es), "supplier_name").None? || Lookup(MapPaymentFields(es), "supplier_name") == Some(Undefined)
    ensures Lookup(MapPaymentFields(es), "bank_name").None? || Lookup(MapPaymentFields(es), "bank_name") == Some(Undefined)
  {
    var mid := Rename(es, "supplier_name", "data10");
    RenameMoves(es, "supplier_name", "data10");
    RenameMoves(mid, "bank_name", "description");
    assert Lookup(MapPaymentFields(es), "supplier_name") == Lookup(mid, "supplier_name");
  }

  /** Each defined old field has moved to its new name, with its value. */
  lemma MapPaymentFieldsMovesValues(es: Entries)
    ensures Lookup(es, "supplier_name").Some? && Lookup(es, "supplier_name").value != Undefined ==>
      Lookup(MapPaymentFields(es), "data10") == Lookup(es, "supplier_name")
    ensures Lookup(es, "bank_name").Some? && Lookup(es, "bank_name").value != Undefined ==>
      Lookup(MapPaymentFields(es), "description") == Lookup(es, "bank_name")
  {
    var mid := Rename(es, "supplier_name", "data10");
    RenameMoves(es, "supplier_name", "data10");
    RenameMoves(mid, "bank_name", "description");
    assert Lookup(mid, "bank_name") == Lookup(es, "bank_name");
    assert Lookup(MapPaymentFields(es), "data10") == Lookup(mid, "data10");
  }

  /** The fields the mapping does not name keep their values. */
  lemma MapPaymentFieldsKeepsOthers(es: Entries, k: string)
    requires k != "supplier_name" && k != "data10" && k != "bank_name" && k != "description"
    ensures Lookup(MapPaymentFields(es), k) == Lookup(es, k)
  {
    RenameMoves(es, "supplier_name", "data10");
    RenameMoves(Rename(es, "supplier_name", "data10"), "bank_name", "description");
  }

  // ---------------------------------------------------------------------------
  // filterValidFields
  // ---------------------------------------------------------------------------

  /** The `for` loop of `filterValidFields`, continued from the object built so far. */
  function FilterEntries(es: Entries, valid: seq<string>, acc: Entries): Entries
    decreases es
  {
    if es == [] then acc
    else FilterEntries(es[1..], valid, if es[0].0 in valid then Put(acc, es[0].0, es[0].1) else acc)
  }

  /** `filterValidFields` with the model's column names `valid`. */
  function FilterValidFields(es: Entries, valid: seq<string>): Entries
  {
    FilterEntries(es, valid, [])
  }

  lemma {:induction false} FilterEntriesLookup(es: Entries, valid: seq<string>, acc: Entries, k: string)
    requires UniqueKeys(es)
    requires k in Keys(es) ==> Lookup(acc, k).None?
    ensures Lookup(FilterEntries(es, valid, acc), k) ==
      if k in valid && k in Keys(es) then Lookup(es, k) else Lookup(acc, k)
    decreases es
  {
    if es != [] {
      var acc' := if es[0].0 in valid then Put(acc, es[0].0, es[0].1) else acc;
      assert UniqueKeys(es[1..]) by {
        forall i, j | 0 <= i < j < |es[1..]| ensures es[1..][i].0 != es[1..][j].0 {
          assert es[1..][i] == es[i + 1] && es[1..][j] == es[j + 1];
        }
      }
      if k == es[0].0 {
        assert k !in Keys(es[1..]) by {
          forall i | 0 <= i < |es[1..]| ensures Keys(es[1..])[i] != k {
            assert es[1..][i] == es[i + 1];
          }
        }
      }
      assert Keys(es) == [es[0].0] + Keys(es[1..]);
      FilterEntriesLookup(es[1..], valid, acc', k);
    }
  }

  /** A field survives exactly when the model has a column of that name, and keeps its value. */
  lemma FilterKeepsValidFields(es: Entries, valid: seq<string>, k: string)
    requires UniqueKeys(es)
    ensures Lookup(FilterValidFields(es, valid), k) == if k in valid then Lookup(es, k) else None
  {
    FilterEntriesLookup(es, valid, [], k);
  }

  /** The filtering loop. */
  method FilterValidFieldsLoop(es: Entries, valid: seq<string>) returns (r: Entries)
    ensures r == FilterValidFields(es, valid)
  {
    r := [];
    var i := 0;
    while i < |es|
      invariant 0 <= i <= |es|
      invariant FilterEntries(es[i..], valid, r) == FilterValidFields(es, valid)
    {
      assert es[i..][1..] == es[i + 1..];
      if es[i].0 in valid {
        r := Put(r, es[i].0, es[i].1);
      }
      i := i + 1;
    }
  }

  /** `normalizeKeys`, recursive like the source, with its loop over the entries. */
  method Normalize(v: Value) returns (r: Value)
    ensures r == NormalizeKeys(v)
    decreases v
  {
    match v {
      case Arr(items) =>
        var out := [];
        var i := 0;
        while i < |items|
          invariant 0 <= i <= |items|
          invariant out + NormalizeItems(items[i..]) == NormalizeItems(items)
        {
          assert items[i..][1..] == items[i + 1..];
          var x := Normalize(items[i]);
          out := out + [x];
          i := i + 1;
        }
        r := Arr(out);
      case Obj(es) =>
        var acc := [];
        var i := 0;
        while i < |es|
          invariant 0 <= i <= |es|
          invariant NormalizeEntries(es, i, acc) == NormalizeEntries(es, 0, [])
        {
          assert es[i] in es;
          var x := Normalize(es[i].1);
          acc := Put(acc, ToLower(es[i].0), x);
          i := i + 1;
        }
        r := Obj(acc);
      case _ =>
        r := v;
    }
  }
}
