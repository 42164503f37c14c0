/**
 * JavaScript values as the request path sees them: the JSON tree produced by
 * `JSON.parse`, plus `undefined` and `Date`, which the service adds itself.
 * An object is its list of own enumerable entries in insertion order.
 */
module JsValues {
  import opened Wrappers
  import opened JsText

  datatype Value =
    | Undefined
    | Null
    | Bool(b: bool)
    | Num(text: string)          // a number, carried as its JavaScript `String(n)` text
    | Str(s: string)
    | Date(text: string)         // a `Date`; its text is what `String(d)` gives
    | Arr(items: seq<Value>)
    | Obj(entries: seq<(string, Value)>)

  type Entries = seq<(string, Value)>

  function Keys(es: Entries): (ks: seq<string>)
    ensures |ks| == |es|
    ensures forall i :: 0 <= i < |es| ==> ks[i] == es[i].0
  {
    if es == [] then [] else [es[0].0] + Keys(es[1..])
  }

  function Values(es: Entries): (vs: seq<Value>)
    ensures |vs| == |es|
    ensures forall i :: 0 <= i < |es| ==> vs[i] == es[i].1
  {
    if es == [] then [] else [es[0].1] + Values(es[1..])
  }

  /** No key occurs twice, as in every JavaScript object. */
  predicate UniqueKeys(es: Entries)
  {
    forall i, j :: 0 <= i < j < |es| ==> es[i].0 != es[j].0
  }

  /** `obj[k]` on an object's entries; `None` plays `undefined` for a missing key. */
  function Lookup(es: Entries, k: string): (r: Option<Value>)
    ensures r.None? <==> k !in Keys(es)
    ensures r.Some? ==> (k, r.value) in es
  {
    if es == [] then None
    else if es[0].0 == k then Some(es[0].1)
    else Lookup(es[1..], k)
  }

  /** Property access `v.k`: `undefined` unless `v` is an object holding `k`. */
  function Get(v: Value, k: string): (r: Value)
    ensures !v.Obj? ==> r == Undefined
  {
    match v
    case Obj(es) => (match Lookup(es, k) case Some(x) => x case None => Undefined)
    case _ => Undefined
  }

  /** `obj[k] = v`: an existing key keeps its place, a new key goes last. */
  function Put(es: Entries, k: string, v: Value): (r: Entries)
    ensures Lookup(r, k) == Some(v)
    ensures forall k' :: k' != k ==> Lookup(r, k') == Lookup(es, k')
  {
    if es == [] then [(k, v)]
    else if es[0].0 == k then [(k, v)] + es[1..]
    else [es[0]] + Put(es[1..], k, v)
  }

  /** Assigning keeps the key order: an existing key stays in place, a new one is appended. */
  lemma {:induction false} PutKeys(es: Entries, k: string, v: Value)
    ensures Keys(Put(es, k, v)) == if k in Keys(es) then Keys(es) else Keys(es) + [k]
  {
    if es != [] && es[0].0 != k {
      PutKeys(es[1..], k, v);
      assert Keys(es) == [es[0].0] + Keys(es[1..]);
      assert Keys(Put(es, k, v)) == [es[0].0] + Keys(Put(es[1..], k, v));
    }
  }

  lemma PutKeepsKeysUnique(es: Entries, k: string, v: Value)
    requires UniqueKeys(es)
    ensures UniqueKeys(Put(es, k, v))
  {
    var r := Put(es, k, v);
    PutKeys(es, k, v);
    forall i, j | 0 <= i < j < |r| ensures r[i].0 != r[j].0 {
      assert Keys(r)[i] == r[i].0 && Keys(r)[j] == r[j].0;
      assert Keys(es) == Keys(es[..]);
      if k !in Keys(es) {
        if j < |es| {
          assert Keys(es)[i] == es[i].0 && Keys(es)[j] == es[j].0;
        }
      } else {
        assert Keys(es)[i] == es[i].0 && Keys(es)[j] == es[j].0;
      }
    }
  }

  /** `delete obj[k]`. */
  function Remove(es: Entries, k: string): (r: Entries)
    ensures Lookup(r, k) == None
    ensures forall k' :: k' != k ==> Lookup(r, k') == Lookup(es, k')
    ensures forall e :: e in r <==> e in es && e.0 != k
    ensures UniqueKeys(es) ==> UniqueKeys(r)
  {
    if es == [] then []
    else if es[0].0 == k then Remove(es[1..], k)
    else [es[0]] + Remove(es[1..], k)
  }

  function Join(parts: seq<string>, sep: string): (r: string)
    ensures parts == [] ==> r == ""
    ensures |parts| == 1 ==> r == parts[0]
  {
    if parts == [] then ""
    else if |parts| == 1 then parts[0]
    else parts[0] + sep + Join(parts[1..], sep)
  }

  /** `String(v)`, as a template literal `${v}` renders it. */
  function ToJsString(v: Value): string
  {
    match v
    case Undefined => "undefined"
    case Null => "null"
    case Bool(b) => if b then "true" else "false"
    case Num(t) => t
    case Str(s) => s
    case Date(t) => t
    case Arr(items) => Join(ArrayElementTexts(items), ",")
    case Obj(_) => "[object Object]"
  }

  /** `Array.prototype.join` renders `null` and `undefined` elements as empty text. */
  function ArrayElementTexts(items: seq<Value>): (ts: seq<string>)
    ensures |ts| == |items|
    decreases items
  {
    if items == [] then []
    else
      [if items[0].Null? || items[0].Undefined? then "" else ToJsString(items[0])]
      + ArrayElementTexts(items[1..])
  }
}
