/**
 * `fixQuotesInDescription` of src/utilities/json-repair.ts: the replacement of
 * `"DESCRIPTION"\s*:\s*"([^"]*(?:"[^"]*)*[^"]*)"` (global) by
 * `"DESCRIPTION": "<content with its unescaped quotes escaped>"`.
 *
 * This pattern needs no oracle. Its content group matches any text, so the
 * engine's backtracking ends the content at the LAST `"` of the input, and a match
 * exists at a position exactly when the prefix matches there and some `"` follows
 * the prefix. After the first match no `"` is left, so the global search finds
 * nothing more.
 */
module DescriptionFix {
  import opened Wrappers
  import opened JsText
  import opened TextRepairs

  const FieldName: string := "\"DESCRIPTION\""

  /** The replacement's fixed head: the field name, `: ` and the opening quote. */
  const Head: string := "\"DESCRIPTION\": \""

  /**
   * Where `"DESCRIPTION"\s*:\s*"` matches at `q`: the index just after its opening
   * quote. White space can only be `\s`, so the first try at `q` decides.
   */
  function PrefixAt(s: string, q: nat): (r: Option<nat>)
    ensures r.Some? ==> q + |FieldName| < r.value <= |s| && s[r.value - 1] == '"'
  {
    if q + |FieldName| > |s| || s[q..q + |FieldName|] != FieldName then None
    else
      var a := SkipWhitespace(s, q + |FieldName|);
      if a == |s| || s[a] != ':' then None
      else
        var b := SkipWhitespace(s, a + 1);
        if b == |s| || s[b] != '"' then None else Some(b + 1)
  }

  /** The last `"` at or after `c`. */
  function LastQuoteFrom(s: string, c: nat): (r: Option<nat>)
    ensures r.Some? ==> c <= r.value < |s| && s[r.value] == '"'
    ensures r.Some? ==> forall k :: r.value < k < |s| ==> s[k] != '"'
    ensures r.None? ==> forall k :: c <= k < |s| ==> s[k] != '"'
    decreases |s| - c
  {
    if c >= |s| then None
    else match LastQuoteFrom(s, c + 1)
      case Some(l) => Some(l)
      case None => if s[c] == '"' then Some(c) else None
  }

  /** A match: it starts at `start`, its content is `s[contentStart..closing]`, the quote at `closing` ends it. */
  datatype DescriptionMatch = DescriptionMatch(start: nat, contentStart: nat, closing: nat)

  /** The leftmost match at or after `p`. */
  function FirstMatch(s: string, p: nat): (r: Option<DescriptionMatch>)
    ensures r.Some? ==> p <= r.value.start < r.value.contentStart <= r.value.closing < |s|
    ensures r.Some? ==> PrefixAt(s, r.value.start) == Some(r.value.contentStart)
    ensures r.Some? ==> LastQuoteFrom(s, r.value.contentStart) == Some(r.value.closing)
    decreases |s| - p
  {
    if p >= |s| then None
    else match PrefixAt(s, p)
      case Some(c) =>
        (match LastQuoteFrom(s, c)
         case Some(l) => Some(DescriptionMatch(p, c, l))
         case None => FirstMatch(s, p + 1))
      case None => FirstMatch(s, p + 1)
  }

  /** The quotes the callback's loop escapes: those not directly after a `\` of the content. */
  function DescriptionMarks(content: string): (m: seq<bool>)
    ensures QuoteMarks(content, m)
  {
    seq(|content|, i requires 0 <= i < |content| => content[i] == '"' && !(i > 0 && content[i - 1] == '\\'))
  }

  /** The callback's for-loop over the content. */
  method EscapeContent(content: string) returns (escaped: string)
    ensures escaped == EscapeQuotesAt(content, DescriptionMarks(content))
  {
    var marks := DescriptionMarks(content);
    escaped := "";
    var i := 0;
    while i < |content|
      invariant 0 <= i <= |content|
      invariant QuoteMarks(content[..i], marks[..i])
      invariant escaped == EscapeQuotesAt(content[..i], marks[..i])
    {
      var c := content[i];
      var piece: string;
      if c == '"' {
        if i > 0 && content[i - 1] == '\\' {
          piece := [c];
        } else {
          piece := "\\\"";
        }
      } else {
        piece := [c];
      }
      EscapeQuotesConcat(content[..i], marks[..i], [c], [marks[i]]);
      assert content[..i + 1] == content[..i] + [c];
      assert marks[..i + 1] == marks[..i] + [marks[i]];
      escaped := escaped + piece;
      i := i + 1;
    }
    assert content[..i] == content && marks[..i] == marks;
  }

  /** What the callback returns for a match whose content is `content`. */
  function Replacement(content: string): string
  {
    Head + EscapeQuotesAt(content, DescriptionMarks(content)) + "\""
  }

  function FixFrom(s: string, p: nat): string
    requires p <= |s|
    decreases |s| - p
  {
    match FirstMatch(s, p)
    case None => s[p..]
    case Some(m) => s[p..m.start] + Replacement(s[m.contentStart..m.closing]) + FixFrom(s, m.closing + 1)
  }

  function FixQuotesInDescription(s: string): string
  {
    FixFrom(s, 0)
  }

  /** Where no `"` is left, nothing matches. */
  lemma NoMatchWithoutQuotes(s: string, p: nat)
    requires forall k :: p <= k < |s| ==> s[k] != '"'
    ensures FirstMatch(s, p).None?
  {
  }

  /**
   * The fix rewrites at most one match: the text before it is kept, the field head
   * is written as `"DESCRIPTION": "`, the content runs to the last quote of the input,
   * and the text after that quote is kept. Without a match the input is returned.
   */
  lemma FixShape(s: string)
    ensures FirstMatch(s, 0).None? ==> FixQuotesInDescription(s) == s
    ensures FirstMatch(s, 0).Some? ==>
      var m := FirstMatch(s, 0).value;
      FixQuotesInDescription(s)
        == s[..m.start] + Replacement(s[m.contentStart..m.closing]) + s[m.closing + 1..]
  {
    match FirstMatch(s, 0)
    case None =>
      assert s[0..] == s;
    case Some(m) =>
      NoMatchWithoutQuotes(s, m.closing + 1);
      assert FixFrom(s, m.closing + 1) == s[m.closing + 1..];
      assert s[0..m.start] == s[..m.start];
  }

  /** Quotes of the escaped content: each one is preceded by a `\` (the first may rely on `leading`). */
  predicate QuotesEscaped(t: string, leading: bool)
  {
    (|t| > 0 && t[0] == '"' ==> leading) &&
    forall k :: 0 < k < |t| && t[k] == '"' ==> t[k - 1] == '\\'
  }

  /** Escaping every quote that is not already after a `\` leaves no bare quote behind. */
  lemma {:induction false} EscapeLeavesNoBareQuote(s: string, marks: seq<bool>, leading: bool)
    requires QuoteMarks(s, marks)
    requires |s| > 0 && s[0] == '"' && !marks[0] ==> leading
    requires forall i :: 0 < i < |s| && s[i] == '"' && !marks[i] ==> s[i - 1] == '\\'
    ensures QuotesEscaped(EscapeQuotesAt(s, marks), leading)
    decreases |s|
  {
    if s != [] {
      var head: string := if marks[0] then "\\\"" else [s[0]];
      var rest := EscapeQuotesAt(s[1..], marks[1..]);
      EscapeLeavesNoBareQuote(s[1..], marks[1..], s[0] == '\\');
      var u := head + rest;
      assert EscapeQuotesAt(s, marks) == u;
      forall k | 0 < k < |u| && u[k] == '"'
        ensures u[k - 1] == '\\'
      {
        if k >= |head| {
          var k' := k - |head|;
          assert rest[k'] == '"';
          if k' == 0 {
            if marks[0] {
              assert false;
            }
            assert u[k - 1] == s[0];
          } else {
            assert u[k - 1] == rest[k' - 1];
          }
        }
      }
    }
  }

  /** After the callback's loop every `"` of the content is preceded by `\`. */
  lemma ContentQuotesEscaped(content: string)
    ensures QuotesEscaped(EscapeQuotesAt(content, DescriptionMarks(content)), false)
  {
    EscapeLeavesNoBareQuote(content, DescriptionMarks(content), false);
  }
}
