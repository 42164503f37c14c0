/**
 * `s.replace(re, (m, prefix, content, suffix) => ...)` for the three quote-fixing
 * regular expressions whose backtracking is not modelled (the fallback of
 * `fixUnescapedQuotes` in src/utilities/json-repair.ts and both patterns of
 * `fixUnescapedQuotesAdvanced` in src/common/utils/json-repair.util.ts).
 *
 * Where the engine finds its matches is a parameter, a `Matcher` returning the
 * matches of a global search as spans, left to right. What is done with each match
 * is modelled exactly: when the callback's condition holds for the content, every
 * `"` of the content is written as `\"` and prefix and suffix are kept; otherwise
 * the whole match is kept.
 */
module RegexPasses {
  import opened JsText
  import opened TextRepairs

  /** One match: prefix `s[start..contentStart]`, content up to `contentEnd`, suffix up to `end`. */
  datatype Span = Span(start: nat, contentStart: nat, contentEnd: nat, end: nat)

  /** The matches a regular expression engine reports for a global search of a text. */
  type Matcher = string -> seq<Span>

  /** A span that lies inside `s` and does not start before `p`. */
  predicate Fits(s: string, p: nat, sp: Span)
  {
    p <= sp.start <= sp.contentStart <= sp.contentEnd <= sp.end <= |s|
  }

  /** `content.replace(/"/g, '\\"')` */
  function EscapeAllQuotes(t: string): string
  {
    ReplaceAll(t, "\"", "\\\"")
  }

  /** The condition of the callbacks of src/utilities/json-repair.ts:176-186 and of the second pattern of src/common/utils/json-repair.util.ts: the content holds a `"`. */
  predicate HasQuote(content: string)
  {
    '"' in content
  }

  /** Every `"` of `t` is marked. */
  function AllQuotes(t: string): (m: seq<bool>)
    ensures QuoteMarks(t, m)
  {
    seq(|t|, i requires 0 <= i < |t| => t[i] == '"')
  }

  function NoMarks(n: nat): (m: seq<bool>)
    ensures |m| == n && forall i :: 0 <= i < n ==> !m[i]
  {
    seq(n, i => false)
  }

  /** Escaping every quote of a content is the quote escaping that marks all of them. */
  lemma {:induction false} EscapeAllQuotesMarksAll(t: string)
    ensures EscapeAllQuotes(t) == EscapeQuotesAt(t, AllQuotes(t))
    decreases |t|
  {
    if t != [] {
      EscapeAllQuotesMarksAll(t[1..]);
      assert AllQuotes(t)[1..] == AllQuotes(t[1..]);
      assert t[..1] == [t[0]];
    }
  }

  /** With no mark set, escaping changes nothing. */
  lemma {:induction false} EscapeNothing(t: string)
    ensures QuoteMarks(t, NoMarks(|t|))
    ensures EscapeQuotesAt(t, NoMarks(|t|)) == t
    decreases |t|
  {
    if t != [] {
      EscapeNothing(t[1..]);
      assert NoMarks(|t|)[1..] == NoMarks(|t| - 1);
    }
  }

  /** The callback: escape the content's quotes when `rewrite` accepts the content, else keep the match. */
  function MatchOutput(s: string, sp: Span, rewrite: string -> bool): string
    requires sp.start <= sp.contentStart <= sp.contentEnd <= sp.end <= |s|
  {
    var content := s[sp.contentStart..sp.contentEnd];
    if rewrite(content) then s[sp.start..sp.contentStart] + EscapeAllQuotes(content) + s[sp.contentEnd..sp.end]
    else s[sp.start..sp.end]
  }

  /** Result of the replacement on `s[p..]`; spans that overlap an earlier one or leave `s` are skipped. */
  function ReplaceMatches(s: string, spans: seq<Span>, p: nat, rewrite: string -> bool): string
    requires p <= |s|
    decreases |spans|
  {
    if spans == [] then s[p..]
    else if Fits(s, p, spans[0]) then
      s[p..spans[0].start] + MatchOutput(s, spans[0], rewrite) + ReplaceMatches(s, spans[1..], spans[0].end, rewrite)
    else ReplaceMatches(s, spans[1..], p, rewrite)
  }

  /** `s.replace(re, callback)` with the engine's matches supplied by `matcher`. */
  function RegexReplace(s: string, matcher: Matcher, rewrite: string -> bool): string
  {
    ReplaceMatches(s, matcher(s), 0, rewrite)
  }

  /** The quotes of `s[sp.start..sp.end]` that the callback escapes. */
  function MatchMarks(s: string, sp: Span, rewrite: string -> bool): (m: seq<bool>)
    requires sp.start <= sp.contentStart <= sp.contentEnd <= sp.end <= |s|
    ensures QuoteMarks(s[sp.start..sp.end], m)
  {
    var content := s[sp.contentStart..sp.contentEnd];
    if rewrite(content) then
      NoMarks(sp.contentStart - sp.start) + AllQuotes(content) + NoMarks(sp.end - sp.contentEnd)
    else NoMarks(sp.end - sp.start)
  }

  /** The quotes of `s[p..]` that the replacement escapes. */
  function ReplaceMarks(s: string, spans: seq<Span>, p: nat, rewrite: string -> bool): (m: seq<bool>)
    requires p <= |s|
    ensures |m| == |s| - p
    decreases |spans|
  {
    if spans == [] then NoMarks(|s| - p)
    else if Fits(s, p, spans[0]) then
      NoMarks(spans[0].start - p) + MatchMarks(s, spans[0], rewrite) + ReplaceMarks(s, spans[1..], spans[0].end, rewrite)
    else ReplaceMarks(s, spans[1..], p, rewrite)
  }

  lemma MatchOutputEscapes(s: string, sp: Span, rewrite: string -> bool)
    requires sp.start <= sp.contentStart <= sp.contentEnd <= sp.end <= |s|
    ensures MatchOutput(s, sp, rewrite) == EscapeQuotesAt(s[sp.start..sp.end], MatchMarks(s, sp, rewrite))
  {
    var a, b, c := s[sp.start..sp.contentStart], s[sp.contentStart..sp.contentEnd], s[sp.contentEnd..sp.end];
    assert s[sp.start..sp.end] == a + b + c;
    if rewrite(b) {
      EscapeMiddle(a, b, c);
    } else {
      EscapeNothing(a + b + c);
    }
  }

  /** Escaping every quote of the middle piece only. */
  lemma EscapeMiddle(a: string, b: string, c: string)
    ensures a + EscapeAllQuotes(b) + c == EscapeQuotesAt(a + b + c, NoMarks(|a|) + AllQuotes(b) + NoMarks(|c|))
  {
    EscapeNothing(a);
    EscapeNothing(c);
    EscapeAllQuotesMarksAll(b);
    EscapeQuotesConcat(a, NoMarks(|a|), b, AllQuotes(b));
    EscapeQuotesConcat(a + b, NoMarks(|a|) + AllQuotes(b), c, NoMarks(|c|));
  }

  /** One fitting match followed by the rest: the marks and the outputs line up piece by piece. */
  lemma MatchStepEscapes(s: string, p: nat, sp: Span, rewrite: string -> bool, restMarks: seq<bool>, restOut: string)
    requires Fits(s, p, sp)
    requires QuoteMarks(s[sp.end..], restMarks) && restOut == EscapeQuotesAt(s[sp.end..], restMarks)
    ensures QuoteMarks(s[p..], NoMarks(sp.start - p) + MatchMarks(s, sp, rewrite) + restMarks)
    ensures s[p..sp.start] + MatchOutput(s, sp, rewrite) + restOut
         == EscapeQuotesAt(s[p..], NoMarks(sp.start - p) + MatchMarks(s, sp, rewrite) + restMarks)
  {
    var gap, matched := s[p..sp.start], s[sp.start..sp.end];
    assert s[p..] == gap + matched + s[sp.end..];
    EscapeNothing(gap);
    MatchOutputEscapes(s, sp, rewrite);
    EscapeQuotesConcat(gap, NoMarks(|gap|), matched, MatchMarks(s, sp, rewrite));
    EscapeQuotesConcat(gap + matched, NoMarks(|gap|) + MatchMarks(s, sp, rewrite), s[sp.end..], restMarks);
  }

  /** A replacement pass only writes `\` in front of some `"` characters of its input. */
  lemma {:induction false} ReplaceMatchesEscapes(s: string, spans: seq<Span>, p: nat, rewrite: string -> bool)
    requires p <= |s|
    ensures QuoteMarks(s[p..], ReplaceMarks(s, spans, p, rewrite))
    ensures ReplaceMatches(s, spans, p, rewrite) == EscapeQuotesAt(s[p..], ReplaceMarks(s, spans, p, rewrite))
    decreases |spans|
  {
    if spans == [] {
      EscapeNothing(s[p..]);
    } else if Fits(s, p, spans[0]) {
      ReplaceMatchesEscapes(s, spans[1..], spans[0].end, rewrite);
      MatchStepEscapes(s, p, spans[0], rewrite,
        ReplaceMarks(s, spans[1..], spans[0].end, rewrite), ReplaceMatches(s, spans[1..], spans[0].end, rewrite));
    } else {
      ReplaceMatchesEscapes(s, spans[1..], p, rewrite);
    }
  }

  /** The quotes of `s` that `RegexReplace` escapes. */
  function RegexMarks(s: string, matcher: Matcher, rewrite: string -> bool): (m: seq<bool>)
    ensures |m| == |s|
  {
    ReplaceMarks(s, matcher(s), 0, rewrite)
  }

  lemma RegexReplaceEscapes(s: string, matcher: Matcher, rewrite: string -> bool)
    ensures QuoteMarks(s, RegexMarks(s, matcher, rewrite))
    ensures RegexReplace(s, matcher, rewrite) == EscapeQuotesAt(s, RegexMarks(s, matcher, rewrite))
  {
    ReplaceMatchesEscapes(s, matcher(s), 0, rewrite);
    assert s[0..] == s;
  }

  /** When the callback declines every match, the replacement gives back its input. */
  lemma {:induction false} ReplaceMatchesDeclined(s: string, spans: seq<Span>, p: nat, rewrite: string -> bool)
    requires p <= |s|
    requires forall k :: 0 <= k < |spans| && spans[k].contentStart <= spans[k].contentEnd <= |s| ==>
      !rewrite(s[spans[k].contentStart..spans[k].contentEnd])
    ensures ReplaceMatches(s, spans, p, rewrite) == s[p..]
    decreases |spans|
  {
    if spans != [] {
      assert forall k :: 0 <= k < |spans[1..]| ==> spans[1..][k] == spans[k + 1];
      if Fits(s, p, spans[0]) {
        ReplaceMatchesDeclined(s, spans[1..], spans[0].end, rewrite);
        assert s[p..] == s[p..spans[0].start] + s[spans[0].start..spans[0].end] + s[spans[0].end..];
      } else {
        ReplaceMatchesDeclined(s, spans[1..], p, rewrite);
      }
    }
  }
}
