/**
 * src/common/utils/json-repair.util.ts: the regex variant of the repair engine,
 * the one the request middleware uses. Same search as the scanner variant, with
 * a two-pass regex quote fix, an identity escape pass and a neighbour-based
 * quote fix.
 */
module JsonRepairUtil {
  import opened Wrappers
  import opened JsText
  import opened JsValues
  import opened TextRepairs
  import opened RegexPasses
  import opened RepairSearch

  // ---------------------------------------------------------------------------
  // fixUnescapedQuotesAdvanced: two regex passes
  // ---------------------------------------------------------------------------

  /** The first pass's callback condition: the content holds a `"` and no `\"`. */
  predicate FirstPassRewrites(content: string)
  {
    '"' in content && !Contains(content, "\\\"")
  }

  /**
   * `fixUnescapedQuotesAdvanced`: the first pattern's replacement, and only when it
   * changed nothing, the second pattern's replacement of the original text.
   */
  function FixUnescapedQuotesAdvanced(s: string, first: Matcher, second: Matcher): string
  {
    var fixed := RegexReplace(s, first, FirstPassRewrites);
    if fixed == s then RegexReplace(s, second, HasQuote) else fixed
  }

  /** The quotes the two passes escape together. */
  function AdvancedMarks(s: string, first: Matcher, second: Matcher): (m: seq<bool>)
    ensures |m| == |s|
  {
    if RegexReplace(s, first, FirstPassRewrites) == s then RegexMarks(s, second, HasQuote)
    else RegexMarks(s, first, FirstPassRewrites)
  }

  /** Whichever pass produces the result, it only writes `\` in front of some quotes of the input. */
  lemma AdvancedOnlyEscapesQuotes(s: string, first: Matcher, second: Matcher)
    ensures QuoteMarks(s, AdvancedMarks(s, first, second))
    ensures FixUnescapedQuotesAdvanced(s, first, second) == EscapeQuotesAt(s, AdvancedMarks(s, first, second))
    ensures UnescapeAt(FixUnescapedQuotesAdvanced(s, first, second), AdvancedMarks(s, first, second)) == s
  {
    RegexReplaceEscapes(s, first, FirstPassRewrites);
    RegexReplaceEscapes(s, second, HasQuote);
    UnescapeEscapeRoundTrip(s, AdvancedMarks(s, first, second));
  }

  /**
   * When the first pattern's callback declines every match (no quote in the
   * content, or a `\"` already there), the first pass changes nothing and the
   * result is the second pass's.
   */
  lemma FirstPassDeclined(s: string, first: Matcher, second: Matcher)
    requires forall k :: 0 <= k < |first(s)| && first(s)[k].contentStart <= first(s)[k].contentEnd <= |s| ==>
      var content := s[first(s)[k].contentStart..first(s)[k].contentEnd];
      '"' !in content || Contains(content, "\\\"")
    ensures RegexReplace(s, first, FirstPassRewrites) == s
    ensures FixUnescapedQuotesAdvanced(s, first, second) == RegexReplace(s, second, HasQuote)
  {
    ReplaceMatchesDeclined(s, first(s), 0, FirstPassRewrites);
    assert s[0..] == s;
  }

  /** The second pass runs only when the first changed nothing. */
  lemma SecondPassOnlyAfterNoChange(s: string, first: Matcher, second: Matcher)
    requires RegexReplace(s, first, FirstPassRewrites) != s
    ensures FixUnescapedQuotesAdvanced(s, first, second) == RegexReplace(s, first, FirstPassRewrites)
    ensures FixUnescapedQuotesAdvanced(s, first, second) != s
  {
  }

  // ---------------------------------------------------------------------------
  // fixCommonEscapeSequences: each replacement writes back what it matched
  // ---------------------------------------------------------------------------

  function FixCommonEscapeSequences(s: string): string
  {
    ReplaceAll(ReplaceAll(ReplaceAll(ReplaceAll(s, "\\n", "\\n"), "\\t", "\\t"), "\\r", "\\r"), "\\\\", "\\\\")
  }

  /** The pass is the identity. */
  lemma FixCommonEscapeSequencesIdentity(s: string)
    ensures FixCommonEscapeSequences(s) == s
  {
    ReplaceAllSelf(s, "\\n");
    ReplaceAllSelf(s, "\\t");
    ReplaceAllSelf(s, "\\r");
    ReplaceAllSelf(s, "\\\\");
  }

  // ---------------------------------------------------------------------------
  // fixUnescapedQuotes: s.replace(/(?<!\\)"/g, callback looking at the neighbours)
  // ---------------------------------------------------------------------------

  /** A quote whose neighbours in the input look like a string delimiter. */
  predicate LooksLikeDelimiter(s: string, i: nat)
    requires i < |s|
  {
    (i > 0 && s[i - 1] in ":{,") || (i + 1 < |s| && s[i + 1] in ":},")
  }

  /** The regex matches a quote not preceded by `\`; the callback returns `\"` unless it looks like a delimiter. */
  function NeighbourOutput(s: string, i: nat): string
    requires i < |s|
  {
    if s[i] == '"' && !(i > 0 && s[i - 1] == '\\') && !LooksLikeDelimiter(s, i) then "\\\"" else [s[i]]
  }

  function FixUnescapedQuotesFrom(s: string, i: nat): string
    requires i <= |s|
    decreases |s| - i
  {
    if i == |s| then [] else NeighbourOutput(s, i) + FixUnescapedQuotesFrom(s, i + 1)
  }

  function FixUnescapedQuotes(s: string): string
  {
    FixUnescapedQuotesFrom(s, 0)
  }

  /**
   * The quotes the pass escapes: exactly those not preceded by `\` whose
   * neighbours in the ORIGINAL input are none of `:{,` before and `:},` after.
   */
  function NeighbourMarks(s: string): (m: seq<bool>)
    ensures QuoteMarks(s, m)
    ensures forall i :: 0 <= i < |s| ==>
      (m[i] <==> s[i] == '"' && !(i > 0 && s[i - 1] == '\\') && !LooksLikeDelimiter(s, i))
  {
    seq(|s|, i requires 0 <= i < |s| => s[i] == '"' && !(i > 0 && s[i - 1] == '\\') && !LooksLikeDelimiter(s, i))
  }

  lemma {:induction false} FixUnescapedQuotesFromEscapes(s: string, i: nat)
    requires i <= |s|
    ensures QuoteMarks(s[i..], NeighbourMarks(s)[i..])
    ensures FixUnescapedQuotesFrom(s, i) == EscapeQuotesAt(s[i..], NeighbourMarks(s)[i..])
    decreases |s| - i
  {
    if i < |s| {
      FixUnescapedQuotesFromEscapes(s, i + 1);
      assert s[i..][1..] == s[i + 1..];
      assert NeighbourMarks(s)[i..][1..] == NeighbourMarks(s)[i + 1..];
    }
  }

  /**
   * The pass writes `\` in front of exactly the quotes `NeighbourMarks` selects, so
   * it never touches a quote after `\` or one whose neighbours look like a delimiter,
   * and deleting the inserted backslashes gives the input back.
   */
  lemma FixUnescapedQuotesEscapes(s: string)
    ensures FixUnescapedQuotes(s) == EscapeQuotesAt(s, NeighbourMarks(s))
    ensures UnescapeAt(FixUnescapedQuotes(s), NeighbourMarks(s)) == s
    ensures |FixUnescapedQuotes(s)| == |s| + CountTrue(NeighbourMarks(s))
  {
    FixUnescapedQuotesFromEscapes(s, 0);
    assert s[0..] == s && NeighbourMarks(s)[0..] == NeighbourMarks(s);
    UnescapeEscapeRoundTrip(s, NeighbourMarks(s));
    EscapeQuotesLength(s, NeighbourMarks(s));
  }

  /** A text whose every quote follows `\` or has a delimiter neighbour is returned as it is. */
  lemma DelimitedQuotesUntouched(s: string)
    requires forall i :: 0 <= i < |s| && s[i] == '"' ==> (i > 0 && s[i - 1] == '\\') || LooksLikeDelimiter(s, i)
    ensures FixUnescapedQuotes(s) == s
  {
    FixUnescapedQuotesEscapes(s);
    EscapeNothing(s);
    assert NeighbourMarks(s) == NoMarks(|s|);
  }

  /** `["a"]` is altered: neither quote has a delimiter neighbour, so both are escaped. */
  lemma ArrayStringEscaped()
    ensures FixUnescapedQuotes("[\"a\"]") == "[\\\"a\\\"]"
  {
    var s := "[\"a\"]";
    FixUnescapedQuotesEscapes(s);
    assert NeighbourMarks(s) == [false, true, false, true, false];
  }

  // ---------------------------------------------------------------------------
  // repairAndParseJSON
  // ---------------------------------------------------------------------------

  /** The six strategies, in order; `first` and `second` are the two patterns of the first one. */
  function Strategies(first: Matcher, second: Matcher): (fs: seq<Strategy>)
    ensures |fs| == 6
  {
    [ (t: string) => FixUnescapedQuotesAdvanced(t, first, second),
      (t: string) => RemoveTrailingCommas(t),
      (t: string) => QuoteUnquotedKeys(t),
      (t: string) => SingleToDoubleQuotes(t),
      (t: string) => FixCommonEscapeSequences(t),
      (t: string) => FixUnescapedQuotes(t) ]
  }

  /**
   * `repairAndParseJSON` of this variant: at most twelve parser calls; it fails,
   * with the fixed message, exactly when none of the twelve candidates parses.
   */
  method RepairAndParseJson(s: string, first: Matcher, second: Matcher, parse: Parser) returns (result: RepairResult)
    ensures result == Repair(s, Strategies(first, second), parse)
    ensures !result.Success() <==>
      forall k :: 0 <= k < 12 ==> parse(Candidates(s, Strategies(first, second))[k]).None?
    ensures !result.Success() ==> result.error == FailureMessage
  {
    var attempts;
    result, attempts := RepairAndParse(s, Strategies(first, second), parse);
    RepairFailsIffNothingParses(s, Strategies(first, second), parse);
  }

  /**
   * Because strategy 5 is the identity, the fifth candidate is the untouched input:
   * text that parses as it is never comes back as a failure, and the tenth and
   * eleventh candidates are the same text.
   */
  lemma IdentityStrategyRetriesInput(s: string, first: Matcher, second: Matcher, parse: Parser)
    ensures Candidates(s, Strategies(first, second))[4] == s
    ensures Candidates(s, Strategies(first, second))[10] == Candidates(s, Strategies(first, second))[9]
    ensures parse(s).Some? ==> Repair(s, Strategies(first, second), parse).Success()
  {
    var fs := Strategies(first, second);
    CandidateSingle(s, fs, 4);
    FixCommonEscapeSequencesIdentity(s);
    CandidatePrefix(s, fs, 3);
    CandidatePrefix(s, fs, 4);
    ApplyInOrderSnoc(s, fs[..4], fs[4]);
    assert fs[..5] == fs[..4] + [fs[4]];
    FixCommonEscapeSequencesIdentity(ApplyInOrder(s, fs[..4]));
    RepairFailsIffNothingParses(s, fs, parse);
  }
}
