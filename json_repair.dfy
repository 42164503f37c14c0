/**
 * src/utilities/json-repair.ts: the character-scanner variant of the repair
 * engine. Its six strategies, in search order, and `repairAndParseJSON` over them.
 */
module JsonRepair {
  import opened Wrappers
  import opened JsValues
  import opened TextRepairs
  import opened QuoteScanner
  import opened RegexPasses
  import opened DescriptionFix
  import opened RepairSearch

  /**
   * `fixCommonEscapeSequences`: every `\\` pair doubled, every `/` not after a `\`
   * of the doubled text written `\/`, then raw newline, carriage return and tab
   * written as the two-character escapes `\n`, `\r`, `\t`.
   */
  function FixCommonEscapeSequences(s: string): string
  {
    var doubled := ReplaceAll(s, "\\\\", "\\\\\\\\");
    var slashes := EscapeSlashes(doubled, false);
    ReplaceAll(ReplaceAll(ReplaceAll(slashes, "\n", "\\n"), "\r", "\\r"), "\t", "\\t")
  }

  /** The output holds no raw newline, carriage return or tab, and each of its `/` follows a `\`. */
  lemma FixCommonEscapeSequencesClean(s: string)
    ensures '\n' !in FixCommonEscapeSequences(s)
    ensures '\r' !in FixCommonEscapeSequences(s)
    ensures '\t' !in FixCommonEscapeSequences(s)
    ensures SlashesEscaped(FixCommonEscapeSequences(s), false)
  {
    var slashes := EscapeSlashes(ReplaceAll(s, "\\\\", "\\\\\\\\"), false);
    var t1 := ReplaceAll(slashes, "\n", "\\n");
    var t2 := ReplaceAll(t1, "\r", "\\r");
    var t3 := ReplaceAll(t2, "\t", "\\t");
    EscapeSlashesEscapes(ReplaceAll(s, "\\\\", "\\\\\\\\"), false);
    ReplaceKeepsSlashesEscaped(slashes, '\n', "\\n", false);
    ReplaceKeepsSlashesEscaped(t1, '\r', "\\r", false);
    ReplaceKeepsSlashesEscaped(t2, '\t', "\\t", false);
    ReplaceCharRemovesIt(slashes, '\n', "\\n");
    ReplaceCharRemovesIt(t1, '\r', "\\r");
    ReplaceCharRemovesIt(t2, '\t', "\\t");
    if '\n' in t2 {
      ReplaceAllChars(t1, "\r", "\\r", '\n');
    }
    if '\n' in t3 {
      ReplaceAllChars(t2, "\t", "\\t", '\n');
    }
    if '\r' in t3 {
      ReplaceAllChars(t2, "\t", "\\t", '\r');
    }
  }

  /**
   * `fixUnescapedQuotes`: the DESCRIPTION fix, and when that leaves the text as it
   * was, the fallback replacement, whose matches `fallback` supplies.
   */
  function FixUnescapedQuotes(s: string, fallback: Matcher): string
  {
    var fixed := FixQuotesInDescription(s);
    if fixed == s then RegexReplace(s, fallback, HasQuote) else fixed
  }

  /**
   * Either the DESCRIPTION fix rewrote exactly one field, or the result only
   * writes `\` in front of some quotes of the input.
   */
  lemma FixUnescapedQuotesShape(s: string, fallback: Matcher)
    ensures FixQuotesInDescription(s) != s ==>
      FirstMatch(s, 0).Some? &&
      var m := FirstMatch(s, 0).value;
      FixUnescapedQuotes(s, fallback)
        == s[..m.start] + Replacement(s[m.contentStart..m.closing]) + s[m.closing + 1..]
    ensures FixQuotesInDescription(s) == s ==>
      QuoteMarks(s, RegexMarks(s, fallback, HasQuote)) &&
      FixUnescapedQuotes(s, fallback) == EscapeQuotesAt(s, RegexMarks(s, fallback, HasQuote))
  {
    FixShape(s);
    RegexReplaceEscapes(s, fallback, HasQuote);
  }

  /** The six strategies of `repairAndParseJSON`, in order. */
  function Strategies(fallback: Matcher): (fs: seq<Strategy>)
    ensures |fs| == 6
  {
    [ (t: string) => Scan(t),
      (t: string) => RemoveTrailingCommas(t),
      (t: string) => QuoteUnquotedKeys(t),
      (t: string) => SingleToDoubleQuotes(t),
      (t: string) => FixCommonEscapeSequences(t),
      (t: string) => FixUnescapedQuotes(t, fallback) ]
  }

  /**
   * `repairAndParseJSON` of this variant: at most twelve parser calls; it fails, with
   * the fixed message, exactly when none of the twelve candidates parses.
   */
  method RepairAndParseJson(s: string, fallback: Matcher, parse: Parser) returns (result: RepairResult)
    ensures result == Repair(s, Strategies(fallback), parse)
    ensures !result.Success() <==>
      forall k :: 0 <= k < 12 ==> parse(Candidates(s, Strategies(fallback))[k]).None?
    ensures !result.Success() ==> result.error == FailureMessage
  {
    var attempts;
    result, attempts := RepairAndParse(s, Strategies(fallback), parse);
    RepairFailsIffNothingParses(s, Strategies(fallback), parse);
  }

  /** The first candidate is the scanner's output; the second loop starts with it again. */
  lemma FirstCandidatesAreTheScan(s: string, fallback: Matcher)
    ensures Candidates(s, Strategies(fallback))[0] == Scan(s)
    ensures Candidates(s, Strategies(fallback))[6] == Scan(s)
    ensures Candidates(s, Strategies(fallback))[11]
         == FixUnescapedQuotes(FixCommonEscapeSequences(SingleToDoubleQuotes(
              QuoteUnquotedKeys(RemoveTrailingCommas(Scan(s))))), fallback)
  {
    var fs := Strategies(fallback);
    CandidateSingle(s, fs, 0);
    FirstPrefixRepeatsFirstStrategy(s, fs, (t: string) => None);
    CandidatePrefix(s, fs, 5);
    assert fs[..6] == fs;
    calc {
      ApplyInOrder(s, fs);
      ApplyInOrder(fs[0](s), fs[1..]);
      ApplyInOrder(fs[1](fs[0](s)), fs[2..]);
      ApplyInOrder(fs[2](fs[1](fs[0](s))), fs[3..]);
      ApplyInOrder(fs[3](fs[2](fs[1](fs[0](s)))), fs[4..]);
      ApplyInOrder(fs[4](fs[3](fs[2](fs[1](fs[0](s))))), fs[5..]);
      ApplyInOrder(fs[5](fs[4](fs[3](fs[2](fs[1](fs[0](s)))))), fs[6..]);
    }
  }

  /**
   * The valid object `Rescanned` is not parsed as it stands: the scan is tried first,
   * rewrites it into other valid JSON, and that is what is returned, after one attempt.
   * Whenever the two texts parse to different values the caller gets the wrong one.
   */
  lemma ValidObjectMisrepaired(fallback: Matcher, parse: Parser)
    requires parse("{\"k\":[\"a\\\"],\\\"m\\\":[\\\"b\",1]}").Some?
    ensures Repair(Rescanned, Strategies(fallback), parse)
         == Repaired(parse("{\"k\":[\"a\\\"],\\\"m\\\":[\\\"b\",1]}").value)
    ensures Attempts(Rescanned, Strategies(fallback), parse) == 1
    ensures parse(Rescanned).Some? && parse(Rescanned) != parse("{\"k\":[\"a\\\"],\\\"m\\\":[\\\"b\",1]}")
         ==> Repair(Rescanned, Strategies(fallback), parse) != Repaired(parse(Rescanned).value)
  {
    var fs := Strategies(fallback);
    var out := "{\"k\":[\"a\\\"],\\\"m\\\":[\\\"b\",1]}";
    FirstCandidatesAreTheScan(Rescanned, fallback);
    ValidObjectRescanned();
    CandidateStep(Rescanned, fs, parse, 0, out);
    StoppedAt(Rescanned, fs, parse, 0, parse(out).value);
  }

  /**
   * `repairAndParseJSON` with the strict parse first, as the middleware's variant does:
   * text that already parses comes back as its own value, and only text that does not
   * goes through the twelve candidates.
   */
  method RepairAndParseJsonStrictFirst(s: string, fallback: Matcher, parse: Parser)
    returns (result: RepairResult)
    ensures parse(s).Some? ==> result == Repaired(parse(s).value)
    ensures parse(s).None? ==> result == Repair(s, Strategies(fallback), parse)
  {
    match parse(s)
    case Some(v) =>
      result := Repaired(v);
    case None =>
      result := RepairAndParseJson(s, fallback, parse);
  }
}
