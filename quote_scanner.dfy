/**
 * The character-level quote fixer of the TypeScript repair engine
 * (`fixUnescapedQuotesAdvanced` in src/utilities/json-repair.ts): one left-to-right
 * pass with the flags `inString`, `inPropertyName` and `escapeNext`, and two
 * lookaheads. A `"` inside a value string is kept only when the next
 * non-white-space character is `,` or `}`; otherwise it is written as `\"`.
 *
 * `Scan` is the specification (a step function folded over the input),
 * `FixUnescapedQuotesAdvanced` the imperative loop proved equal to it, and the
 * lemmas say what the scan does to its input.
 */
module QuoteScanner {
  import opened Wrappers
  import opened JsText
  import opened TextRepairs

  /** The flags of the scan before a character is read. */
  datatype ScanState = ScanState(inString: bool, inPropertyName: bool, escapeNext: bool)

  const Start := ScanState(false, false, false)

  /** A `"` at `j` that is not directly preceded by `\`. */
  predicate IsClosingCandidate(s: string, j: nat)
    requires 1 <= j < |s|
  {
    s[j] == '"' && s[j - 1] != '\\'
  }

  /** The first `"` at or after `j` whose previous character is not `\`. */
  function FirstClosing(s: string, j: nat): (r: Option<nat>)
    requires 1 <= j
    ensures r.Some? ==> j <= r.value < |s| && IsClosingCandidate(s, r.value)
    ensures r.Some? ==> forall q :: j <= q < r.value ==> !IsClosingCandidate(s, q)
    ensures r.None? ==> forall q :: j <= q < |s| ==> !IsClosingCandidate(s, q)
    decreases |s| - j
  {
    if j >= |s| then None
    else if IsClosingCandidate(s, j) then Some(j)
    else FirstClosing(s, j + 1)
  }

  /** The next non-white-space character after `j` is `:` (end of input counts as "no"). */
  predicate ColonFollows(s: string, j: nat)
    requires j < |s|
  {
    var k := SkipWhitespace(s, j + 1);
    k < |s| && s[k] == ':'
  }

  /**
   * `inPropertyName` after the quote at `i` opens a string: decided by the first
   * closing candidate after it; when there is none the flag keeps its value.
   */
  function OpenedAsPropertyName(s: string, i: nat, previous: bool): bool
    requires i < |s|
  {
    match FirstClosing(s, i + 1)
    case Some(j) => ColonFollows(s, j)
    case None => previous
  }

  /** The quote at `i` looks like the end of a value: next non-white space is `,` or `}`. */
  predicate ValueEnds(s: string, i: nat)
    requires i < |s|
  {
    var j := SkipWhitespace(s, i + 1);
    j < |s| && (s[j] == ',' || s[j] == '}')
  }

  /** The one case in which the scan writes `\"` for the character at `i`. */
  predicate EscapesHere(s: string, i: nat, st: ScanState)
    requires i < |s|
  {
    !st.escapeNext && s[i] == '"' && st.inString && !st.inPropertyName && !ValueEnds(s, i)
  }

  /** What the scan writes for the character at `i`, and its flags afterwards. */
  function ScanStep(s: string, i: nat, st: ScanState): (r: (string, ScanState))
    requires i < |s|
    ensures r.0 == if EscapesHere(s, i, st) then "\\\"" else [s[i]]
  {
    if st.escapeNext then ([s[i]], st.(escapeNext := false))
    else if s[i] == '\\' then ([s[i]], st.(escapeNext := true))
    else if s[i] != '"' then ([s[i]], st)
    else if !st.inString then
      ([s[i]], ScanState(true, OpenedAsPropertyName(s, i, st.inPropertyName), false))
    else if st.inPropertyName then ([s[i]], ScanState(false, false, false))
    else if ValueEnds(s, i) then ([s[i]], st.(inString := false))
    else ("\\\"", st)
  }

  /** The output for `s[i..]` when the scan reaches `i` with flags `st`. */
  function ScanFrom(s: string, i: nat, st: ScanState): string
    requires i <= |s|
    decreases |s| - i
  {
    if i == |s| then [] else ScanStep(s, i, st).0 + ScanFrom(s, i + 1, ScanStep(s, i, st).1)
  }

  function Scan(s: string): string
  {
    ScanFrom(s, 0, Start)
  }

  /** The flags of the scan when it reaches position `i`. */
  function StateAt(s: string, i: nat): ScanState
    requires i <= |s|
  {
    if i == 0 then Start else ScanStep(s, i - 1, StateAt(s, i - 1)).1
  }

  /** The quotes the scan escapes. */
  function Marks(s: string): (m: seq<bool>)
    ensures QuoteMarks(s, m)
  {
    seq(|s|, i requires 0 <= i < |s| => EscapesHere(s, i, StateAt(s, i)))
  }

  // ---------------------------------------------------------------------------
  // The imperative scan
  // ---------------------------------------------------------------------------

  /** `while (k < s.length && /\s/.test(s[k])) k++` */
  method SkipWhitespaceLoop(s: string, j: nat) returns (k: nat)
    requires j <= |s|
    ensures k == SkipWhitespace(s, j)
  {
    k := j;
    while k < |s| && IsWhitespace(s[k])
      invariant j <= k <= |s|
      invariant SkipWhitespace(s, k) == SkipWhitespace(s, j)
      decreases |s| - k
    {
      k := k + 1;
    }
  }

  /** The lookahead run when a string opens at `i`: returns the new `inPropertyName`. */
  method PropertyNameLookahead(s: string, i: nat, inPropertyName: bool) returns (r: bool)
    requires i < |s|
    ensures r == OpenedAsPropertyName(s, i, inPropertyName)
  {
    r := inPropertyName;
    var j := i + 1;
    var foundClosingQuote := false;
    while j < |s| && !foundClosingQuote
      invariant i + 1 <= j <= |s|
      invariant !foundClosingQuote ==> FirstClosing(s, j) == FirstClosing(s, i + 1) && r == inPropertyName
      invariant foundClosingQuote ==> FirstClosing(s, i + 1) == Some(j - 1) && r == ColonFollows(s, j - 1)
      decreases |s| - j
    {
      if s[j] == '"' && s[j - 1] != '\\' {
        foundClosingQuote := true;
        var k := SkipWhitespaceLoop(s, j + 1);
        r := k < |s| && s[k] == ':';
      }
      j := j + 1;
    }
  }

  /** One iteration of the scan loop: the text written for `s[i]` and the new flags. */
  method ScanOne(s: string, i: nat, st: ScanState) returns (out: string, next: ScanState)
    requires i < |s|
    ensures (out, next) == ScanStep(s, i, st)
  {
    var c := s[i];
    next := st;
    if st.escapeNext {
      out := [c];
      next := next.(escapeNext := false);
    } else if c == '\\' {
      out := [c];
      next := next.(escapeNext := true);
    } else if c == '"' {
      if !st.inString {
        var inPropertyName := PropertyNameLookahead(s, i, st.inPropertyName);
        next := ScanState(true, inPropertyName, false);
        out := [c];
      } else if st.inPropertyName {
        next := ScanState(false, false, false);
        out := [c];
      } else {
        var j := SkipWhitespaceLoop(s, i + 1);
        if j < |s| && (s[j] == ',' || s[j] == '}') {
          next := next.(inString := false);
          out := [c];
        } else {
          out := "\\\"";
        }
      }
    } else {
      out := [c];
    }
  }

  /** The scanner: escapes the quotes inside value strings that do not look like the end of the value. */
  method FixUnescapedQuotesAdvanced(s: string) returns (result: string)
    ensures result == Scan(s)
  {
    result := "";
    var state := Start;
    var i := 0;
    while i < |s|
      invariant 0 <= i <= |s|
      invariant result + ScanFrom(s, i, state) == Scan(s)
      decreases |s| - i
    {
      ScanFromUnfold(s, i, state);
      var out, next := ScanOne(s, i, state);
      result := result + out;
      state := next;
      i := i + 1;
    }
  }

  // ---------------------------------------------------------------------------
  // What the scan does
  // ---------------------------------------------------------------------------

  lemma ScanFromUnfold(s: string, i: nat, st: ScanState)
    requires i < |s|
    ensures ScanFrom(s, i, st) == ScanStep(s, i, st).0 + ScanFrom(s, i + 1, ScanStep(s, i, st).1)
  {
  }

  /** One step of the scan, with what it writes and its new flags given by name. */
  lemma ScanFromStep(s: string, i: nat, st: ScanState, out: string, next: ScanState)
    requires i < |s| && ScanStep(s, i, st) == (out, next)
    ensures ScanFrom(s, i, st) == out + ScanFrom(s, i + 1, next)
  {
  }

  lemma MarksSuffix(s: string, i: nat)
    requires i < |s|
    ensures QuoteMarks(s[i..], Marks(s)[i..])
    ensures s[i..][1..] == s[i + 1..] && Marks(s)[i..][1..] == Marks(s)[i + 1..]
    ensures Marks(s)[i..][0] == EscapesHere(s, i, StateAt(s, i))
  {
  }

  /** From position `i` on, the scan writes `s[i..]` with exactly the marked quotes escaped. */
  lemma {:induction false} ScanFromEscapes(s: string, i: nat)
    requires i <= |s|
    ensures QuoteMarks(s[i..], Marks(s)[i..])
    ensures ScanFrom(s, i, StateAt(s, i)) == EscapeQuotesAt(s[i..], Marks(s)[i..])
    decreases |s| - i
  {
    if i == |s| {
      assert s[i..] == [];
    } else {
      ScanFromEscapes(s, i + 1);
      ScanFromUnfold(s, i, StateAt(s, i));
      MarksSuffix(s, i);
      assert StateAt(s, i + 1) == ScanStep(s, i, StateAt(s, i)).1;
    }
  }

  /** The scan only inserts `\` in front of the marked `"` characters. */
  lemma ScanIsQuoteEscaping(s: string)
    ensures Scan(s) == EscapeQuotesAt(s, Marks(s))
  {
    ScanFromEscapes(s, 0);
    assert s[0..] == s && Marks(s)[0..] == Marks(s);
  }

  /** Deleting the inserted backslashes gives the input back. */
  lemma ScanRoundTrip(s: string)
    ensures UnescapeAt(Scan(s), Marks(s)) == s
    ensures DropChar(Scan(s), '\\') == DropChar(s, '\\')
    ensures |Scan(s)| == |s| + CountTrue(Marks(s))
  {
    ScanIsQuoteEscaping(s);
    UnescapeEscapeRoundTrip(s, Marks(s));
    EscapeOnlyAddsBackslashes(s, Marks(s));
    EscapeQuotesLength(s, Marks(s));
  }

  /** An input without `"` comes back unchanged. */
  lemma ScanWithoutQuotes(s: string)
    requires '"' !in s
    ensures Scan(s) == s
  {
    ScanIsQuoteEscaping(s);
    EscapeWithoutQuotes(s, Marks(s));
  }

  /** Outside a string the scan is never inside a property name. */
  lemma {:induction false} OutsideStringNotPropertyName(s: string, i: nat)
    requires i <= |s|
    ensures !StateAt(s, i).inString ==> !StateAt(s, i).inPropertyName
  {
    if i > 0 {
      OutsideStringNotPropertyName(s, i - 1);
    }
  }

  /**
   * A `\` read outside an escape is copied and sets `escapeNext`, so the character
   * after it is copied verbatim as well.
   */
  lemma BackslashCopiesNext(s: string, i: nat)
    requires i + 1 < |s| && s[i] == '\\' && !StateAt(s, i).escapeNext
    ensures !Marks(s)[i] && StateAt(s, i + 1).escapeNext
    ensures !Marks(s)[i + 1] && ScanStep(s, i + 1, StateAt(s, i + 1)).0 == [s[i + 1]]
    ensures !StateAt(s, i + 2).escapeNext
  {
  }

  /**
   * A `"` read inside a value string is kept, and closes the string, exactly when the
   * next non-white-space character is `,` or `}`; otherwise it becomes `\"` and the
   * string stays open.
   */
  lemma ValueQuote(s: string, i: nat)
    requires i < |s| && s[i] == '"'
    requires !StateAt(s, i).escapeNext && StateAt(s, i).inString && !StateAt(s, i).inPropertyName
    ensures !Marks(s)[i] <==> ValueEnds(s, i)
    ensures StateAt(s, i + 1).inString <==> Marks(s)[i]
  {
  }

  /**
   * The quote opening a string is never escaped, and the string is a property name
   * exactly when the first following `"` not preceded by `\` is followed by `:`.
   */
  lemma OpeningQuote(s: string, i: nat)
    requires i < |s| && s[i] == '"'
    requires !StateAt(s, i).escapeNext && !StateAt(s, i).inString
    ensures !Marks(s)[i] && StateAt(s, i + 1).inString
    ensures StateAt(s, i + 1).inPropertyName <==>
      (FirstClosing(s, i + 1).Some? && ColonFollows(s, FirstClosing(s, i + 1).value))
  {
    OutsideStringNotPropertyName(s, i);
  }

  /** The quote that closes a property name is never escaped, and it ends the string. */
  lemma PropertyNameQuote(s: string, i: nat)
    requires i < |s| && s[i] == '"'
    requires !StateAt(s, i).escapeNext && StateAt(s, i).inPropertyName
    ensures !Marks(s)[i]
    ensures !StateAt(s, i + 1).inString && !StateAt(s, i + 1).inPropertyName
  {
    OutsideStringNotPropertyName(s, i);
  }

  /**
   * A closing quote followed by `]` does not look like the end of a value, so the
   * valid array `["a"]` comes back as `["a\"]`.
   */
  lemma ClosingQuoteBeforeBracketEscaped()
    ensures Scan("[\"a\"]") == "[\"a\\\"]"
  {
    var s := "[\"a\"]";
    var open := ScanState(true, false, false);
    assert FirstClosing(s, 2) == Some(3) by {
      assert IsClosingCandidate(s, 3) && !IsClosingCandidate(s, 2);
    }
    assert SkipWhitespace(s, 4) == 4;
    assert !ColonFollows(s, 3) && !ValueEnds(s, 3);
    assert ScanStep(s, 0, Start) == ("[", Start);
    assert ScanStep(s, 1, Start) == ("\"", open);
    assert ScanStep(s, 2, open) == ("a", open);
    assert ScanStep(s, 3, open) == ("\\\"", open);
    assert ScanStep(s, 4, open) == ("]", open);
    assert ScanFrom(s, 5, open) == [];
  }

  /**
   * A key ending in an escaped backslash hides its closing quote from the
   * property-name lookahead (that quote is preceded by `\`), so the quote is
   * escaped and `{"a\\":1}` is no longer closed.
   */
  lemma EscapedBackslashBeforeClosingQuote()
    ensures Scan("{\"a\\\\\":1}") == "{\"a\\\\\\\":1}"
  {
    var s := "{\"a\\\\\":1}";
    var open := ScanState(true, false, false);
    var escaping := ScanState(true, false, true);
    assert FirstClosing(s, 2) == None by {
      assert forall q :: 2 <= q < |s| ==> !IsClosingCandidate(s, q);
    }
    assert SkipWhitespace(s, 6) == 6;
    assert !ValueEnds(s, 5);
    assert ScanStep(s, 0, Start) == ("{", Start);
    assert ScanStep(s, 1, Start) == ("\"", open);
    assert ScanStep(s, 2, open) == ("a", open);
    assert ScanStep(s, 3, open) == ("\\", escaping);
    assert ScanStep(s, 4, escaping) == ("\\", open);
    assert ScanStep(s, 5, open) == ("\\\"", open);
    assert ScanStep(s, 6, open) == (":", open);
    assert ScanStep(s, 7, open) == ("1", open);
    assert ScanStep(s, 8, open) == ("}", open);
    assert ScanFrom(s, 9, open) == [];
  }

  /** A valid object whose first array holds one string. */
  const Rescanned: string := "{\"k\":[\"a\"],\"m\":[\"b\",1]}"

  /** The flags inside a property name and inside a value string. */
  const InKey := ScanState(true, true, false)
  const InValue := ScanState(true, false, false)

  // `SpellsRescanned` gives the characters of `Rescanned` one by one, so that the
  // lemmas below reason about positions rather than about the literal.

  predicate SpellsHead(s: string)
    requires |s| == 23
  {
    s[0] == '{' && s[1] == '"' && s[2] == 'k' && s[3] == '"' && s[4] == ':' && s[5] == '['
  }

  predicate SpellsSecond(s: string)
    requires |s| == 23
  {
    s[6] == '"' && s[7] == 'a' && s[8] == '"' && s[9] == ']' && s[10] == ',' && s[11] == '"'
  }

  predicate SpellsThird(s: string)
    requires |s| == 23
  {
    s[12] == 'm' && s[13] == '"' && s[14] == ':' && s[15] == '[' && s[16] == '"' && s[17] == 'b'
  }

  predicate SpellsTail(s: string)
    requires |s| == 23
  {
    s[18] == '"' && s[19] == ',' && s[20] == '1' && s[21] == ']' && s[22] == '}'
  }

  /** `s` is `Rescanned`, character by character. */
  predicate SpellsRescanned(s: string)
  {
    |s| == 23 && SpellsHead(s) && SpellsSecond(s) && SpellsThird(s) && SpellsTail(s)
  }

  lemma RescannedHeadSpelled()
    ensures |Rescanned| == 23 && SpellsHead(Rescanned)
  {
  }

  lemma RescannedSecondSpelled()
    ensures |Rescanned| == 23 && SpellsSecond(Rescanned)
  {
  }

  lemma RescannedThirdSpelled()
    ensures |Rescanned| == 23 && SpellsThird(Rescanned)
  {
  }

  lemma RescannedTailSpelled()
    ensures |Rescanned| == 23 && SpellsTail(Rescanned)
  {
  }

  lemma RescannedSpelled()
    ensures SpellsRescanned(Rescanned)
  {
    RescannedHeadSpelled();
    RescannedSecondSpelled();
    RescannedThirdSpelled();
    RescannedTailSpelled();
  }

  /** The look-aheads that decide how `Rescanned` is scanned. */
  lemma RescannedLookahead(s: string)
    requires SpellsRescanned(s)
    ensures OpenedAsPropertyName(s, 1, false) && !OpenedAsPropertyName(s, 6, false)
    ensures !ValueEnds(s, 8) && !ValueEnds(s, 11) && !ValueEnds(s, 13)
    ensures !ValueEnds(s, 16) && ValueEnds(s, 18)
  {
    assert FirstClosing(s, 2) == Some(3) by {
      assert IsClosingCandidate(s, 3) && !IsClosingCandidate(s, 2);
    }
    assert FirstClosing(s, 7) == Some(8) by {
      assert IsClosingCandidate(s, 8) && !IsClosingCandidate(s, 7);
    }
    assert SkipWhitespace(s, 4) == 4 && SkipWhitespace(s, 9) == 9;
    assert SkipWhitespace(s, 12) == 12 && SkipWhitespace(s, 14) == 14;
    assert SkipWhitespace(s, 17) == 17 && SkipWhitespace(s, 19) == 19;
  }

  lemma RescannedHeadSteps(s: string)
    requires SpellsRescanned(s)
    ensures ScanStep(s, 0, Start) == ("{", Start)
    ensures ScanStep(s, 1, Start) == ("\"", InKey)
    ensures ScanStep(s, 2, InKey) == ("k", InKey)
  {
    RescannedLookahead(s);
  }

  lemma RescannedKeySteps(s: string)
    requires SpellsRescanned(s)
    ensures ScanStep(s, 3, InKey) == ("\"", Start)
    ensures ScanStep(s, 4, Start) == (":", Start)
    ensures ScanStep(s, 5, Start) == ("[", Start)
  {
    RescannedLookahead(s);
  }

  lemma RescannedSecondSteps(s: string)
    requires SpellsRescanned(s)
    ensures ScanStep(s, 6, Start) == ("\"", InValue)
    ensures ScanStep(s, 7, InValue) == ("a", InValue)
    ensures ScanStep(s, 8, InValue) == ("\\\"", InValue)
    ensures ScanStep(s, 9, InValue) == ("]", InValue)
    ensures ScanStep(s, 10, InValue) == (",", InValue)
    ensures ScanStep(s, 11, InValue) == ("\\\"", InValue)
  {
    RescannedLookahead(s);
  }

  lemma RescannedThirdSteps(s: string)
    requires SpellsRescanned(s)
    ensures ScanStep(s, 12, InValue) == ("m", InValue)
    ensures ScanStep(s, 13, InValue) == ("\\\"", InValue)
    ensures ScanStep(s, 14, InValue) == (":", InValue)
    ensures ScanStep(s, 15, InValue) == ("[", InValue)
    ensures ScanStep(s, 16, InValue) == ("\\\"", InValue)
    ensures ScanStep(s, 17, InValue) == ("b", InValue)
  {
    RescannedLookahead(s);
  }

  lemma RescannedTailSteps(s: string)
    requires SpellsRescanned(s)
    ensures ScanStep(s, 18, InValue) == ("\"", Start)
    ensures ScanStep(s, 19, Start) == (",", Start)
    ensures ScanStep(s, 20, Start) == ("1", Start)
    ensures ScanStep(s, 21, Start) == ("]", Start)
    ensures ScanStep(s, 22, Start) == ("}", Start)
  {
    RescannedLookahead(s);
  }

  /** What the scan of `Rescanned` writes for positions 0 to 2. */
  lemma RescannedHead(s: string)
    requires SpellsRescanned(s)
    ensures ScanFrom(s, 0, Start) == "{\"k" + ScanFrom(s, 3, InKey)
  {
    RescannedHeadSteps(s);
    ScanFromStep(s, 0, Start, "{", Start);
    ScanFromStep(s, 1, Start, "\"", InKey);
    ScanFromStep(s, 2, InKey, "k", InKey);
  }

  /** What the scan of `Rescanned` writes for positions 3 to 5. */
  lemma RescannedKey(s: string)
    requires SpellsRescanned(s)
    ensures ScanFrom(s, 3, InKey) == "\":[" + ScanFrom(s, 6, Start)
  {
    RescannedKeySteps(s);
    ScanFromStep(s, 3, InKey, "\"", Start);
    ScanFromStep(s, 4, Start, ":", Start);
    ScanFromStep(s, 5, Start, "[", Start);
  }

  /** What the scan of `Rescanned` writes for positions 6 to 11. */
  lemma RescannedSecond(s: string)
    requires SpellsRescanned(s)
    ensures ScanFrom(s, 6, Start) == "\"a\\\"],\\\"" + ScanFrom(s, 12, InValue)
  {
    RescannedSecondSteps(s);
    ScanFromStep(s, 6, Start, "\"", InValue);
    ScanFromStep(s, 7, InValue, "a", InValue);
    ScanFromStep(s, 8, InValue, "\\\"", InValue);
    ScanFromStep(s, 9, InValue, "]", InValue);
    ScanFromStep(s, 10, InValue, ",", InValue);
    ScanFromStep(s, 11, InValue, "\\\"", InValue);
  }

  /** What the scan of `Rescanned` writes for positions 12 to 17. */
  lemma RescannedThird(s: string)
    requires SpellsRescanned(s)
    ensures ScanFrom(s, 12, InValue) == "m\\\":[\\\"b" + ScanFrom(s, 18, InValue)
  {
    RescannedThirdSteps(s);
    ScanFromStep(s, 12, InValue, "m", InValue);
    ScanFromStep(s, 13, InValue, "\\\"", InValue);
    ScanFromStep(s, 14, InValue, ":", InValue);
    ScanFromStep(s, 15, InValue, "[", InValue);
    ScanFromStep(s, 16, InValue, "\\\"", InValue);
    ScanFromStep(s, 17, InValue, "b", InValue);
  }

  /** What the scan of `Rescanned` writes for positions 18 to 22. */
  lemma RescannedTail(s: string)
    requires SpellsRescanned(s)
    ensures ScanFrom(s, 18, InValue) == "\",1]}"
  {
    RescannedTailSteps(s);
    ScanFromStep(s, 18, InValue, "\"", Start);
    ScanFromStep(s, 19, Start, ",", Start);
    ScanFromStep(s, 20, Start, "1", Start);
    ScanFromStep(s, 21, Start, "]", Start);
    ScanFromStep(s, 22, Start, "}", Start);
  }

  /** The five pieces of the scan of `Rescanned` put together. */
  lemma RescannedJoin(t0: string, t1: string, t2: string, t3: string, t4: string)
    requires t0 == "{\"k" + t1 && t1 == "\":[" + t2
    requires t2 == "\"a\\\"],\\\"" + t3 && t3 == "m\\\":[\\\"b" + t4
    requires t4 == "\",1]}"
    ensures t0 == "{\"k\":[\"a\\\"],\\\"m\\\":[\\\"b\",1]}"
  {
  }

  lemma RescannedScan(s: string)
    requires SpellsRescanned(s)
    ensures ScanFrom(s, 0, Start) == "{\"k\":[\"a\\\"],\\\"m\\\":[\\\"b\",1]}"
  {
    RescannedHead(s);
    RescannedKey(s);
    RescannedSecond(s);
    RescannedThird(s);
    RescannedTail(s);
    RescannedJoin(ScanFrom(s, 0, Start), ScanFrom(s, 3, InKey), ScanFrom(s, 6, Start),
      ScanFrom(s, 12, InValue), ScanFrom(s, 18, InValue));
  }

  /**
   * The quote closing `"a"` is followed by `]`, so it is escaped and the string
   * runs on; the quotes of `"m"` and of `"b"` are escaped in turn, and the string
   * only closes before `,1`. The output is again valid JSON, of a different value:
   * the key `k` holding the array of the string `a"],"m":["b` and the number 1.
   */
  lemma ValidObjectRescanned()
    ensures Scan(Rescanned) == "{\"k\":[\"a\\\"],\\\"m\\\":[\\\"b\",1]}"
  {
    RescannedSpelled();
    RescannedScan(Rescanned);
  }
}
