/**
 * Text-to-text building blocks shared by both variants of the JSON repair engine:
 * backslash insertion before chosen quotes, literal global replacement
 * (`s.replace(/lit/g, rep)`), and the regex strategies that need no backtracking:
 * trailing-comma removal, unquoted-key quoting and `(?<!\\)\/` slash escaping.
 */
module TextRepairs {
  import opened Wrappers
  import opened JsText

  // ---------------------------------------------------------------------------
  // Escaping chosen quotes
  // ---------------------------------------------------------------------------

  /** `marks` selects some of the `"` characters of `s`, and nothing else. */
  predicate QuoteMarks(s: string, marks: seq<bool>)
  {
    |marks| == |s| && forall i :: 0 <= i < |s| && marks[i] ==> s[i] == '"'
  }

  /** `s` with every marked quote written as `\"`, everything else copied. */
  function EscapeQuotesAt(s: string, marks: seq<bool>): string
    requires QuoteMarks(s, marks)
    decreases |s|
  {
    if s == [] then []
    else (if marks[0] then "\\\"" else [s[0]]) + EscapeQuotesAt(s[1..], marks[1..])
  }

  /** Deletes the backslash in front of each marked quote again: the inverse of `EscapeQuotesAt`. */
  function UnescapeAt(t: string, marks: seq<bool>): string
    decreases |marks|
  {
    if marks == [] then t
    else if marks[0] then (if |t| >= 2 then "\"" + UnescapeAt(t[2..], marks[1..]) else t)
    else if t != [] then [t[0]] + UnescapeAt(t[1..], marks[1..])
    else t
  }

  lemma {:induction false} UnescapeEscapeRoundTrip(s: string, marks: seq<bool>)
    requires QuoteMarks(s, marks)
    ensures UnescapeAt(EscapeQuotesAt(s, marks), marks) == s
    decreases |s|
  {
    if s != [] {
      UnescapeEscapeRoundTrip(s[1..], marks[1..]);
      var rest := EscapeQuotesAt(s[1..], marks[1..]);
      if marks[0] {
        assert EscapeQuotesAt(s, marks)[2..] == rest;
      } else {
        assert EscapeQuotesAt(s, marks)[1..] == rest;
      }
    }
  }

  function CountTrue(marks: seq<bool>): (n: nat)
    ensures n <= |marks|
  {
    if marks == [] then 0 else (if marks[0] then 1 else 0) + CountTrue(marks[1..])
  }

  lemma {:induction false} EscapeQuotesLength(s: string, marks: seq<bool>)
    requires QuoteMarks(s, marks)
    ensures |EscapeQuotesAt(s, marks)| == |s| + CountTrue(marks)
    decreases |s|
  {
    if s != [] {
      EscapeQuotesLength(s[1..], marks[1..]);
    }
  }

  /** A text without any `"` is left exactly as it is. */
  lemma {:induction false} EscapeWithoutQuotes(s: string, marks: seq<bool>)
    requires QuoteMarks(s, marks)
    requires '"' !in s
    ensures EscapeQuotesAt(s, marks) == s
    decreases |s|
  {
    if s != [] {
      assert s[0] in s;
      assert forall c :: c in s[1..] ==> c in s;
      EscapeWithoutQuotes(s[1..], marks[1..]);
    }
  }

  lemma {:induction false} EscapeQuotesConcat(a: string, ma: seq<bool>, b: string, mb: seq<bool>)
    requires QuoteMarks(a, ma) && QuoteMarks(b, mb)
    ensures QuoteMarks(a + b, ma + mb)
    ensures EscapeQuotesAt(a + b, ma + mb) == EscapeQuotesAt(a, ma) + EscapeQuotesAt(b, mb)
    decreases |a|
  {
    if a != [] {
      assert (a + b)[1..] == a[1..] + b;
      assert (ma + mb)[1..] == ma[1..] + mb;
      EscapeQuotesConcat(a[1..], ma[1..], b, mb);
    } else {
      assert a + b == b && ma + mb == mb;
    }
  }

  /** `s` with every `c` deleted. */
  function DropChar(s: string, c: char): (r: string)
    ensures c !in r
  {
    if s == [] then [] else (if s[0] == c then [] else [s[0]]) + DropChar(s[1..], c)
  }

  lemma {:induction false} DropCharConcat(a: string, b: string, c: char)
    ensures DropChar(a + b, c) == DropChar(a, c) + DropChar(b, c)
    decreases |a|
  {
    if a != [] {
      assert (a + b)[1..] == a[1..] + b;
      DropCharConcat(a[1..], b, c);
    } else {
      assert a + b == b;
    }
  }

  /** Escaping only adds backslashes: with all backslashes deleted, input and output agree. */
  lemma {:induction false} EscapeOnlyAddsBackslashes(s: string, marks: seq<bool>)
    requires QuoteMarks(s, marks)
    ensures DropChar(EscapeQuotesAt(s, marks), '\\') == DropChar(s, '\\')
    decreases |s|
  {
    if s != [] {
      EscapeOnlyAddsBackslashes(s[1..], marks[1..]);
      var head: string := if marks[0] then "\\\"" else [s[0]];
      DropCharConcat(head, EscapeQuotesAt(s[1..], marks[1..]), '\\');
      assert DropChar(head, '\\') == DropChar([s[0]], '\\');
      DropCharConcat([s[0]], s[1..], '\\');
      assert [s[0]] + s[1..] == s;
    }
  }

  // ---------------------------------------------------------------------------
  // Literal global replacement: s.replace(/lit/g, rep)
  // ---------------------------------------------------------------------------

  /** Replaces the non-overlapping occurrences of `pat`, found left to right, by `rep`. */
  function ReplaceAll(s: string, pat: string, rep: string): string
    requires |pat| > 0
    decreases |s|
  {
    if |s| < |pat| then s
    else if s[..|pat|] == pat then rep + ReplaceAll(s[|pat|..], pat, rep)
    else [s[0]] + ReplaceAll(s[1..], pat, rep)
  }

  /** Rewriting a pattern to itself changes nothing. */
  lemma {:induction false} ReplaceAllSelf(s: string, pat: string)
    requires |pat| > 0
    ensures ReplaceAll(s, pat, pat) == s
    decreases |s|
  {
    if |s| >= |pat| {
      if s[..|pat|] == pat {
        ReplaceAllSelf(s[|pat|..], pat);
        assert s == s[..|pat|] + s[|pat|..];
      } else {
        ReplaceAllSelf(s[1..], pat);
        assert s == [s[0]] + s[1..];
      }
    }
  }

  /** Every character of the result comes from the input or from the replacement. */
  lemma {:induction false} ReplaceAllChars(s: string, pat: string, rep: string, x: char)
    requires |pat| > 0
    requires x in ReplaceAll(s, pat, rep)
    ensures x in s || x in rep
    decreases |s|
  {
    if |s| >= |pat| {
      if s[..|pat|] == pat {
        if x !in rep {
          ReplaceAllChars(s[|pat|..], pat, rep, x);
          assert forall c :: c in s[|pat|..] ==> c in s;
        }
      } else if x != s[0] {
        ReplaceAllChars(s[1..], pat, rep, x);
        assert forall c :: c in s[1..] ==> c in s;
      }
    }
  }

  /** Replacing a single character by text that does not contain it removes it everywhere. */
  lemma {:induction false} ReplaceCharRemovesIt(s: string, c: char, rep: string)
    requires c !in rep
    ensures c !in ReplaceAll(s, [c], rep)
    decreases |s|
  {
    if s != [] {
      ReplaceCharRemovesIt(s[1..], c, rep);
    }
  }

  /** Strategy 4: every `'` becomes `"`, nothing else changes and the length is kept. */
  function SingleToDoubleQuotes(s: string): (r: string)
  {
    ReplaceAll(s, "'", "\"")
  }

  lemma {:induction false} SingleToDoubleQuotesPointwise(s: string)
    ensures |SingleToDoubleQuotes(s)| == |s|
    ensures forall i :: 0 <= i < |s| ==>
      SingleToDoubleQuotes(s)[i] == if s[i] == '\'' then '"' else s[i]
    decreases |s|
  {
    if s != [] {
      SingleToDoubleQuotesPointwise(s[1..]);
      var head: string := if s[0] == '\'' then "\"" else [s[0]];
      assert SingleToDoubleQuotes(s) == head + SingleToDoubleQuotes(s[1..]);
    }
  }

  // ---------------------------------------------------------------------------
  // Strategy 2: s.replace(/,(\s*[}\]])/g, '$1')
  // ---------------------------------------------------------------------------

  /** A comma whose next non-white-space character closes an object or an array. */
  predicate IsTrailingComma(s: string, i: nat)
    requires i < |s|
  {
    s[i] == ',' && NextSignificantIn(s, i + 1, {'}', ']'})
  }

  function RemoveTrailingCommasFrom(s: string, i: nat): string
    requires i <= |s|
    decreases |s| - i
  {
    if i == |s| then []
    else (if IsTrailingComma(s, i) then [] else [s[i]]) + RemoveTrailingCommasFrom(s, i + 1)
  }

  /** Deletes every trailing comma; the white space and the bracket after it stay. */
  function RemoveTrailingCommas(s: string): string
  {
    RemoveTrailingCommasFrom(s, 0)
  }

  /** Strategy 2 deletes commas and nothing else. */
  lemma {:induction false} RemoveTrailingCommasOnlyCommas(s: string, i: nat)
    requires i <= |s|
    ensures DropChar(RemoveTrailingCommasFrom(s, i), ',') == DropChar(s[i..], ',')
    decreases |s| - i
  {
    if i < |s| {
      RemoveTrailingCommasOnlyCommas(s, i + 1);
      var head: string := if IsTrailingComma(s, i) then [] else [s[i]];
      DropCharConcat(head, RemoveTrailingCommasFrom(s, i + 1), ',');
      assert s[i..] == [s[i]] + s[i + 1..];
      DropCharConcat([s[i]], s[i + 1..], ',');
    }
  }

  /** Text without a trailing comma is returned unchanged. */
  lemma {:induction false} RemoveTrailingCommasKeepsClean(s: string, i: nat)
    requires i <= |s|
    requires forall j :: i <= j < |s| ==> !IsTrailingComma(s, j)
    ensures RemoveTrailingCommasFrom(s, i) == s[i..]
    decreases |s| - i
  {
    if i < |s| {
      RemoveTrailingCommasKeepsClean(s, i + 1);
      assert s[i..] == [s[i]] + s[i + 1..];
    }
  }

  /** Every trailing comma is gone, and every other character keeps its place in order. */
  lemma {:induction false} RemoveTrailingCommasSelects(s: string, i: nat)
    requires i <= |s|
    ensures RemoveTrailingCommasFrom(s, i) == Select(s[i..], TrailingCommaKeep(s)[i..])
    decreases |s| - i
  {
    if i < |s| {
      RemoveTrailingCommasSelects(s, i + 1);
      assert s[i..][1..] == s[i + 1..];
      assert TrailingCommaKeep(s)[i..][1..] == TrailingCommaKeep(s)[i + 1..];
    }
  }

  function TrailingCommaKeep(s: string): (keep: seq<bool>)
    ensures |keep| == |s|
    ensures forall i :: 0 <= i < |s| ==> keep[i] == !IsTrailingComma(s, i)
  {
    seq(|s|, i requires 0 <= i < |s| => !IsTrailingComma(s, i))
  }

  /** The subsequence of `s` at the positions `keep` selects. */
  function Select(s: string, keep: seq<bool>): string
    requires |keep| == |s|
    decreases |s|
  {
    if s == [] then [] else (if keep[0] then [s[0]] else []) + Select(s[1..], keep[1..])
  }

  // ---------------------------------------------------------------------------
  // Strategy 3: s.replace(/([{,]\s*)([a-zA-Z_$][a-zA-Z0-9_$]*)\s*:/g, '$1"$2":')
  // ---------------------------------------------------------------------------

  predicate IsIdentifierStart(c: char)
  {
    'a' <= c <= 'z' || 'A' <= c <= 'Z' || c == '_' || c == '$'
  }

  predicate IsIdentifierPart(c: char)
  {
    IsIdentifierStart(c) || '0' <= c <= '9'
  }

  function IdentifierEnd(s: string, j: nat): (k: nat)
    requires j <= |s|
    ensures j <= k <= |s|
    ensures forall m :: j <= m < k ==> IsIdentifierPart(s[m])
    ensures k < |s| ==> !IsIdentifierPart(s[k])
    decreases |s| - j
  {
    if j == |s| || !IsIdentifierPart(s[j]) then j else IdentifierEnd(s, j + 1)
  }

  /** Where the pattern matches at `p`: the name is `s[nameStart..nameEnd]`, the colon at `colon`. */
  datatype KeyMatch = KeyMatch(nameStart: nat, nameEnd: nat, colon: nat)

  /**
   * The pattern matched at position `p`. Neither `\s*` nor the name can give
   * characters back usefully, so the first attempt at `p` decides it.
   */
  function UnquotedKeyAt(s: string, p: nat): (r: Option<KeyMatch>)
    requires p < |s|
    ensures r.Some? ==> p < r.value.nameStart < r.value.nameEnd <= r.value.colon < |s|
    ensures r.Some? ==> s[p] in "{," && s[r.value.colon] == ':'
    ensures r.Some? ==> forall m :: p < m < r.value.nameStart ==> IsWhitespace(s[m])
    ensures r.Some? ==> forall m :: r.value.nameEnd <= m < r.value.colon ==> IsWhitespace(s[m])
    ensures r.Some? ==> IsIdentifierStart(s[r.value.nameStart])
  {
    if s[p] != '{' && s[p] != ',' then None
    else
      var a := SkipWhitespace(s, p + 1);
      if a == |s| || !IsIdentifierStart(s[a]) then None
      else
        var b := IdentifierEnd(s, a + 1);
        var c := SkipWhitespace(s, b);
        if c < |s| && s[c] == ':' then Some(KeyMatch(a, b, c)) else None
  }

  /** The rewritten match: `$1"$2":`. */
  function QuotedKey(s: string, p: nat, m: KeyMatch): string
    requires p <= m.nameStart <= m.nameEnd <= |s|
  {
    s[p..m.nameStart] + "\"" + s[m.nameStart..m.nameEnd] + "\":"
  }

  /** What the scan writes at `p`, and where it continues. */
  function KeyStep(s: string, p: nat): (r: (string, nat))
    requires p < |s|
    ensures p < r.1 <= |s|
  {
    match UnquotedKeyAt(s, p)
    case Some(m) => (QuotedKey(s, p, m), m.colon + 1)
    case None => ([s[p]], p + 1)
  }

  function QuoteUnquotedKeysFrom(s: string, p: nat): string
    requires p <= |s|
    decreases |s| - p
  {
    if p == |s| then [] else KeyStep(s, p).0 + QuoteUnquotedKeysFrom(s, KeyStep(s, p).1)
  }

  /** Quotes a bare name after `{` or `,` when a colon follows it, dropping the space before the colon. */
  function QuoteUnquotedKeys(s: string): string
  {
    QuoteUnquotedKeysFrom(s, 0)
  }

  /** `s` without `"` characters and without white space. */
  function Skeleton(s: string): (r: string)
  {
    if s == [] then [] else (if IsQuoteOrSpace(s[0]) then [] else [s[0]]) + Skeleton(s[1..])
  }

  predicate IsQuoteOrSpace(c: char)
  {
    c == '"' || IsWhitespace(c)
  }

  lemma {:induction false} SkeletonConcat(a: string, b: string)
    ensures Skeleton(a + b) == Skeleton(a) + Skeleton(b)
    decreases |a|
  {
    if a != [] {
      assert (a + b)[1..] == a[1..] + b;
      SkeletonConcat(a[1..], b);
    } else {
      assert a + b == b;
    }
  }

  lemma {:induction false} SkeletonOfWhitespace(s: string)
    requires forall m :: 0 <= m < |s| ==> IsWhitespace(s[m])
    ensures Skeleton(s) == []
    decreases |s|
  {
    if s != [] {
      SkeletonOfWhitespace(s[1..]);
    }
  }

  /** One rewritten match has the skeleton of the text it replaces. */
  lemma {:induction false} SkeletonOfKeyMatch(lead: string, name: string, gap: string)
    requires forall m :: 0 <= m < |gap| ==> IsWhitespace(gap[m])
    ensures Skeleton(lead + name + gap + ":") == Skeleton(lead + "\"" + name + "\":")
  {
    var a := lead + name;
    var b := a + gap;
    SkeletonOfWhitespace(gap);
    SkeletonConcat(b, ":");
    SkeletonConcat(a, gap);
    SkeletonConcat(lead, name);
    assert Skeleton(b + ":") == Skeleton(lead) + Skeleton(name) + ":";
    assert Skeleton(":") == ":";
    var c := lead + "\"";
    var d := c + name;
    SkeletonConcat(d, "\":");
    SkeletonConcat(c, name);
    SkeletonConcat(lead, "\"");
    assert Skeleton("\"") == [];
    assert Skeleton("\":") == ":";
    assert Skeleton(d + "\":") == Skeleton(lead) + Skeleton(name) + ":";
  }

  /** Strategy 3 only inserts quotes and drops white space: the skeletons agree. */
  lemma {:induction false} QuoteUnquotedKeysSkeleton(s: string, p: nat)
    requires p <= |s|
    ensures Skeleton(QuoteUnquotedKeysFrom(s, p)) == Skeleton(s[p..])
    decreases |s| - p
  {
    if p == |s| {
      assert s[p..] == [];
    } else {
      var n := KeyStep(s, p).1;
      QuoteUnquotedKeysSkeleton(s, n);
      KeysUnfold(s, p);
      KeyStepSkeleton(s, p);
      SliceInTwo(s, p, n);
      SkeletonAppend(KeyStep(s, p).0, s[p..n], QuoteUnquotedKeysFrom(s, n), s[n..]);
    }
  }

  /** What one step writes has the skeleton of the text it consumes. */
  lemma KeyStepSkeleton(s: string, p: nat)
    requires p < |s|
    ensures Skeleton(KeyStep(s, p).0) == Skeleton(s[p..KeyStep(s, p).1])
  {
    match UnquotedKeyAt(s, p)
    case Some(m) =>
      KeyStepMatched(s, p, m);
      MatchedTextSkeleton(s, p, m.nameStart, m.nameEnd, m.colon);
    case None =>
      assert KeyStep(s, p) == ([s[p]], p + 1);
      assert s[p..p + 1] == [s[p]];
  }

  lemma KeysUnfold(s: string, p: nat)
    requires p < |s|
    ensures QuoteUnquotedKeysFrom(s, p) == KeyStep(s, p).0 + QuoteUnquotedKeysFrom(s, KeyStep(s, p).1)
  {
  }

  lemma KeyStepMatched(s: string, p: nat, m: KeyMatch)
    requires p < |s| && UnquotedKeyAt(s, p) == Some(m)
    ensures KeyStep(s, p) == (QuotedKey(s, p, m), m.colon + 1)
  {
  }

  lemma SkeletonAppend(x: string, y: string, t: string, u: string)
    requires Skeleton(x) == Skeleton(y) && Skeleton(t) == Skeleton(u)
    ensures Skeleton(x + t) == Skeleton(y + u)
  {
    SkeletonConcat(x, t);
    SkeletonConcat(y, u);
  }

  lemma {:induction false} MatchedTextSkeleton(s: string, p: nat, a: nat, b: nat, c: nat)
    requires p <= a <= b <= c < |s| && s[c] == ':'
    requires forall m :: b <= m < c ==> IsWhitespace(s[m])
    ensures Skeleton(s[p..c + 1]) == Skeleton(s[p..a] + "\"" + s[a..b] + "\":")
  {
    var lead, name, gap := s[p..a], s[a..b], s[b..c];
    SliceInFour(s, p, a, b, c);
    assert [s[c]] == ":";
    SkeletonOfKeyMatch(lead, name, gap);
  }

  lemma SliceInTwo(s: string, a: nat, b: nat)
    requires a <= b <= |s|
    ensures s[a..] == s[a..b] + s[b..]
  {
  }

  lemma SliceInFour(s: string, a: nat, b: nat, c: nat, d: nat)
    requires a <= b <= c <= d < |s|
    ensures s[a..d + 1] == s[a..b] + s[b..c] + s[c..d] + [s[d]]
  {
  }

  /** Where the pattern matches nowhere, strategy 3 returns its input. */
  lemma {:induction false} QuoteUnquotedKeysNoMatch(s: string, p: nat)
    requires p <= |s|
    requires forall q :: p <= q < |s| ==> UnquotedKeyAt(s, q).None?
    ensures QuoteUnquotedKeysFrom(s, p) == s[p..]
    decreases |s| - p
  {
    if p < |s| {
      KeysUnfold(s, p);
      QuoteUnquotedKeysNoMatch(s, p + 1);
      assert s[p..] == [s[p]] + s[p + 1..];
    }
  }

  // ---------------------------------------------------------------------------
  // s.replace(/(?<!\\)\//g, '\\/')
  // ---------------------------------------------------------------------------

  /** Writes `\/` for every `/` whose preceding input character is not `\`. */
  function EscapeSlashes(s: string, afterBackslash: bool): string
    decreases |s|
  {
    if s == [] then []
    else (if s[0] == '/' && !afterBackslash then "\\/" else [s[0]]) + EscapeSlashes(s[1..], s[0] == '\\')
  }

  /** Every `/` is preceded by `\` (the first character may be `/` only when `leading` allows it). */
  predicate SlashesEscaped(t: string, leading: bool)
  {
    (|t| > 0 && t[0] == '/' ==> leading) &&
    forall k :: 0 < k < |t| && t[k] == '/' ==> t[k - 1] == '\\'
  }

  lemma {:induction false} EscapeSlashesEscapes(s: string, afterBackslash: bool)
    ensures SlashesEscaped(EscapeSlashes(s, afterBackslash), afterBackslash)
    decreases |s|
  {
    if s != [] {
      EscapeSlashesEscapes(s[1..], s[0] == '\\');
      var head: string := if s[0] == '/' && !afterBackslash then "\\/" else [s[0]];
      var rest := EscapeSlashes(s[1..], s[0] == '\\');
      var t := head + rest;
      forall k | 0 < k < |t| && t[k] == '/'
        ensures t[k - 1] == '\\'
      {
        if k >= |head| {
          assert rest[k - |head|] == '/';
          if k == |head| {
            assert head[|head| - 1] == '\\';
          }
        }
      }
    }
  }

  /** Replacing a character other than `/` and `\` by text without `/` keeps every `/` escaped. */
  lemma {:induction false} ReplaceKeepsSlashesEscaped(t: string, c: char, rep: string, leading: bool)
    requires c != '/' && c != '\\' && '/' !in rep
    requires SlashesEscaped(t, leading)
    ensures SlashesEscaped(ReplaceAll(t, [c], rep), leading)
    decreases |t|
  {
    if t != [] {
      assert SlashesEscaped(t[1..], t[0] == '\\') by {
        forall k | 0 < k < |t[1..]| && t[1..][k] == '/'
          ensures t[1..][k - 1] == '\\'
        {
          assert t[k + 1] == '/';
        }
      }
      ReplaceKeepsSlashesEscaped(t[1..], c, rep, t[0] == '\\');
      var head: string := if t[0] == c then rep else [t[0]];
      var rest := ReplaceAll(t[1..], [c], rep);
      assert t[..1] == [t[0]];
      assert ReplaceAll(t, [c], rep) == head + rest;
      var u := head + rest;
      forall k | 0 < k < |u| && u[k] == '/'
        ensures u[k - 1] == '\\'
      {
        if k >= |head| {
          var k' := k - |head|;
          assert rest[k'] == '/';
          if k' == 0 {
            if t[0] == c { assert false; }
            assert u[k - 1] == t[0];
          } else {
            assert u[k - 1] == rest[k' - 1];
          }
        }
      }
    }
  }
}
