/**
 * JavaScript string primitives the source relies on: the character class `\s`,
 * `String.prototype.trim`, `toLowerCase`, `includes`, and `Number.prototype.toString(16)`.
 */
module JsText {

  /** The characters JavaScript's `\s` and `trim` treat as white space (ECMAScript WhiteSpace and LineTerminator). */
  predicate IsWhitespace(c: char)
  {
    var n := c as int;
    (0x09 <= n <= 0x0D) || n == 0x20 || n == 0xA0 || n == 0x1680 ||
    (0x2000 <= n <= 0x200A) || n == 0x2028 || n == 0x2029 || n == 0x202F ||
    n == 0x205F || n == 0x3000 || n == 0xFEFF
  }

  /** The first index at or after `j` that is not white space, or `|s|` when there is none. */
  function SkipWhitespace(s: string, j: nat): (k: nat)
    requires j <= |s|
    ensures j <= k <= |s|
    ensures forall m :: j <= m < k ==> IsWhitespace(s[m])
    ensures k < |s| ==> !IsWhitespace(s[k])
    decreases |s| - j
  {
    if j == |s| || !IsWhitespace(s[j]) then j else SkipWhitespace(s, j + 1)
  }

  /** Whether the first non-white-space character at or after `j` is one of `cs`. */
  predicate NextSignificantIn(s: string, j: nat, cs: set<char>)
    requires j <= |s|
  {
    var k := SkipWhitespace(s, j);
    k < |s| && s[k] in cs
  }

  function LowerChar(c: char): (d: char)
    ensures !('A' <= d <= 'Z')
    ensures !('A' <= c <= 'Z') ==> d == c
  {
    if 'A' <= c <= 'Z' then (c as int + 32) as char else c
  }

  predicate IsLowerCase(s: string)
  {
    forall i :: 0 <= i < |s| ==> !('A' <= s[i] <= 'Z')
  }

  /** `toLowerCase`, restricted to the ASCII letters. */
  function ToLower(s: string): (r: string)
    ensures |r| == |s| && IsLowerCase(r)
    ensures forall i :: 0 <= i < |s| ==> r[i] == LowerChar(s[i])
  {
    seq(|s|, i requires 0 <= i < |s| => LowerChar(s[i]))
  }

  lemma ToLowerIdempotent(s: string)
    ensures ToLower(ToLower(s)) == ToLower(s)
  {
  }

  /** `trim`: the text without leading and trailing white space. */
  function Trim(s: string): (r: string)
    ensures |r| <= |s|
    ensures r == [] || (!IsWhitespace(r[0]) && !IsWhitespace(r[|r| - 1]))
    ensures r == [] <==> forall i :: 0 <= i < |s| ==> IsWhitespace(s[i])
    decreases |s|
  {
    if s == [] then []
    else if IsWhitespace(s[0]) then Trim(s[1..])
    else if IsWhitespace(s[|s| - 1]) then Trim(s[..|s| - 1])
    else s
  }

  predicate ContainsAt(s: string, sub: string, i: nat)
  {
    i + |sub| <= |s| && s[i..i + |sub|] == sub
  }

  /** `s.includes(sub)`. */
  predicate Contains(s: string, sub: string)
  {
    exists i :: 0 <= i <= |s| - |sub| && ContainsAt(s, sub, i)
  }

  function HexDigit(d: nat): (c: char)
    requires d < 16
  {
    "0123456789abcdef"[d]
  }

  /** `n.toString(16)` for a non-negative integer: lower-case hex without leading zeros. */
  function ToHex(n: nat): (r: string)
    ensures |r| >= 1
    ensures forall i :: 0 <= i < |r| ==> r[i] in "0123456789abcdef"
    ensures r[0] == '0' ==> n == 0
    decreases n
  {
    if n < 16 then [HexDigit(n)] else ToHex(n / 16) + [HexDigit(n % 16)]
  }

  function HexValue(c: char): (d: nat)
    ensures d < 16
  {
    if '0' <= c <= '9' then c as int - '0' as int
    else if 'a' <= c <= 'f' then c as int - 'a' as int + 10
    else 0
  }

  /** Reads a lower-case hex numeral back; the partner of `ToHex`. */
  function FromHex(s: string): nat
  {
    if s == [] then 0 else 16 * FromHex(s[..|s| - 1]) + HexValue(s[|s| - 1])
  }

  lemma {:induction false} HexRoundTrip(n: nat)
    ensures FromHex(ToHex(n)) == n
    decreases n
  {
    if n >= 16 {
      HexRoundTrip(n / 16);
      FromHexSnoc(ToHex(n / 16), HexDigit(n % 16));
    }
    HexDigitValue(n % 16);
  }

  lemma FromHexSnoc(s: string, c: char)
    ensures FromHex(s + [c]) == 16 * FromHex(s) + HexValue(c)
  {
    assert (s + [c])[..|s|] == s;
  }

  lemma HexDigitValue(d: nat)
    requires d < 16
    ensures HexValue(HexDigit(d)) == d
  {
  }

  /** A value below 16^k takes at most k hex digits. */
  lemma {:induction false} HexLength(n: nat, k: nat)
    requires n < Pow16(k)
    ensures |ToHex(n)| <= if k == 0 then 1 else k
    decreases n
  {
    if n >= 16 {
      if k <= 1 {
        assert false;
      } else {
        HexLength(n / 16, k - 1);
      }
    }
  }

  function Pow16(k: nat): (p: nat)
    ensures p >= 1
  {
    if k == 0 then 1 else 16 * Pow16(k - 1)
  }

  function DecimalDigit(d: nat): (c: char)
    requires d < 10
  {
    "0123456789"[d]
  }

  /** `String(n)` for a non-negative integer index. */
  function NatToDecimal(n: nat): (r: string)
    ensures |r| >= 1
    decreases n
  {
    if n < 10 then [DecimalDigit(n)] else NatToDecimal(n / 10) + [DecimalDigit(n % 10)]
  }
}
