/** String handling shared by the back end (Python `str`) and the front end
    (JavaScript strings): whitespace, strip/trim, join, slicing, ASCII
    lower-casing, suffix tests and decimal rendering of integers. */
module Text {
  import opened Wrappers

  /** JavaScript `value || fallback` on a nullable string: the value unless it
      is null or empty. */
  function OrElse(value: Option<string>, fallback: string): (r: string)
    ensures r == fallback || (value.Some? && r == value.value && r != [])
    ensures value.Some? && value.value != [] ==> r == value.value
  {
    if value.Some? && value.value != [] then value.value else fallback
  }

  /** Python's `str.isspace`: the code points `strip()` removes. */
  predicate IsPySpace(c: char) {
    c == ' ' || c == '\t' || c == '\n' || c == '\r' || c == '\U{B}' || c == '\U{C}'
    || ('\U{1C}' <= c <= '\U{1F}') || c == '\U{85}' || c == '\U{A0}' || c == '\U{1680}'
    || ('\U{2000}' <= c <= '\U{200A}') || c == '\U{2028}' || c == '\U{2029}' || c == '\U{202F}'
    || c == '\U{205F}' || c == '\U{3000}'
  }

  /** ECMAScript WhiteSpace and LineTerminator: the code points `trim()` removes. */
  predicate IsJsSpace(c: char) {
    c == ' ' || c == '\t' || c == '\n' || c == '\r' || c == '\U{B}' || c == '\U{C}'
    || c == '\U{A0}' || c == '\U{FEFF}' || c == '\U{1680}'
    || ('\U{2000}' <= c <= '\U{200A}') || c == '\U{2028}' || c == '\U{2029}' || c == '\U{202F}'
    || c == '\U{205F}' || c == '\U{3000}'
  }

  /** Drops the leading characters that satisfy `space`. */
  function TrimStart(s: string, space: char -> bool): (r: string)
    ensures |r| <= |s| && r == s[|s| - |r|..]
    ensures forall k :: 0 <= k < |s| - |r| ==> space(s[k])
    ensures r == [] || !space(r[0])
  {
    if |s| > 0 && space(s[0]) then TrimStart(s[1..], space) else s
  }

  /** Drops the trailing characters that satisfy `space`. */
  function TrimEnd(s: string, space: char -> bool): (r: string)
    ensures |r| <= |s| && r == s[..|r|]
    ensures forall k :: |r| <= k < |s| ==> space(s[k])
    ensures r == [] || !space(r[|r| - 1])
  {
    if |s| > 0 && space(s[|s| - 1]) then TrimEnd(s[..|s| - 1], space) else s
  }

  function Strip(s: string, space: char -> bool): string {
    TrimEnd(TrimStart(s, space), space)
  }

  /** Python `s.strip()`. */
  function PyStrip(s: string): string { Strip(s, IsPySpace) }

  /** JavaScript `s.trim()`. */
  function JsTrim(s: string): string { Strip(s, IsJsSpace) }

  /** Where the stripped text starts inside the original. */
  function StripOffset(s: string, space: char -> bool): nat {
    |s| - |TrimStart(s, space)|
  }

  /** A stripped string is an infix of the input whose outer characters are
      not white space, and everything cut away is white space. */
  lemma StripShape(s: string, space: char -> bool)
    ensures var r, i := Strip(s, space), StripOffset(s, space);
      i + |r| <= |s| && r == s[i..i + |r|]
      && (forall k :: 0 <= k < i ==> space(s[k]))
      && (forall k :: i + |r| <= k < |s| ==> space(s[k]))
      && (r == [] || (!space(r[0]) && !space(r[|r| - 1])))
  {
    var t := TrimStart(s, space);
    var r := TrimEnd(t, space);
    if r != [] {
      assert r[0] == t[0];
    }
  }

  /** Stripping leaves nothing exactly when every character is white space. */
  lemma StripEmptyIff(s: string, space: char -> bool)
    ensures Strip(s, space) == [] <==> forall k :: 0 <= k < |s| ==> space(s[k])
  {
    StripShape(s, space);
  }

  /** A string with no white space at either end is left as it is; in
      particular stripping twice is stripping once. */
  lemma StripKeepsTrimmed(s: string, space: char -> bool)
    requires s == [] || (!space(s[0]) && !space(s[|s| - 1]))
    ensures Strip(s, space) == s
  {
    assert TrimStart(s, space) == s;
  }

  /** Python `sep.join(parts)`. */
  function Join(parts: seq<string>, sep: string): (r: string)
    ensures parts == [] ==> r == []
    ensures |parts| == 1 ==> r == parts[0]
  {
    if parts == [] then [] else if |parts| == 1 then parts[0]
    else parts[0] + sep + Join(parts[1..], sep)
  }

  /** Python `s[:n]`: at most the first `n` characters. */
  function Take(s: string, n: nat): (r: string)
    ensures |r| == if |s| <= n then |s| else n
    ensures r == s[..|r|]
  {
    if |s| <= n then s else s[..n]
  }

  /** The ASCII part of `str.lower()`. */
  function LowerChar(c: char): char {
    if 'A' <= c <= 'Z' then (c as int + 32) as char else c
  }

  function AsciiLower(s: string): (r: string)
    ensures |r| == |s|
    ensures forall k :: 0 <= k < |s| ==> r[k] == LowerChar(s[k])
  {
    seq(|s|, k requires 0 <= k < |s| => LowerChar(s[k]))
  }

  /** Python `s.endswith(suffix)`. */
  predicate EndsWith(s: string, suffix: string) {
    |suffix| <= |s| && s[|s| - |suffix|..] == suffix
  }

  // ---- decimal rendering of integers (JavaScript number-to-string on integers)

  function DigitChar(d: nat): char
    requires d < 10
  {
    "0123456789"[d]
  }

  predicate IsDigit(c: char) { '0' <= c <= '9' }

  function DigitValue(c: char): nat
    requires IsDigit(c)
  {
    c as int - '0' as int
  }

  /** The decimal digits of `n`, without leading zeros. */
  function NatDigits(n: nat): (r: string)
    ensures r != []
    ensures forall k :: 0 <= k < |r| ==> IsDigit(r[k])
    ensures n > 0 ==> r[0] != '0'
  {
    if n < 10 then [DigitChar(n)] else NatDigits(n / 10) + [DigitChar(n % 10)]
  }

  /** A number as JavaScript prints an integer value: a minus sign and the digits. */
  function IntToDecimal(i: int): string {
    if i < 0 then "-" + NatDigits(-i) else NatDigits(i)
  }

  /** Reads a string of digits back as a number. */
  function ParseDigits(s: string): nat
    requires forall k :: 0 <= k < |s| ==> IsDigit(s[k])
  {
    if s == [] then 0 else 10 * ParseDigits(s[..|s| - 1]) + DigitValue(s[|s| - 1])
  }

  /** Reads a decimal rendering back as an integer. */
  function ParseDecimal(s: string): int
    requires s != []
    requires forall k :: 0 <= k < |s| ==> IsDigit(s[k]) || (k == 0 && s[k] == '-')
  {
    if s[0] == '-' then 0 - ParseDigits(s[1..]) as int else ParseDigits(s)
  }

  lemma {:induction false} NatDigitsRoundTrip(n: nat)
    ensures ParseDigits(NatDigits(n)) == n
  {
    if n >= 10 {
      NatDigitsRoundTrip(n / 10);
      var s := NatDigits(n);
      assert s[..|s| - 1] == NatDigits(n / 10);
    }
  }

  /** The rendering of an integer reads back as that integer, so distinct
      numbers always get distinct labels. */
  lemma IntToDecimalRoundTrip(i: int)
    ensures var s := IntToDecimal(i);
      s != [] && (forall k :: 0 <= k < |s| ==> IsDigit(s[k]) || (k == 0 && s[k] == '-'))
      && ParseDecimal(s) == i
  {
    var s := IntToDecimal(i);
    if i < 0 {
      NatDigitsRoundTrip(-i);
      assert s[1..] == NatDigits(-i);
    } else {
      NatDigitsRoundTrip(i);
    }
  }
}
