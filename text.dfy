/**
 * The JavaScript string operations the application relies on:
 * `String.prototype.trim`, substring containment, `parseInt` and
 * `Number.prototype.toString`, on strings as sequences of code points.
 */
module Text {
  import opened Wrappers

  /** JavaScript's `value || fallback` on a string that may be absent: absent and empty both fall back. */
  function OrElse(value: Option<string>, fallback: string): (r: string)
    ensures r == fallback || (value.Some? && r == value.value)
    ensures r == "" <==> (value.None? || value.value == "") && fallback == ""
    ensures value.Some? && value.value != "" ==> r == value.value
  {
    if value.Some? && value.value != "" then value.value else fallback
  }

  /** ECMAScript WhiteSpace and LineTerminator code points: what `trim` and `parseInt` skip. */
  predicate IsWhitespace(c: char) {
    || c == '\t' || c == '\n' || c == '\U{000B}' || c == '\U{000C}' || c == '\r' || c == ' '
    || c == '\U{00A0}' || c == '\U{1680}' || ('\U{2000}' <= c <= '\U{200A}')
    || c == '\U{2028}' || c == '\U{2029}' || c == '\U{202F}' || c == '\U{205F}'
    || c == '\U{3000}' || c == '\U{FEFF}'
  }

  predicate AllWhitespace(s: string) {
    forall i :: 0 <= i < |s| ==> IsWhitespace(s[i])
  }

  /** The index of the first non-whitespace character of `s` at or after `i`, or `|s|`. */
  function SkipWhitespace(s: string, i: nat): (k: nat)
    requires i <= |s|
    ensures i <= k <= |s|
    ensures forall j :: i <= j < k ==> IsWhitespace(s[j])
    ensures k < |s| ==> !IsWhitespace(s[k])
    decreases |s| - i
  {
    if i < |s| && IsWhitespace(s[i]) then SkipWhitespace(s, i + 1) else i
  }

  /** The index just past the last non-whitespace character of `s[lo..hi]`, or `lo`. */
  function SkipWhitespaceBack(s: string, lo: nat, hi: nat): (k: nat)
    requires lo <= hi <= |s|
    ensures lo <= k <= hi
    ensures forall j :: k <= j < hi ==> IsWhitespace(s[j])
    ensures k > lo ==> !IsWhitespace(s[k - 1])
    decreases hi
  {
    if hi > lo && IsWhitespace(s[hi - 1]) then SkipWhitespaceBack(s, lo, hi - 1) else hi
  }

  /** `s.trimStart()` (the part `parseInt` reads): drops the leading whitespace and nothing else. */
  function TrimStart(s: string): string {
    s[SkipWhitespace(s, 0)..]
  }

  /** `r` is what is left of `s` once `lo` whitespace characters are cut off the front and only whitespace off the back. */
  predicate TrimmedAt(s: string, r: string, lo: int) {
    && 0 <= lo <= |s| - |r| && r == s[lo..lo + |r|]
    && (forall j :: 0 <= j < lo ==> IsWhitespace(s[j]))
    && (forall j :: lo + |r| <= j < |s| ==> IsWhitespace(s[j]))
  }

  /**
   * `s.trim()`: the part of `s` between its leading and its trailing
   * whitespace. It is empty exactly when `s` is all whitespace, and
   * otherwise starts and ends with a non-whitespace character.
   */
  function Trim(s: string): (r: string)
    ensures exists lo :: TrimmedAt(s, r, lo)
    ensures r == [] <==> AllWhitespace(s)
    ensures r != [] ==> !IsWhitespace(r[0]) && !IsWhitespace(r[|r| - 1])
  {
    var lo := SkipWhitespace(s, 0);
    var hi := SkipWhitespaceBack(s, lo, |s|);
    assert TrimmedAt(s, s[lo..hi], lo);
    assert hi > lo ==> s[lo..hi][0] == s[lo] && s[lo..hi][hi - lo - 1] == s[hi - 1];
    s[lo..hi]
  }

  /** JavaScript's `!s.trim()`: the string is empty or whitespace only. */
  predicate IsBlank(s: string)
    ensures IsBlank(s) <==> AllWhitespace(s)
  {
    Trim(s) == ""
  }

  /** Trimming twice trims nothing more. */
  lemma TrimIdempotent(s: string)
    ensures Trim(Trim(s)) == Trim(s)
  {
    var r := Trim(s);
    if r != [] {
      assert SkipWhitespace(r, 0) == 0;
      assert SkipWhitespaceBack(r, 0, |r|) == |r|;
    }
  }

  predicate StartsWith(s: string, prefix: string) {
    |prefix| <= |s| && s[..|prefix|] == prefix
  }

  /** `sub` occurs in `s` as a contiguous substring (the empty string occurs everywhere). */
  predicate Contains(s: string, sub: string)
    decreases |s|
  {
    StartsWith(s, sub) || (s != [] && Contains(s[1..], sub))
  }

  /** `sub` occurs in `s` starting at index `k`. */
  predicate OccursAt(s: string, sub: string, k: int) {
    0 <= k <= |s| - |sub| && s[k..k + |sub|] == sub
  }

  /** Contains agrees with the definition by position: `sub` starts at some index of `s`. */
  lemma {:induction false} ContainsIffOccursAt(s: string, sub: string)
    ensures Contains(s, sub) <==> exists k :: OccursAt(s, sub, k)
    decreases |s|
  {
    if StartsWith(s, sub) {
      assert OccursAt(s, sub, 0);
    } else if s != [] {
      ContainsIffOccursAt(s[1..], sub);
      if Contains(s[1..], sub) {
        var k :| OccursAt(s[1..], sub, k);
        assert s[k + 1..k + 1 + |sub|] == s[1..][k..k + |sub|];
        assert OccursAt(s, sub, k + 1);
      }
      if exists k :: OccursAt(s, sub, k) {
        var k :| OccursAt(s, sub, k);
        assert k != 0;
        assert s[1..][k - 1..k - 1 + |sub|] == s[k..k + |sub|];
        assert OccursAt(s[1..], sub, k - 1);
      }
    }
  }

  /** The value of a digit in radixes up to 36, as `parseInt` reads it. */
  function DigitValue(c: char): Option<nat> {
    if '0' <= c <= '9' then Some(c as int - '0' as int)
    else if 'a' <= c <= 'z' then Some(c as int - 'a' as int + 10)
    else if 'A' <= c <= 'Z' then Some(c as int - 'A' as int + 10)
    else None
  }

  predicate IsDigit(c: char, radix: nat) {
    DigitValue(c).Some? && DigitValue(c).value < radix
  }

  predicate AllDigits(s: string, radix: nat) {
    forall i :: 0 <= i < |s| ==> IsDigit(s[i], radix)
  }

  /** The longest prefix of `s` made of digits of `radix`. */
  function DigitPrefix(s: string, radix: nat): (r: string)
    ensures |r| <= |s| && r == s[..|r|] && AllDigits(r, radix)
    ensures |r| < |s| ==> !IsDigit(s[|r|], radix)
  {
    if s != [] && IsDigit(s[0], radix) then [s[0]] + DigitPrefix(s[1..], radix) else []
  }

  /** The number a digit string denotes, most significant digit first. */
  function DigitsValue(d: string, radix: nat): nat
    requires AllDigits(d, radix)
  {
    if d == [] then 0
    else DigitsValue(d[..|d| - 1], radix) * radix + DigitValue(d[|d| - 1]).value
  }

  /** The magnitude `parseInt` reads once whitespace and sign are gone: `0x`/`0X` selects radix 16. */
  function ParseMagnitude(u: string): Option<nat> {
    var hex := |u| >= 2 && u[0] == '0' && (u[1] == 'x' || u[1] == 'X');
    var radix := if hex then 16 else 10;
    var digits := DigitPrefix(if hex then u[2..] else u, radix);
    if digits == [] then None else Some(DigitsValue(digits, radix))
  }

  /** An optional leading `-` or `+`, then the magnitude. */
  function ParseSigned(t: string): Option<int> {
    if t != [] && t[0] == '-' then
      match ParseMagnitude(t[1..])
      case None => None
      case Some(m) => Some(-(m as int))
    else if t != [] && t[0] == '+' then
      match ParseMagnitude(t[1..])
      case None => None
      case Some(m) => Some(m as int)
    else
      match ParseMagnitude(t)
      case None => None
      case Some(m) => Some(m as int)
  }

  /**
   * `parseInt(s)` with no radix: skip leading whitespace, read an optional
   * sign, read a `0x`/`0X` prefix as radix 16 (radix 10 otherwise), then
   * read the longest run of digits and ignore whatever follows. No digits
   * at all gives NaN, here `None`.
   */
  function ParseInt(s: string): (r: Option<int>)
    ensures TrimStart(s) == [] ==> r.None?
  {
    ParseSigned(TrimStart(s))
  }

  function DigitChar(d: nat): (c: char)
    requires d < 10
    ensures IsDigit(c, 10) && DigitValue(c) == Some(d)
  {
    ('0' as int + d) as char
  }

  /** The decimal numeral of `n`, no leading zeros. */
  function NatToString(n: nat): (r: string)
    ensures r != [] && AllDigits(r, 10)
    ensures n == 0 ==> r == "0"
    ensures n > 0 ==> r[0] != '0'
  {
    if n < 10 then [DigitChar(n)]
    else
      var front := NatToString(n / 10);
      assert (front + [DigitChar(n % 10)])[0] == front[0];
      front + [DigitChar(n % 10)]
  }

  /** `n.toString()` for an integer `n`. */
  function IntToString(n: int): (r: string)
    ensures r != [] && (r[0] == '-' <==> n < 0)
    ensures n >= 0 ==> AllDigits(r, 10)
  {
    assert !IsDigit('-', 10);
    if n < 0 then "-" + NatToString(-n) else NatToString(n)
  }

  lemma {:induction false} NatToStringValue(n: nat)
    ensures DigitsValue(NatToString(n), 10) == n
  {
    var r := NatToString(n);
    if n >= 10 {
      NatToStringValue(n / 10);
      assert r[..|r| - 1] == NatToString(n / 10);
    }
  }

  lemma {:induction false} DigitPrefixOfDigits(s: string, radix: nat)
    requires AllDigits(s, radix)
    ensures DigitPrefix(s, radix) == s
  {
    if s != [] {
      assert IsDigit(s[0], radix);
      DigitPrefixOfDigits(s[1..], radix);
    }
  }

  lemma DigitIsNotSpecial(c: char)
    requires IsDigit(c, 10)
    ensures !IsWhitespace(c) && c != '-' && c != '+' && c != 'x' && c != 'X'
  {
  }

  /** A decimal numeral has no `0x` prefix, so `parseInt` reads all of it in radix 10. */
  lemma MagnitudeOfDecimal(u: string)
    requires u != [] && AllDigits(u, 10)
    ensures ParseMagnitude(u) == Some(DigitsValue(u, 10))
  {
    if |u| >= 2 { DigitIsNotSpecial(u[1]); }
    DigitPrefixOfDigits(u, 10);
  }

  /** A string that does not start with whitespace is left as it is by `trimStart`. */
  lemma TrimStartNoop(t: string)
    requires t != [] && !IsWhitespace(t[0])
    ensures TrimStart(t) == t
  {
    assert SkipWhitespace(t, 0) == 0;
  }

  /** `parseInt` reads a decimal numeral back as its value. */
  lemma ParseDecimal(u: string)
    requires u != [] && AllDigits(u, 10)
    ensures ParseInt(u) == Some(DigitsValue(u, 10))
  {
    DigitIsNotSpecial(u[0]);
    TrimStartNoop(u);
    MagnitudeOfDecimal(u);
  }

  /** `parseInt` reads a minus sign and a decimal numeral back as the negated value. */
  lemma ParseNegatedDecimal(u: string)
    requires u != [] && AllDigits(u, 10)
    ensures ParseInt("-" + u) == Some(-(DigitsValue(u, 10) as int))
  {
    var t := "-" + u;
    TrimStartNoop(t);
    assert t[1..] == u;
    MagnitudeOfDecimal(u);
  }

  /** `parseInt(n.toString())` gives `n` back. */
  lemma ParseIntOfIntToString(n: int)
    ensures ParseInt(IntToString(n)) == Some(n)
  {
    var m: nat := if n < 0 then -n else n;
    NatToStringValue(m);
    if n < 0 { ParseNegatedDecimal(NatToString(m)); } else { ParseDecimal(NatToString(m)); }
  }

  /** Distinct integers have distinct numerals. */
  lemma IntToStringInjective(a: int, b: int)
    requires IntToString(a) == IntToString(b)
    ensures a == b
  {
    ParseIntOfIntToString(a);
    ParseIntOfIntToString(b);
  }
}
