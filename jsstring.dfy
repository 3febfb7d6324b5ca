/**
 * The few JavaScript string and number primitives the explorer relies on:
 * `startsWith`, `trim`, the regular-expression character classes it uses,
 * and `Math.round` applied to an exact non-negative ratio.
 */
module JsString {

  /** `s.startsWith(prefix)` */
  predicate StartsWith(s: string, prefix: string)
  {
    |prefix| <= |s| && s[..|prefix|] == prefix
  }

  /** The characters `String.prototype.trim` removes (WhiteSpace and LineTerminator of ECMA-262). */
  predicate IsJsWhitespace(c: char)
  {
    c == '\t' || c == '\n' || c == '\U{B}' || c == '\U{C}' || c == '\r' || c == ' '
    || c == '\U{A0}' || c == '\U{1680}' || ('\U{2000}' <= c <= '\U{200A}')
    || c == '\U{2028}' || c == '\U{2029}' || c == '\U{202F}' || c == '\U{205F}'
    || c == '\U{3000}' || c == '\U{FEFF}'
  }

  /** The characters `.` does not match in a regular expression without the `s` flag. */
  predicate IsLineTerminator(c: char)
  {
    c == '\n' || c == '\r' || c == '\U{2028}' || c == '\U{2029}'
  }

  /** `\d` without the `u` flag */
  predicate IsAsciiDigit(c: char)
  {
    '0' <= c <= '9'
  }

  /** `[a-fA-F0-9]` */
  predicate IsHexChar(c: char)
  {
    IsAsciiDigit(c) || 'a' <= c <= 'f' || 'A' <= c <= 'F'
  }

  function HexCharValue(c: char): (v: nat)
    requires IsHexChar(c)
    ensures v < 16
  {
    if IsAsciiDigit(c) then c as nat - '0' as nat
    else if 'a' <= c <= 'f' then c as nat - 'a' as nat + 10
    else c as nat - 'A' as nat + 10
  }

  /** `/^\d+$/.test(s)` */
  predicate AllDigits(s: string)
  {
    |s| > 0 && forall i | 0 <= i < |s| :: IsAsciiDigit(s[i])
  }

  /** `/^[a-fA-F0-9]{64}$/.test(s)` */
  predicate IsHex64(s: string)
  {
    |s| == 64 && forall i | 0 <= i < |s| :: IsHexChar(s[i])
  }

  function TrimStart(s: string): (r: string)
    ensures |r| <= |s| && r == s[|s| - |r|..]
    ensures r == [] || !IsJsWhitespace(r[0])
    ensures forall i | 0 <= i < |s| - |r| :: IsJsWhitespace(s[i])
  {
    if s != [] && IsJsWhitespace(s[0]) then TrimStart(s[1..]) else s
  }

  function TrimEnd(s: string): (r: string)
    ensures |r| <= |s| && r == s[..|r|]
    ensures r == [] || !IsJsWhitespace(r[|r| - 1])
    ensures forall i | |r| <= i < |s| :: IsJsWhitespace(s[i])
  {
    if s != [] && IsJsWhitespace(s[|s| - 1]) then TrimEnd(s[..|s| - 1]) else s
  }

  /** `s.trim()`: no whitespace at either end, and only whitespace was removed. */
  function Trim(s: string): (r: string)
    ensures r == [] || (!IsJsWhitespace(r[0]) && !IsJsWhitespace(r[|r| - 1]))
    ensures |TrimStart(s)| <= |s| && |r| <= |TrimStart(s)|
    ensures r == s[|s| - |TrimStart(s)|..|s| - |TrimStart(s)| + |r|]
  {
    TrimEnd(TrimStart(s))
  }

  /** A string with no whitespace at either end is its own trim. */
  lemma TrimKeeps(s: string)
    requires s == [] || (!IsJsWhitespace(s[0]) && !IsJsWhitespace(s[|s| - 1]))
    ensures Trim(s) == s
  {
    assert TrimStart(s) == s;
  }

  lemma TrimIdempotent(s: string)
    ensures Trim(Trim(s)) == Trim(s)
  {
    TrimKeeps(Trim(s));
  }

  /**
   * `Math.round(p / q)` for an exact ratio with a positive denominator:
   * the nearest integer, halves rounded up.
   */
  function RoundDiv(p: int, q: int): (r: int)
    requires q > 0
    ensures 2 * q * r <= 2 * p + q < 2 * q * r + 2 * q
  {
    (2 * p + q) / (2 * q)
  }

  /** `Math.round(100 * part / whole)`, and 0 for an empty whole, as every privacy score in the explorer is computed. */
  function Percent(part: nat, whole: nat): (r: int)
    requires part <= whole
    ensures 0 <= r <= 100
    ensures whole == 0 ==> r == 0
    ensures part == whole && whole > 0 ==> r == 100
    ensures part == 0 ==> r == 0
  {
    if whole == 0 then 0 else PercentRange(part, whole); RoundDiv(100 * part, whole)
  }

  lemma PercentRange(part: nat, whole: nat)
    requires 0 < whole && part <= whole
    ensures 0 <= RoundDiv(100 * part, whole) <= 100
    ensures part == whole ==> RoundDiv(100 * part, whole) == 100
    ensures part == 0 ==> RoundDiv(100 * part, whole) == 0
  {
    var r := RoundDiv(100 * part, whole);
    assert 2 * whole * r <= 200 * part + whole <= 201 * whole;
    assert 200 * part + whole < 2 * whole * r + 2 * whole;
    if r > 100 {
      assert 2 * whole * r >= 2 * whole * 101 by { MulLeftMono(2 * whole, 101, r); }
      assert false;
    }
    if r < 0 {
      assert 2 * whole * r <= 2 * whole * -1 by { MulLeftMono(2 * whole, r, -1); }
      assert false;
    }
    if part == whole && r != 100 {
      assert r < 100;
      assert 2 * whole * r <= 2 * whole * 99 by { MulLeftMono(2 * whole, r, 99); }
      assert false;
    }
    if part == 0 && r != 0 {
      assert r >= 1;
      assert 2 * whole * r >= 2 * whole * 1 by { MulLeftMono(2 * whole, 1, r); }
      assert false;
    }
  }

  lemma MulLeftMono(k: int, a: int, b: int)
    requires k >= 0 && a <= b
    ensures k * a <= k * b
  {
  }

  function Min(a: int, b: int): int { if a <= b then a else b }
  function Max(a: int, b: int): int { if a >= b then a else b }

  /** Decimal rendering of a natural number, as JavaScript prints small integers. */
  function NatToString(n: nat): (r: string)
    ensures |r| > 0 && forall i | 0 <= i < |r| :: IsAsciiDigit(r[i])
  {
    var d := ['0' + (n % 10) as char];
    if n < 10 then d else NatToString(n / 10) + d
  }
}
