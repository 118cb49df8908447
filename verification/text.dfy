/**
 * Text helpers shared by the pages: decimal rendering of integers as
 * `Number.prototype.toString` produces them, `String.prototype.padStart`,
 * `startsWith`, `trim`, the `m:ss` clock text used by both the quiz and the
 * leaderboard, and parsers that invert the renderings.
 */
module Text {

  datatype Option<+T> = None | Some(value: T)

  // ---------------------------------------------------------------------------
  // Digits

  predicate IsDigit(c: char) {
    '0' <= c <= '9'
  }

  predicate AllDigits(s: string) {
    forall i :: 0 <= i < |s| ==> IsDigit(s[i])
  }

  function DigitChar(d: nat): (c: char)
    requires d < 10
    ensures IsDigit(c)
  {
    (('0' as int) + d) as char
  }

  function DigitValue(c: char): (d: nat)
    requires IsDigit(c)
    ensures d < 10
  {
    (c as int) - ('0' as int)
  }

  lemma DigitCharValue(d: nat)
    requires d < 10
    ensures DigitValue(DigitChar(d)) == d
  {
  }

  /** Decimal rendering of a natural number: most significant digit first, no leading zero. */
  function NatToDigits(n: nat): (s: string)
    ensures 1 <= |s| && AllDigits(s)
    ensures s[0] == '0' ==> n == 0
    ensures n < 10 <==> |s| == 1
    decreases n
  {
    if n < 10 then [DigitChar(n)] else NatToDigits(n / 10) + [DigitChar(n % 10)]
  }

  /** The number a string of decimal digits denotes. */
  function DigitsValue(s: string): nat
    requires AllDigits(s)
    decreases |s|
  {
    if s == [] then 0 else DigitsValue(s[..|s| - 1]) * 10 + DigitValue(s[|s| - 1])
  }

  lemma {:induction false} DigitsRoundTrip(n: nat)
    ensures DigitsValue(NatToDigits(n)) == n
    decreases n
  {
    if n >= 10 {
      DigitsRoundTrip(n / 10);
      var s := NatToDigits(n);
      assert s[..|s| - 1] == NatToDigits(n / 10);
      DigitCharValue(n % 10);
    } else {
      DigitCharValue(n);
    }
  }

  /**
   * The canonical decimal literal of a natural number, as JSON writes it:
   * non-empty, digits only, and no leading zero unless the literal is "0".
   */
  function ParseNat(s: string): (r: Option<nat>)
    ensures r.Some? <==> 1 <= |s| && AllDigits(s) && (s[0] != '0' || |s| == 1)
  {
    if 1 <= |s| && AllDigits(s) && (s[0] != '0' || |s| == 1) then Some(DigitsValue(s)) else None
  }

  lemma ParseNatRoundTrip(n: nat)
    ensures ParseNat(NatToDigits(n)) == Some(n)
  {
    DigitsRoundTrip(n);
  }

  /** Rendering of an integer: a minus sign before the digits of its magnitude when negative. */
  function IntToString(n: int): (s: string)
    ensures 1 <= |s|
    ensures n >= 0 ==> s == NatToDigits(n)
    ensures n < 0 ==> s[0] == '-' && s[1..] == NatToDigits(-n)
  {
    if n < 0 then "-" + NatToDigits(-n) else NatToDigits(n)
  }

  /** A JSON integer literal: an optional minus sign followed by a canonical natural literal. */
  function ParseInt(s: string): (r: Option<int>)
    ensures r.Some? && 1 <= |s| && s[0] != '-' ==> r.value >= 0
  {
    if 1 <= |s| && s[0] == '-' then
      match ParseNat(s[1..])
      case Some(v) => var m: int := v; Some(-m)
      case None => None
    else
      match ParseNat(s)
      case Some(v) => Some(v as int)
      case None => None
  }

  lemma ParseIntRoundTrip(n: int)
    ensures ParseInt(IntToString(n)) == Some(n)
  {
    var t := IntToString(n);
    if n < 0 {
      ParseNatRoundTrip(-n);
      assert t[0] == '-' && ParseNat(t[1..]) == Some(-n);
    } else {
      ParseNatRoundTrip(n);
      assert IsDigit(t[0]);
      assert ParseNat(t) == Some(n);
    }
  }

  /** Distinct integers render to distinct strings. */
  lemma IntToStringInjective(a: int, b: int)
    requires IntToString(a) == IntToString(b)
    ensures a == b
  {
    ParseIntRoundTrip(a);
    ParseIntRoundTrip(b);
  }

  // ---------------------------------------------------------------------------
  // ECMAScript string operations

  function Repeat(c: char, n: nat): (s: string)
    ensures |s| == n && forall i :: 0 <= i < n ==> s[i] == c
  {
    if n == 0 then "" else [c] + Repeat(c, n - 1)
  }

  /** `s.padStart(width, fill)` with a one-character fill string. */
  function PadStart(s: string, width: nat, fill: char): (r: string)
    ensures |s| >= width ==> r == s
    ensures |s| < width ==> |r| == width && r[width - |s|..] == s
    ensures |s| < width ==> forall i :: 0 <= i < width - |s| ==> r[i] == fill
  {
    if |s| >= width then s else Repeat(fill, width - |s|) + s
  }

  /** `s.startsWith(prefix)`. */
  predicate StartsWith(s: string, prefix: string) {
    |prefix| <= |s| && s[..|prefix|] == prefix
  }

  /** The characters `String.prototype.trim` strips: WhiteSpace and LineTerminator. */
  predicate IsJsWhitespace(c: char) {
    c == '\t' || c == '\n' || c == '\U{B}' || c == '\U{C}' || c == '\r' || c == ' '
    || c == '\U{A0}' || c == '\U{1680}' || ('\U{2000}' <= c <= '\U{200A}')
    || c == '\U{2028}' || c == '\U{2029}' || c == '\U{202F}' || c == '\U{205F}'
    || c == '\U{3000}' || c == '\U{FEFF}'
  }

  function TrimStart(s: string): (r: string)
    ensures |r| <= |s| && r == s[|s| - |r|..]
    ensures r != [] ==> !IsJsWhitespace(r[0])
    ensures forall i :: 0 <= i < |s| - |r| ==> IsJsWhitespace(s[i])
    ensures (forall i :: 0 <= i < |s| ==> IsJsWhitespace(s[i])) ==> r == []
  {
    if s != [] && IsJsWhitespace(s[0]) then TrimStart(s[1..]) else s
  }

  function TrimEnd(s: string): (r: string)
    ensures |r| <= |s| && r == s[..|r|]
    ensures r != [] ==> !IsJsWhitespace(r[|r| - 1])
    ensures forall i :: |r| <= i < |s| ==> IsJsWhitespace(s[i])
  {
    if s != [] && IsJsWhitespace(s[|s| - 1]) then TrimEnd(s[..|s| - 1]) else s
  }

  /** `s.trim()`. */
  function Trim(s: string): string {
    TrimEnd(TrimStart(s))
  }

  predicate AllWhitespace(s: string) {
    forall i :: 0 <= i < |s| ==> IsJsWhitespace(s[i])
  }

  /** `!s.trim()`: the trimmed string is empty exactly when every character is whitespace. */
  predicate IsBlank(s: string)
    ensures IsBlank(s) <==> AllWhitespace(s)
  {
    // Trimming the end of `TrimStart(s)` removes only whitespace, while a
    // non-empty `TrimStart(s)` begins with a non-whitespace character.
    var t := TrimStart(s);
    assert TrimEnd(t) == [] ==> t == [];
    TrimEnd(t) == ""
  }

  // ---------------------------------------------------------------------------
  // Clock text `m:ss`

  /** ECMAScript integer division truncated toward zero, for a positive divisor. */
  function TruncDiv(a: int, b: int): int
    requires b > 0
  {
    if a >= 0 then a / b else -((-a) / b)
  }

  /**
   * ECMAScript `a % b` for a positive divisor: `a - b * trunc(a / b)`, so the
   * remainder takes the sign of `a`.
   */
  function JsRem(a: int, b: int): (r: int)
    requires b > 0
    ensures a == b * TruncDiv(a, b) + r
    ensures a >= 0 ==> 0 <= r < b && r == a % b
    ensures a < 0 ==> -b < r <= 0
  {
    if a >= 0 then a % b else -((-a) % b)
  }

  /**
   * The `m:ss` text shared by the quiz's `formatTime` and the leaderboard's
   * `formatDuration`: the floored whole minutes, a colon, then the truncating
   * remainder modulo 60 left-padded with zeros to two characters.
   * `/` on `int` with a positive divisor is floor division, as `Math.floor` is.
   */
  function ClockText(s: int): string {
    IntToString(s / 60) + ":" + PadStart(IntToString(JsRem(s, 60)), 2, '0')
  }

  /** Reads `m:ss` back: canonical minutes, a colon, then exactly two digits below 60. */
  function ParseClock(t: string): (r: Option<nat>)
    ensures r.Some? ==> |t| >= 4 && t[|t| - 3] == ':'
  {
    if |t| >= 4 && t[|t| - 3] == ':' && AllDigits(t[|t| - 2..]) then
      var secs := DigitsValue(t[|t| - 2..]);
      match ParseNat(t[..|t| - 3])
      case Some(m) => if secs < 60 then Some(60 * m + secs) else None
      case None => None
    else
      None
  }

  /** A two-character digit string denotes ten times its first digit plus its second. */
  lemma DigitsValueTwo(p: string)
    requires |p| == 2 && AllDigits(p)
    ensures DigitsValue(p) == 10 * DigitValue(p[0]) + DigitValue(p[1])
  {
    assert p[..1][..0] == [];
    assert DigitsValue(p[..1]) == DigitValue(p[0]);
  }

  lemma TwoDigitsValue(x: nat)
    requires x < 60
    ensures |PadStart(NatToDigits(x), 2, '0')| == 2
    ensures AllDigits(PadStart(NatToDigits(x), 2, '0'))
    ensures DigitsValue(PadStart(NatToDigits(x), 2, '0')) == x
  {
    var p := PadStart(NatToDigits(x), 2, '0');
    if x < 10 {
      assert NatToDigits(x) == [DigitChar(x)];
      assert p == ['0', DigitChar(x)];
      DigitCharValue(x);
    } else {
      assert NatToDigits(x / 10) == [DigitChar(x / 10)];
      assert p == [DigitChar(x / 10), DigitChar(x % 10)];
      DigitCharValue(x / 10);
      DigitCharValue(x % 10);
    }
    DigitsValueTwo(p);
  }

  /** Canonical minutes denoting `v`, a colon and two digits denoting `w < 60` read back as `60 * v + w`. */
  lemma ParseClockParts(m: string, ss: string, v: nat, w: nat)
    requires ParseNat(m) == Some(v)
    requires |ss| == 2 && AllDigits(ss) && DigitsValue(ss) == w && w < 60
    ensures ParseClock(m + ":" + ss) == Some(60 * v + w)
  {
    var t := m + ":" + ss;
    assert |t| == |m| + 3;
    assert t[|t| - 3] == ':';
    assert t[|t| - 2..] == ss;
    assert t[..|t| - 3] == m;
  }

  /** For a non-negative number of seconds the clock text reads back as that number. */
  lemma ClockRoundTrip(s: nat)
    ensures ParseClock(ClockText(s)) == Some(s)
  {
    var mins := NatToDigits(s / 60);
    var secs := PadStart(NatToDigits(s % 60), 2, '0');
    assert IntToString(s / 60) == mins;
    assert JsRem(s, 60) == s % 60;
    assert ClockText(s) == mins + ":" + secs;
    TwoDigitsValue(s % 60);
    ParseNatRoundTrip(s / 60);
    ParseClockParts(mins, secs, s / 60, s % 60);
  }
}
