/**
 * Numeric coercion of a cell, `parseFloat(cell) || 0` (src/App.js:125, 162).
 * `parseFloat` reads the longest decimal prefix after leading white space:
 * an optional sign, digits, an optional fraction and an optional exponent;
 * with no digit in the mantissa it yields NaN, which `|| 0` turns into 0.
 * Values are exact reals: binary floating point and `Infinity` are not modelled.
 */
module Numbers {
  import opened Options

  predicate IsDigit(c: char) {
    '0' <= c <= '9'
  }

  /** The white-space characters `parseFloat` skips, restricted to ASCII. */
  predicate IsSpace(c: char) {
    c == ' ' || c == '\t' || c == '\n' || c == '\r' || c == '\U{B}' || c == '\U{C}'
  }

  function TrimStart(s: string): (r: string)
    ensures |r| <= |s| && r == s[|s| - |r|..]
    ensures r != [] ==> !IsSpace(r[0])
  {
    if s != [] && IsSpace(s[0]) then TrimStart(s[1..]) else s
  }

  /** The length of the run of digits at the start of `s`. */
  function DigitRun(s: string): (n: nat)
    ensures n <= |s|
  {
    if s != [] && IsDigit(s[0]) then 1 + DigitRun(s[1..]) else 0
  }

  /** A string made of digits only is one whole run. */
  lemma {:induction false} DigitRunAll(s: string)
    requires forall i :: 0 <= i < |s| ==> IsDigit(s[i])
    ensures DigitRun(s) == |s|
    decreases |s|
  {
    if s != [] {
      DigitRunAll(s[1..]);
    }
  }

  function DigitValue(c: char): nat {
    if IsDigit(c) then c as int - '0' as int else 0
  }

  function DigitChar(d: nat): (c: char)
    requires d < 10
    ensures IsDigit(c) && DigitValue(c) == d
  {
    ('0' as int + d) as char
  }

  /** The value of a string of decimal digits, most significant first. */
  function DigitsValue(d: string): nat {
    if d == [] then 0 else 10 * DigitsValue(d[..|d| - 1]) + DigitValue(d[|d| - 1])
  }

  /** `x * 10^e`, one decimal place at a time. */
  function Scale(x: real, e: int): real
    decreases if e < 0 then -e else e
  {
    if e == 0 then x
    else if e > 0 then Scale(x, e - 1) * 10.0
    else Scale(x, e + 1) / 10.0
  }

  /** The power of ten an exponent part `e[+|-]digits` at the start of `s` applies; 0 when there is none. */
  function Exponent(s: string): int {
    if |s| >= 2 && (s[0] == 'e' || s[0] == 'E') then
      var body := if s[1] == '-' || s[1] == '+' then s[2..] else s[1..];
      var n := DigitRun(body);
      if n == 0 then 0
      else if s[1] == '-' then -(DigitsValue(body[..n]) as int)
      else DigitsValue(body[..n])
    else 0
  }

  /** `s` with one leading sign character removed, if it has one. */
  function Unsigned(t: string): string {
    if t != [] && (t[0] == '-' || t[0] == '+') then t[1..] else t
  }

  /** The number at the start of an unsigned string: digits, an optional fraction, an optional exponent. */
  function ParseUnsigned(u: string): Option<real> {
    var n := DigitRun(u);
    var rest := u[n..];
    if rest != [] && rest[0] == '.' then
      var m := DigitRun(rest[1..]);
      if n == 0 && m == 0 then None
      else
        var fraction := Scale(DigitsValue(rest[1..][..m]) as real, -(m as int));
        Some(Scale(DigitsValue(u[..n]) as real + fraction, Exponent(rest[1 + m..])))
    else if n == 0 then None
    else Some(Scale(DigitsValue(u[..n]) as real, Exponent(rest)))
  }

  /** `parseFloat(s)`: the numeric prefix of `s`, or None where JavaScript gives NaN. */
  function ParseFloat(s: string): Option<real> {
    var t := TrimStart(s);
    if t != [] && t[0] == '-' then Negate(ParseUnsigned(t[1..]))
    else ParseUnsigned(Unsigned(t))
  }

  function Negate(r: Option<real>): Option<real> {
    match r
    case None => None
    case Some(x) => Some(-x)
  }

  /** `parseFloat(s) || 0`. */
  function ParseNum(s: string): real {
    match ParseFloat(s)
    case None => 0.0
    case Some(x) => x
  }

  /** After leading white space and an optional sign, `s` starts with a digit or with a point and a digit. */
  predicate StartsNumeric(s: string) {
    var u := Unsigned(TrimStart(s));
    (u != [] && IsDigit(u[0])) || (|u| >= 2 && u[0] == '.' && IsDigit(u[1]))
  }

  /** A cell is read as a number exactly when it starts numerically; every other cell counts as 0. */
  lemma NonNumericIsZero(s: string)
    ensures ParseFloat(s).None? <==> !StartsNumeric(s)
    ensures !StartsNumeric(s) ==> ParseNum(s) == 0.0
  {
    var u := Unsigned(TrimStart(s));
    var n := DigitRun(u);
    if n == 0 && u != [] && u[0] == '.' {
      assert u[n..] == u;
      assert |u| >= 2 && IsDigit(u[1]) <==> DigitRun(u[1..]) > 0;
    }
  }

  /** The decimal representation of a natural number. */
  function NatString(n: nat): (s: string)
    ensures |s| >= 1 && forall i :: 0 <= i < |s| ==> IsDigit(s[i])
  {
    if n < 10 then [DigitChar(n)] else NatString(n / 10) + [DigitChar(n % 10)]
  }

  lemma {:induction false} NatStringValue(n: nat)
    ensures DigitsValue(NatString(n)) == n
  {
    if n >= 10 {
      var s := NatString(n);
      assert s[..|s| - 1] == NatString(n / 10);
      NatStringValue(n / 10);
    }
  }

  /** The decimal representation of an integer, with a leading '-' when negative. */
  function IntString(i: int): string {
    if i < 0 then "-" + NatString(-i) else NatString(i)
  }

  lemma ParseUnsignedDigits(digits: string)
    requires |digits| >= 1 && forall i :: 0 <= i < |digits| ==> IsDigit(digits[i])
    ensures ParseUnsigned(digits) == Some(DigitsValue(digits) as real)
  {
    var n := DigitRun(digits);
    DigitRunAll(digits);
    assert digits[n..] == [];
    assert digits[..n] == digits;
  }

  /** A string that does not start with white space has nothing to skip. */
  lemma NoSpaceToTrim(s: string)
    requires s != [] && !IsSpace(s[0])
    ensures TrimStart(s) == s
  {
  }

  /** A string that starts with neither white space nor a sign is read as it stands. */
  lemma ParseDigitStart(t: string)
    requires t != [] && !IsSpace(t[0]) && t[0] != '-' && t[0] != '+'
    ensures ParseFloat(t) == ParseUnsigned(t)
  {
    NoSpaceToTrim(t);
  }

  /** A non-empty run of digits parses to its value. */
  lemma ParsePositive(digits: string)
    requires |digits| >= 1 && forall i :: 0 <= i < |digits| ==> IsDigit(digits[i])
    ensures ParseFloat(digits) == Some(DigitsValue(digits) as real)
  {
    ParseDigitStart(digits);
    ParseUnsignedDigits(digits);
  }

  /** A string that starts with '-' parses as the negated parse of the rest. */
  lemma ParseMinus(s: string)
    requires s != [] && s[0] == '-'
    ensures ParseFloat(s) == Negate(ParseUnsigned(s[1..]))
  {
    NoSpaceToTrim(s);
  }

  /** A '-' followed by neither white space nor another sign negates the parse of the rest. */
  lemma ParseNegative(s: string)
    requires |s| >= 2 && s[0] == '-' && !IsSpace(s[1]) && s[1] != '-' && s[1] != '+'
    ensures ParseFloat(s) == Negate(ParseFloat(s[1..]))
  {
    ParseMinus(s);
    ParseDigitStart(s[1..]);
  }

  /** A digit is neither white space nor a sign. */
  lemma DigitIsPlain(c: char)
    requires IsDigit(c)
    ensures !IsSpace(c) && c != '-' && c != '+'
  {
  }

  /** The decimal representation of a natural number is coerced to that number. */
  lemma CoerceNatString(n: nat)
    ensures ParseNum(NatString(n)) == n as real
  {
    NatStringValue(n);
    ParsePositive(NatString(n));
  }

  /** A '-' written before a string that starts with a digit negates the coerced value. */
  lemma CoerceSigned(d: string)
    requires d != [] && IsDigit(d[0])
    ensures ParseNum("-" + d) == -ParseNum(d)
  {
    var s := "-" + d;
    assert s[0] == '-' && s[1..] == d;
    DigitIsPlain(d[0]);
    ParseNegative(s);
  }

  /** Coercing the decimal representation of an integer gives that integer back. */
  lemma ParseIntString(i: int)
    ensures ParseNum(IntString(i)) == i as real
  {
    if i < 0 {
      var n: nat := -i;
      var d := NatString(n);
      assert IntString(i) == "-" + d;
      CoerceSigned(d);
      CoerceNatString(n);
    } else {
      CoerceNatString(i);
    }
  }
}
