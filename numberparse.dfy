/**
 * The part of JavaScript's global `parseFloat` that the page relies on:
 * skip leading white space, read the longest decimal literal at the start
 * (optional sign, digits, optional fraction, optional exponent) and ignore
 * the rest; a string with no such literal gives NaN, here `None`.
 * Values are exact reals, not IEEE-754 doubles.
 */
module NumberParse {
  import opened Wrappers

  predicate IsDigit(c: char) {
    '0' <= c <= '9'
  }

  predicate AllDigits(s: string) {
    forall i :: 0 <= i < |s| ==> IsDigit(s[i])
  }

  function DigitValue(c: char): (d: nat)
    requires IsDigit(c)
    ensures d < 10
  {
    c as int - '0' as int
  }

  function DigitChar(d: nat): (c: char)
    requires d < 10
    ensures IsDigit(c) && DigitValue(c) == d
  {
    ('0' as int + d) as char
  }

  /** The characters the language's string-to-number conversion skips: white space and line terminators. */
  predicate IsWhiteSpace(c: char) {
    c == '\t' || c == '\U{000B}' || c == '\U{000C}' || c == ' ' || c == '\U{00A0}' || c == '\U{FEFF}'
    || c == '\n' || c == '\r' || c == '\U{2028}' || c == '\U{2029}'
    || c == '\U{1680}' || ('\U{2000}' <= c <= '\U{200A}') || c == '\U{202F}' || c == '\U{205F}' || c == '\U{3000}'
  }

  /** `s` without its leading white space. */
  function TrimStart(s: string): (r: string)
    ensures r == [] || !IsWhiteSpace(r[0])
  {
    if s != [] && IsWhiteSpace(s[0]) then TrimStart(s[1..]) else s
  }

  /** The length of the run of decimal digits that `s` starts with. */
  function DigitRun(s: string): (n: nat)
    ensures n <= |s| && AllDigits(s[..n])
    ensures n < |s| ==> !IsDigit(s[n])
  {
    if s != [] && IsDigit(s[0]) then 1 + DigitRun(s[1..]) else 0
  }

  /** The number a string of decimal digits denotes, most significant digit first. */
  function DigitsValue(s: string): nat
    requires AllDigits(s)
  {
    if s == [] then 0 else DigitsValue(s[..|s| - 1]) * 10 + DigitValue(s[|s| - 1])
  }

  function Pow10(n: nat): (r: nat)
    ensures r >= 1
  {
    if n == 0 then 1 else 10 * Pow10(n - 1)
  }

  /** The exponent an `e`/`E` part at the start of `s` denotes; 0 when `s` does not start with a complete one. */
  function Exponent(s: string): int {
    if |s| >= 2 && (s[0] == 'e' || s[0] == 'E') then
      var digits := if s[1] == '+' || s[1] == '-' then s[2..] else s[1..];
      var magnitude: int := DigitsValue(digits[..DigitRun(digits)]);
      if s[1] == '-' then -magnitude else magnitude
    else 0
  }

  /** The pieces of the decimal literal a string starts with. */
  datatype Decimal = Decimal(negative: bool, whole: string, fraction: string, exponent: int)

  /**
   * The decimal literal after the leading white space of `s`: an optional
   * sign, the digits before the point, the point and the digits after it,
   * an optional exponent; `None` when there is no digit before or after
   * the point.
   */
  function Scan(s: string): Option<Decimal> {
    var t := TrimStart(s);
    if t != [] && t[0] == '-' then ScanUnsigned(true, t[1..])
    else if t != [] && t[0] == '+' then ScanUnsigned(false, t[1..])
    else ScanUnsigned(false, t)
  }

  function ScanUnsigned(negative: bool, body: string): Option<Decimal> {
    var n := DigitRun(body);
    ScanFraction(negative, body[..n], body[n..])
  }

  function ScanFraction(negative: bool, whole: string, after: string): Option<Decimal> {
    if after != [] && after[0] == '.' then
      var m := DigitRun(after[1..]);
      Finish(negative, whole, after[1..][..m], after[1 + m..])
    else Finish(negative, whole, [], after)
  }

  function Finish(negative: bool, whole: string, fraction: string, tail: string): (r: Option<Decimal>)
    ensures r.Some? ==> r.value.whole == whole && r.value.fraction == fraction
  {
    if whole == [] && fraction == [] then None
    else Some(Decimal(negative, whole, fraction, Exponent(tail)))
  }

  /** Every literal `Scan` finds is made of digits and has at least one. */
  lemma ScanIsWellFormed(s: string)
    ensures Scan(s).Some? ==> AllDigits(Scan(s).value.whole) && AllDigits(Scan(s).value.fraction)
    ensures Scan(s).Some? ==> Scan(s).value.whole != [] || Scan(s).value.fraction != []
  {
  }

  /** The value of the digits `whole.fraction`. */
  function Mantissa(whole: string, fraction: string): real
    requires AllDigits(whole) && AllDigits(fraction)
  {
    DigitsValue(whole) as real + DigitsValue(fraction) as real / Pow10(|fraction|) as real
  }

  /** The exact value of a decimal literal. */
  function Value(d: Decimal): real
    requires AllDigits(d.whole) && AllDigits(d.fraction)
  {
    var mantissa := Mantissa(d.whole, d.fraction);
    var magnitude := if d.exponent >= 0 then mantissa * Pow10(d.exponent) as real
                     else mantissa / Pow10(-d.exponent) as real;
    if d.negative then -magnitude else magnitude
  }

  /** `parseFloat(s)`, with `None` for NaN. */
  function ParseFloat(s: string): (r: Option<real>)
    ensures r.Some? ==> var t := TrimStart(s); t != [] && (IsDigit(t[0]) || t[0] in "+-.")
  {
    ScanIsWellFormed(s);
    match Scan(s)
    case None => None
    case Some(d) => Some(Value(d))
  }

  /** Leading white space never changes what `parseFloat` reads. */
  lemma ParseFloatSkipsWhiteSpace(s: string)
    ensures ParseFloat(TrimStart(s)) == ParseFloat(s)
  {
    var t := TrimStart(s);
    assert TrimStart(t) == t;
  }

  /** Decimal digits of a natural number, without leading zeros. */
  function NatToString(n: nat): (s: string)
    ensures s != [] && AllDigits(s)
  {
    if n < 10 then [DigitChar(n)] else NatToString(n / 10) + [DigitChar(n % 10)]
  }

  /**
   * An integer as JavaScript's `String` renders it when its magnitude is
   * below 10^21; from 10^21 on, JavaScript switches to exponent form
   * (`1e+21`), which this rendering does not produce.
   */
  function IntToString(n: int): string {
    if n < 0 then "-" + NatToString(-n) else NatToString(n)
  }

  lemma {:induction false} NatToStringValue(n: nat)
    ensures DigitsValue(NatToString(n)) == n
  {
    var s := NatToString(n);
    if n >= 10 {
      NatToStringValue(n / 10);
      assert s[..|s| - 1] == NatToString(n / 10);
    }
  }

  lemma DigitRunOfDigits(s: string)
    requires AllDigits(s)
    ensures DigitRun(s) == |s|
  {
  }

  /** A rendered integer scans as its sign and its digits. */
  lemma ScanOfInt(n: int)
    ensures Scan(IntToString(n)) == Some(Decimal(n < 0, NatToString(if n < 0 then -n else n), [], 0))
  {
    var digits := NatToString(if n < 0 then -n else n);
    DigitRunOfDigits(digits);
    var s := IntToString(n);
    assert s[0] == '-' || s[0] == digits[0];
    assert TrimStart(s) == s;
    assert digits[..|digits|] == digits;
    assert digits[|digits|..] == [];
    if n < 0 {
      assert s[1..] == digits;
    }
    assert ScanUnsigned(n < 0, digits) == Some(Decimal(n < 0, digits, [], 0));
  }

  /** Reading back a rendered integer gives that integer. */
  lemma ParseFloatOfInt(n: int)
    ensures ParseFloat(IntToString(n)) == Some(n as real)
  {
    var m := if n < 0 then -n else n;
    var d := Decimal(n < 0, NatToString(m), [], 0);
    assert ParseFloat(IntToString(n)) == Some(Value(d)) by {
      ScanOfInt(n);
    }
    assert Value(d) == n as real by {
      NatToStringValue(m);
      ValueOfInteger(d);
    }
  }

  lemma ValueOfInteger(d: Decimal)
    requires AllDigits(d.whole) && d.fraction == [] && d.exponent == 0
    ensures Value(d) == if d.negative then -(DigitsValue(d.whole) as real) else DigitsValue(d.whole) as real
  {
    assert Mantissa(d.whole, d.fraction) == DigitsValue(d.whole) as real;
  }

  /** A decimal `a.b` scans as its two digit strings, unsigned and without exponent. */
  lemma ScanOfDecimal(a: string, b: string)
    requires AllDigits(a) && AllDigits(b) && a != []
    ensures Scan(a + "." + b) == Some(Decimal(false, a, b, 0))
  {
    var s, after := a + "." + b, "." + b;
    assert Scan(s) == ScanUnsigned(false, s) by {
      assert s[0] == a[0];
      ScanOfDigitFirst(s);
    }
    assert ScanUnsigned(false, s) == ScanFraction(false, a, after) by {
      assert s == a + after;
      DigitRunPrefix(a, after);
      assert s[..|a|] == a && s[|a|..] == after;
    }
    assert ScanFraction(false, a, after) == Finish(false, a, b, []) by {
      assert after[1..] == b;
      DigitRunOfDigits(b);
      assert b[..|b|] == b;
      assert after[1 + |b|..] == [];
    }
    assert Exponent([]) == 0;
  }

  /** `parseFloat` of a decimal `a.b` is its exact value. */
  lemma ParseFloatOfDecimal(a: string, b: string)
    requires AllDigits(a) && AllDigits(b) && a != []
    ensures ParseFloat(a + "." + b) == Some(Mantissa(a, b))
  {
    var d := Decimal(false, a, b, 0);
    assert ParseFloat(a + "." + b) == Some(Value(d)) by {
      ScanOfDecimal(a, b);
    }
    ValueWithoutExponent(d);
  }

  /** A string that starts with a digit is scanned from its first character, as an unsigned literal. */
  lemma ScanOfDigitFirst(s: string)
    requires s != [] && IsDigit(s[0])
    ensures Scan(s) == ScanUnsigned(false, s)
  {
    assert !IsWhiteSpace(s[0]);
    assert TrimStart(s) == s;
  }

  lemma ValueWithoutExponent(d: Decimal)
    requires AllDigits(d.whole) && AllDigits(d.fraction) && d.exponent == 0 && !d.negative
    ensures Value(d) == Mantissa(d.whole, d.fraction)
  {
  }

  /** A digit run followed by a non-digit ends there. */
  lemma {:induction false} DigitRunPrefix(a: string, rest: string)
    requires AllDigits(a) && (rest == [] || !IsDigit(rest[0]))
    ensures DigitRun(a + rest) == |a|
  {
    if a != [] {
      assert (a + rest)[1..] == a[1..] + rest;
      DigitRunPrefix(a[1..], rest);
    } else {
      assert a + rest == rest;
    }
  }

  lemma ParseFloatTwelve()
    ensures ParseFloat("12") == Some(12.0)
  {
    ParseFloatOfInt(12);
    assert IntToString(12) == "12";
  }

  lemma ParseFloatMinusFive()
    ensures ParseFloat("-5") == Some(-5.0)
  {
    ParseFloatOfInt(-5);
    assert IntToString(-5) == "-5";
  }

  /** Text with no digit where a number should start is NaN. */
  lemma ParseFloatNaNExamples()
    ensures ParseFloat("") == None
    ensures ParseFloat("abc") == None
    ensures ParseFloat("-.") == None
  {
    assert TrimStart("abc") == "abc";
    assert TrimStart("-.") == "-.";
    assert "-."[1..] == ".";
    assert "."[1..] == [];
  }
}
