/** Python's numeric literal parsing and printing as the parser uses them:
    `int(token)` for the recipe yield, `Fraction(token)` for ingredient amounts,
    and `str(n)` / `"{}".format(n)` for step numbers.  Digits are ASCII. */
module Numbers {
  import opened Py
  import opened Text

  function DigitOf(c: char): nat
    requires IsDigit(c)
  {
    (c as int) - ('0' as int)
  }

  function DigitChar(d: nat): char
    requires d < 10
  {
    ('0' as int + d) as char
  }

  predicate AllDigits(s: string) {
    forall i :: 0 <= i < |s| ==> IsDigit(s[i])
  }

  /** The value of a string of decimal digits, most significant first; "" is 0. */
  function DigitsValue(ds: string): (v: nat)
    requires AllDigits(ds)
  {
    if |ds| == 0 then 0 else 10 * DigitsValue(ds[..|ds| - 1]) + DigitOf(ds[|ds| - 1])
  }

  function Pow10(e: nat): (p: nat)
    ensures p >= 1
  {
    if e == 0 then 1 else 10 * Pow10(e - 1)
  }

  /** Python's `str(n)` for a non-negative integer: its digits with no leading zero. */
  function DecimalString(n: nat): (r: string)
    ensures |r| > 0 && AllDigits(r)
    ensures r[0] == '0' ==> n == 0
    ensures DigitsValue(r) == n
  {
    if n < 10 then [DigitChar(n)]
    else
      var r := DecimalString(n / 10) + [DigitChar(n % 10)];
      assert r[..|r| - 1] == DecimalString(n / 10);
      r
  }

  /** Length of the leading run of digits. */
  function DigitRun(s: string): (k: nat)
    ensures k <= |s|
    ensures AllDigits(s[..k])
    ensures k < |s| ==> !IsDigit(s[k])
  {
    if |s| > 0 && IsDigit(s[0]) then
      var k := 1 + DigitRun(s[1..]);
      assert s[..k] == [s[0]] + s[1..][..k - 1];
      k
    else 0
  }

  /** A PEP 515 digit group as `int()` accepts it: digits, with single underscores
      allowed only between two digits. */
  predicate Grouped(b: string) {
    && |b| > 0
    && IsDigit(b[0])
    && IsDigit(b[|b| - 1])
    && (forall i :: 0 <= i < |b| ==> IsDigit(b[i]) || b[i] == '_')
    && (forall i :: 0 <= i < |b| - 1 ==> b[i] == '_' ==> IsDigit(b[i + 1]))
  }

  /** The digits of `b` with underscores dropped. */
  function DropUnderscores(b: string): (r: string)
    requires forall i :: 0 <= i < |b| ==> IsDigit(b[i]) || b[i] == '_'
    ensures AllDigits(r)
    ensures |r| <= |b|
    ensures AllDigits(b) ==> r == b
  {
    if |b| == 0 then ""
    else (if b[0] == '_' then "" else [b[0]]) + DropUnderscores(b[1..])
  }

  function Signed(neg: bool, x: real): real {
    if neg then -x else x
  }

  /** Python's `int(t)` on a whitespace-free token: an optional sign, then a digit
      group; anything else raises `ValueError`. */
  function ParseInt(t: string): (r: Result<int>)
    ensures r.Raised? ==> r.exc == ValueError
  {
    var signed := |t| > 0 && (t[0] == '+' || t[0] == '-');
    var body := if signed then t[1..] else t;
    if Grouped(body) then
      var v: int := DigitsValue(DropUnderscores(body));
      Ok(if signed && t[0] == '-' then -v else v)
    else Raised(ValueError)
  }

  /** The exponent of a `Fraction` literal after its `e`/`E`: an optional sign and digits. */
  function ParseExponent(s: string): (r: Option<int>)
    ensures r.Some? ==> |s| > 0
  {
    var signed := |s| > 0 && (s[0] == '+' || s[0] == '-');
    var ds := if signed then s[1..] else s;
    if |ds| > 0 && AllDigits(ds) then
      var v: int := DigitsValue(ds);
      Some(if signed && s[0] == '-' then -v else v)
    else None
  }

  function Scale(e: int): (x: real)
    ensures x > 0.0
  {
    if e >= 0 then Pow10(e) as real else 1.0 / Pow10(-e) as real
  }

  /** Python's `Fraction(t)` on a whitespace-free string, as an exact rational.
      The accepted forms are those of the `fractions` module's literal syntax:
      `[sign] digits "/" digits`, or `[sign] digits ["." digits] [("e"|"E") [sign] digits]`
      where at least one digit precedes or directly follows the point.  Anything else
      raises `ValueError`; a zero denominator raises `ZeroDivisionError`. */
  function ParseFraction(t: string): (r: Result<real>)
    ensures r.Raised? ==> r.exc == ValueError || r.exc == ZeroDivisionError
  {
    var signed := |t| > 0 && (t[0] == '+' || t[0] == '-');
    match ParseUnsigned(if signed then t[1..] else t)
    case Ok(x) => Ok(Signed(signed && t[0] == '-', x))
    case Raised(e) => Raised(e)
  }

  /** `Fraction` literal syntax after the sign. */
  function ParseUnsigned(u: string): (r: Result<real>)
    ensures r.Raised? ==> r.exc == ValueError || r.exc == ZeroDivisionError
  {
    var i := DigitRun(u);
    var rest := u[i..];
    if !(i > 0 || (|rest| >= 2 && rest[0] == '.' && IsDigit(rest[1]))) then Raised(ValueError)
    else if |rest| > 0 && rest[0] == '/' then RatioTail(DigitsValue(u[..i]), rest[1..])
    else DecimalTail(DigitsValue(u[..i]), rest)
  }

  /** The denominator after `numerator "/"`. */
  function RatioTail(num: nat, den: string): (r: Result<real>)
    ensures r.Raised? ==> r.exc == ValueError || r.exc == ZeroDivisionError
  {
    if |den| == 0 || !AllDigits(den) then Raised(ValueError)
    else if DigitsValue(den) == 0 then Raised(ZeroDivisionError)
    else Ok(num as real / DigitsValue(den) as real)
  }

  /** The optional fractional part and exponent after the integer digits. */
  function DecimalTail(num: nat, rest: string): (r: Result<real>)
    ensures r.Raised? ==> r.exc == ValueError
  {
    if |rest| > 0 && rest[0] == '.' then
      var frac := rest[1..];
      var k := DigitRun(frac);
      ExponentTail(num, frac[..k], frac[k..])
    else ExponentTail(num, "", rest)
  }

  /** The exact value of the decimal numeral `num "." dec`. */
  function DecimalValue(num: nat, dec: string): real
    requires AllDigits(dec)
  {
    (num * Pow10(|dec|) + DigitsValue(dec)) as real / Pow10(|dec|) as real
  }

  /** The optional exponent that ends the decimal literal `num "." dec`. */
  function ExponentTail(num: nat, dec: string, tail: string): (r: Result<real>)
    requires AllDigits(dec)
    ensures r.Raised? ==> r.exc == ValueError
  {
    var base := DecimalValue(num, dec);
    if tail == [] then Ok(base)
    else if tail[0] == 'e' || tail[0] == 'E' then
      match ParseExponent(tail[1..])
      case None => Raised(ValueError)
      case Some(e) => Ok(base * Scale(e))
    else Raised(ValueError)
  }

  lemma {:induction false} DigitRunOfDigits(ds: string, tail: string)
    requires AllDigits(ds)
    requires tail == [] || !IsDigit(tail[0])
    ensures DigitRun(ds + tail) == |ds|
  {
    if |ds| > 0 {
      assert (ds + tail)[1..] == ds[1..] + tail;
      DigitRunOfDigits(ds[1..], tail);
    } else {
      assert ds + tail == tail;
    }
  }

  /** Round trip with `str`: `int(str(n)) == n` and `int("-" + str(n)) == -n`. */
  lemma IntOfDecimalString(n: nat)
    ensures ParseInt(DecimalString(n)) == Ok(n)
    ensures ParseInt("-" + DecimalString(n)) == Ok(-(n as int))
  {
    var ds := DecimalString(n);
    assert IsDigit(ds[0]) && IsDigit(ds[|ds| - 1]);
    assert Grouped(ds);
    assert DropUnderscores(ds) == ds;
    var neg := "-" + ds;
    assert neg[0] == '-' && neg[1..] == ds;
  }

  /** A literal that starts with a digit has no sign to strip. */
  lemma FractionOfDigitLed(t: string)
    requires |t| > 0 && IsDigit(t[0])
    ensures ParseFraction(t) == ParseUnsigned(t)
  {
  }

  /** After a leading run of digits, `Fraction` reads either a denominator or a
      fractional part and exponent. */
  lemma UnsignedAfterDigits(ds: string, x: string)
    requires |ds| > 0 && AllDigits(ds)
    requires x == [] || !IsDigit(x[0])
    ensures ParseUnsigned(ds + x)
         == if |x| > 0 && x[0] == '/' then RatioTail(DigitsValue(ds), x[1..])
            else DecimalTail(DigitsValue(ds), x)
  {
    DigitRunOfDigits(ds, x);
    assert (ds + x)[..|ds|] == ds;
    assert (ds + x)[|ds|..] == x;
  }

  /** `Fraction(str(a)) == a`. */
  lemma FractionOfInteger(a: nat)
    ensures ParseFraction(DecimalString(a)) == Ok(a as real)
  {
    var ds := DecimalString(a);
    assert ds + "" == ds;
    FractionOfDigitLed(ds);
    UnsignedAfterDigits(ds, "");
  }

  /** `Fraction(str(a) + "/" + str(b))` is exactly `a / b`, and raises
      `ZeroDivisionError` when `b` is zero. */
  lemma FractionOfRatio(a: nat, b: nat)
    ensures b > 0 ==> ParseFraction(DecimalString(a) + "/" + DecimalString(b)) == Ok(a as real / b as real)
    ensures b == 0 ==> ParseFraction(DecimalString(a) + "/" + DecimalString(b)) == Raised(ZeroDivisionError)
  {
    var ds := DecimalString(a);
    var bs := DecimalString(b);
    var x := "/" + bs;
    assert ds + "/" + bs == ds + x;
    FractionOfDigitLed(ds + x);
    UnsignedAfterDigits(ds, x);
    assert x[1..] == bs;
  }

  /** `Fraction(str(a) + "." + f)` for a digit string `f` is `a + f / 10^|f|`: the
      decimal-point form of an amount ("2.5" is 5/2). */
  lemma FractionOfDecimal(a: nat, f: string)
    requires AllDigits(f)
    ensures ParseFraction(DecimalString(a) + "." + f) == Ok(DecimalValue(a, f))
  {
    var ds := DecimalString(a);
    var x := "." + f;
    assert ds + "." + f == ds + x;
    FractionOfDigitLed(ds + x);
    UnsignedAfterDigits(ds, x);
    DecimalTailOfDigits(a, f);
  }

  lemma DecimalTailOfDigits(num: nat, f: string)
    requires AllDigits(f)
    ensures DecimalTail(num, "." + f) == Ok(DecimalValue(num, f))
  {
    var x := "." + f;
    assert x[1..] == f;
    assert f + "" == f;
    DigitRunOfDigits(f, "");
    assert f[..|f|] == f;
    assert f[|f|..] == [];
    assert DecimalTail(num, x) == ExponentTail(num, f, []);
  }
}
