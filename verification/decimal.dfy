/** Decimal text for numbers, as JavaScript renders and reads it:
    the digits of a natural number (used for `WEB-${Date.now()}`),
    `String(x)` of a cents amount (the cost editor's initial text), and
    `Number(s)` for decimal literals (the cost editor's parse). */
module Decimal {
  import opened Common

  predicate IsDigit(c: char) {
    '0' <= c <= '9'
  }

  predicate AllDigits(s: string) {
    forall i :: 0 <= i < |s| ==> IsDigit(s[i])
  }

  function DigitChar(d: nat): (c: char)
    requires d < 10
    ensures IsDigit(c) && c as int - '0' as int == d
  {
    ('0' as int + d) as char
  }

  /** The number a run of decimal digits denotes (most significant first). */
  function DigitsValue(s: string): nat
    requires AllDigits(s)
  {
    if s == [] then 0
    else DigitsValue(s[..|s| - 1]) * 10 + (s[|s| - 1] as int - '0' as int)
  }

  /** `String(n)` for a natural number: its shortest decimal digits. */
  function NatToString(n: nat): (r: string)
    ensures |r| >= 1 && AllDigits(r)
    ensures r[0] == '0' ==> n == 0
  {
    if n < 10 then [DigitChar(n)] else NatToString(n / 10) + [DigitChar(n % 10)]
  }

  /** Reading back the digits of `n` gives `n`. */
  lemma {:induction false} NatToStringRoundTrip(n: nat)
    ensures DigitsValue(NatToString(n)) == n
  {
    if n >= 10 {
      var r := NatToString(n);
      assert r[..|r| - 1] == NatToString(n / 10);
      NatToStringRoundTrip(n / 10);
    }
  }

  /** Distinct numbers have distinct digit strings. */
  lemma NatToStringInjective(m: nat, n: nat)
    requires NatToString(m) == NatToString(n)
    ensures m == n
  {
    NatToStringRoundTrip(m);
    NatToStringRoundTrip(n);
  }

  /** `String(c / 100)` for a non-negative cents amount: the whole part,
      then the fraction with trailing zeros dropped ("20", "8.5", "1.25"). */
  function FormatCents(c: nat): (s: string)
    ensures |s| >= 1 && IsDigit(s[0]) && IsDigit(s[|s| - 1])
  {
    var whole := c / 100;
    var frac := c % 100;
    if frac == 0 then NatToString(whole)
    else if frac % 10 == 0 then NatToString(whole) + "." + [DigitChar(frac / 10)]
    else NatToString(whole) + "." + [DigitChar(frac / 10), DigitChar(frac % 10)]
  }

  /** The value in reais of an amount in cents. */
  function InReais(c: int): real {
    c as real / 100.0
  }

  lemma InReaisNegate(c: int)
    ensures InReais(-c) == -InReais(c)
  {
  }

  /** Length of the leading run of digits of `s`. */
  function SpanDigits(s: string): (n: nat)
    ensures n <= |s| && AllDigits(s[..n])
    ensures n < |s| ==> !IsDigit(s[n])
  {
    if |s| > 0 && IsDigit(s[0]) then
      var k := SpanDigits(s[1..]);
      assert s[..1 + k] == [s[0]] + s[1..][..k];
      1 + k
    else 0
  }

  /** `m / 10^k`, exactly. */
  function ScaleDown(m: real, k: nat): real {
    if k == 0 then m else ScaleDown(m, k - 1) / 10.0
  }

  /** `m * 10^k`, exactly. */
  function ScaleUp(m: real, k: nat): real {
    if k == 0 then m else ScaleUp(m, k - 1) * 10.0
  }

  /** The exponent part `e[+|-]digits` of a literal, or "" for none. */
  function ApplyExponent(m: real, tail: string): Option<real> {
    if tail == "" then Some(m)
    else if tail[0] != 'e' && tail[0] != 'E' then None
    else
      var rest := tail[1..];
      var negative := |rest| > 0 && rest[0] == '-';
      var digits := if |rest| > 0 && (rest[0] == '-' || rest[0] == '+') then rest[1..] else rest;
      if digits == "" || !AllDigits(digits) then None
      else if negative then Some(ScaleDown(m, DigitsValue(digits)))
      else Some(ScaleUp(m, DigitsValue(digits)))
  }

  /** The value of `whole.f` for a run of fraction digits `f`. */
  function WithFraction(whole: nat, f: string): real
    requires AllDigits(f)
  {
    whole as real + ScaleDown(DigitsValue(f) as real, |f|)
  }

  /** An unsigned decimal literal: digits, an optional fraction, an optional
      exponent, with at least one digit before or after the point. */
  function ParseUnsigned(t: string): Option<real> {
    var i := SpanDigits(t);
    ParseAfterWhole(i, DigitsValue(t[..i]), t[i..])
  }

  /** The rest of a literal after its `i` leading digits denoting `whole`. */
  function ParseAfterWhole(i: nat, whole: nat, rest: string): Option<real> {
    if rest != "" && rest[0] == '.' then ParseFraction(i, whole, rest[1..])
    else if i == 0 then None
    else ApplyExponent(whole as real, rest)
  }

  /** The rest of a literal after its decimal point. */
  function ParseFraction(i: nat, whole: nat, afterDot: string): Option<real> {
    var j := SpanDigits(afterDot);
    if i + j == 0 then None
    else ApplyExponent(WithFraction(whole, afterDot[..j]), afterDot[j..])
  }

  /** `Number(s)` for strings holding decimal literals: surrounding
      whitespace ignored, blank reads as 0, an optional sign; None is NaN. */
  function ParseNumber(s: string): (r: Option<real>)
    ensures AllWhitespace(s) ==> r == Some(0.0)
  {
    TrimEmptyIff(s);
    var t := Trim(s);
    if t == "" then Some(0.0)
    else
      var negative := t[0] == '-';
      var body := if negative || t[0] == '+' then t[1..] else t;
      match ParseUnsigned(body)
      case None => None
      case Some(v) => Some(if negative then -v else v)
  }

  lemma SpanDigitsOfDigitsThen(a: string, b: string)
    requires AllDigits(a)
    requires b == "" || !IsDigit(b[0])
    ensures SpanDigits(a + b) == |a|
  {
    if |a| > 0 {
      assert (a + b)[1..] == a[1..] + b;
      SpanDigitsOfDigitsThen(a[1..], b);
    }
  }

  lemma TrimUnchanged(s: string)
    requires s != "" && !IsWhitespace(s[0]) && !IsWhitespace(s[|s| - 1])
    ensures Trim(s) == s
  {
    assert TrimStart(s) == s;
  }

  lemma ParseWholeDigits(w: string)
    requires |w| >= 1 && AllDigits(w)
    ensures ParseUnsigned(w) == Some(DigitsValue(w) as real)
  {
    SpanDigitsOfDigitsThen(w, "");
    assert w + "" == w;
    assert w[..|w|] == w;
  }

  lemma ParseDigitsThenDot(w: string, f: string, x: Option<real>)
    requires |w| >= 1 && AllDigits(w)
    requires ParseFraction(|w|, DigitsValue(w), f) == x
    ensures ParseUnsigned(w + ("." + f)) == x
  {
    var s := w + ("." + f);
    SpanDigitsOfDigitsThen(w, "." + f);
    assert s[..|w|] == w;
    assert s[|w|..] == "." + f;
    assert ("." + f)[1..] == f;
  }

  lemma ParseAllDigitFraction(i: nat, whole: nat, f: string)
    requires |f| >= 1 && AllDigits(f)
    ensures ParseFraction(i, whole, f) == Some(WithFraction(whole, f))
  {
    SpanDigitsOfDigitsThen(f, "");
    assert f + "" == f;
    assert f[..|f|] == f;
    assert f[|f|..] == "";
  }

  lemma ParseWholeDotFraction(w: string, f: string)
    requires |w| >= 1 && AllDigits(w) && |f| >= 1 && AllDigits(f)
    ensures ParseUnsigned(w + ("." + f)) == Some(WithFraction(DigitsValue(w), f))
  {
    ParseAllDigitFraction(|w|, DigitsValue(w), f);
    ParseDigitsThenDot(w, f, Some(WithFraction(DigitsValue(w), f)));
  }

  /** A literal that starts with a digit and ends without whitespace is
      read by `Number()` as an unsigned literal. */
  lemma ParseNumberOfDigitLed(s: string)
    requires s != "" && IsDigit(s[0]) && !IsWhitespace(s[|s| - 1])
    ensures ParseNumber(s) == ParseUnsigned(s)
  {
    TrimUnchanged(s);
  }

  lemma ParseOneFractionDigit(whole: nat, d: nat)
    requires d < 10
    ensures ParseUnsigned(NatToString(whole) + ("." + [DigitChar(d)]))
         == Some(whole as real + d as real / 10.0)
  {
    var f := [DigitChar(d)];
    NatToStringRoundTrip(whole);
    ParseWholeDotFraction(NatToString(whole), f);
    assert DigitsValue(f) == d by {
      assert f[..0] == [];
    }
    assert ScaleDown(d as real, 1) == d as real / 10.0;
  }

  lemma ParseTwoFractionDigits(whole: nat, d: nat)
    requires d < 100
    ensures ParseUnsigned(NatToString(whole) + ("." + [DigitChar(d / 10), DigitChar(d % 10)]))
         == Some(whole as real + d as real / 100.0)
  {
    var f := [DigitChar(d / 10), DigitChar(d % 10)];
    NatToStringRoundTrip(whole);
    ParseWholeDotFraction(NatToString(whole), f);
    assert DigitsValue(f[..1]) == d / 10 by {
      assert f[..1][..0] == [];
    }
    assert DigitsValue(f) == d;
    assert ScaleDown(d as real, 1) == d as real / 10.0;
  }

  lemma CentsAsReal(c: nat)
    ensures c as real / 100.0 == (c / 100) as real + (c % 100) as real / 100.0
    ensures c % 100 % 10 == 0 ==> (c % 100) as real / 100.0 == (c % 100 / 10) as real / 10.0
  {
    assert c == 100 * (c / 100) + c % 100;
    assert c % 100 % 10 == 0 ==> c % 100 == 10 * (c % 100 / 10);
  }

  lemma ParseFormatWholeCents(c: nat)
    requires c % 100 == 0
    ensures ParseUnsigned(FormatCents(c)) == Some(c as real / 100.0)
  {
    var w := NatToString(c / 100);
    assert FormatCents(c) == w;
    NatToStringRoundTrip(c / 100);
    ParseWholeDigits(w);
    CentsAsReal(c);
  }

  lemma ParseFormatTenths(c: nat)
    requires c % 100 != 0 && c % 100 % 10 == 0
    ensures ParseUnsigned(FormatCents(c)) == Some(c as real / 100.0)
  {
    assert FormatCents(c) == NatToString(c / 100) + ("." + [DigitChar(c % 100 / 10)]);
    ParseOneFractionDigit(c / 100, c % 100 / 10);
    CentsAsReal(c);
  }

  lemma ParseFormatHundredths(c: nat)
    requires c % 100 % 10 != 0
    ensures ParseUnsigned(FormatCents(c)) == Some(c as real / 100.0)
  {
    assert FormatCents(c) == NatToString(c / 100) + ("." + [DigitChar(c % 100 / 10), DigitChar(c % 100 % 10)]);
    ParseTwoFractionDigits(c / 100, c % 100);
    CentsAsReal(c);
  }

  lemma ParseUnsignedFormatCents(c: nat)
    ensures ParseUnsigned(FormatCents(c)) == Some(InReais(c))
  {
    if c % 100 == 0 {
      ParseFormatWholeCents(c);
    } else if c % 100 % 10 == 0 {
      ParseFormatTenths(c);
    } else {
      ParseFormatHundredths(c);
    }
  }

  /** Parsing the text `String(x)` renders for a non-negative amount gives
      the amount back. */
  lemma ParseFormatCents(c: nat)
    ensures ParseNumber(FormatCents(c)) == Some(InReais(c))
  {
    ParseNumberOfDigitLed(FormatCents(c));
    ParseUnsignedFormatCents(c);
  }

  /** `String(c / 100)` for any cents amount: a minus sign before the
      magnitude when negative. */
  function FormatAmount(c: int): (s: string)
    ensures |s| >= 1 && IsDigit(s[|s| - 1])
    ensures s[0] == '-' <==> c < 0
  {
    if c < 0 then "-" + FormatCents(-c) else FormatCents(c)
  }

  /** A minus sign before a digit-led literal negates its value. */
  lemma ParseNegated(s: string, f: string, x: real, y: real)
    requires |f| >= 1 && IsDigit(f[0]) && IsDigit(f[|f| - 1])
    requires ParseUnsigned(f) == Some(x) && y == -x
    requires s == "-" + f
    ensures ParseNumber(s) == Some(y)
  {
    assert s[0] == '-' && s[1..] == f;
    assert s[|s| - 1] == f[|f| - 1];
    TrimUnchanged(s);
  }

  lemma ParseFormatNegative(s: string, c: int)
    requires c < 0 && s == FormatAmount(c)
    ensures ParseNumber(s) == Some(InReais(c))
  {
    var n: nat := -c;
    var f := FormatCents(n);
    var x := InReais(n);
    assert s == "-" + f;
    ParseUnsignedFormatCents(n);
    NegatedReais(c, n, x);
    ParseNegated(s, f, x, InReais(c));
  }

  /** The amount of a negative `c` is minus the amount of its magnitude. */
  lemma NegatedReais(c: int, n: nat, x: real)
    requires n == -c && x == InReais(n)
    ensures InReais(c) == -x
  {
    InReaisNegate(c);
  }

  /** `Number(String(x))` is `x` for every amount in cents: opening the cost
      editor and saving without typing keeps the value. */
  lemma ParseFormatAmount(s: string, c: int)
    requires s == FormatAmount(c)
    ensures ParseNumber(s) == Some(InReais(c))
  {
    if c < 0 {
      ParseFormatNegative(s, c);
    } else {
      ParseFormatCents(c);
    }
  }
}
