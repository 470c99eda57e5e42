/**
 * Money amounts.  The source passes the premium as a PHP int or float and
 * turns it into text with strval (and implicitly in setAttribute).  Here an
 * amount is held exactly in cents; FormatAmount renders it the way strval
 * renders such a number: no fraction for whole amounts, otherwise one or two
 * decimals with no trailing zero.  ParseAmount reads the text back.
 */
module Amounts {
  import opened Wrappers

  datatype Amount = Amount(cents: int)

  predicate IsDigit(c: char)
  {
    '0' <= c <= '9'
  }

  predicate AllDigits(s: string)
  {
    forall i :: 0 <= i < |s| ==> IsDigit(s[i])
  }

  function DigitChar(d: nat): (c: char)
    requires d < 10
    ensures IsDigit(c)
  {
    ('0' as int + d) as char
  }

  function DigitValue(c: char): (d: nat)
    requires IsDigit(c)
    ensures d < 10
  {
    c as int - '0' as int
  }

  /** Decimal text of a natural number, most significant digit first, no leading zeros. */
  function NatToString(n: nat): (s: string)
    ensures |s| >= 1 && AllDigits(s)
    ensures |s| > 1 ==> s[0] != '0'
  {
    if n < 10 then [DigitChar(n)] else NatToString(n / 10) + [DigitChar(n % 10)]
  }

  /** The number a string of decimal digits denotes. */
  function DigitsValue(s: string): nat
    requires AllDigits(s)
  {
    if s == [] then 0 else DigitsValue(s[..|s| - 1]) * 10 + DigitValue(s[|s| - 1])
  }

  /** The decimals strval prints for a number of cents below 100. */
  function FractionText(f: nat): (s: string)
    requires f < 100
  {
    if f == 0 then ""
    else if f % 10 == 0 then ['.', DigitChar(f / 10)]
    else ['.', DigitChar(f / 10), DigitChar(f % 10)]
  }

  function Magnitude(a: Amount): nat
  {
    if a.cents < 0 then -a.cents else a.cents
  }

  /** strval of the amount as a PHP number. */
  function FormatAmount(a: Amount): string
  {
    var m := Magnitude(a);
    (if a.cents < 0 then "-" else "") + NatToString(m / 100) + FractionText(m % 100)
  }

  /** Index of the first occurrence of c in s, or |s| when there is none. */
  function IndexOf(s: string, c: char): (k: nat)
    ensures k <= |s|
    ensures k < |s| ==> s[k] == c
    ensures forall i :: 0 <= i < k ==> s[i] != c
  {
    if s == [] then 0 else if s[0] == c then 0 else 1 + IndexOf(s[1..], c)
  }

  /** Reads an unsigned decimal with at most two decimals, in cents. */
  function ParseUnsigned(t: string): Option<nat>
  {
    var k := IndexOf(t, '.');
    var w := t[..k];
    if w == [] || !AllDigits(w) then None
    else if k == |t| then Some(DigitsValue(w) * 100)
    else
      var f := t[k + 1..];
      if |f| == 1 && IsDigit(f[0]) then Some(DigitsValue(w) * 100 + DigitValue(f[0]) * 10)
      else if |f| == 2 && IsDigit(f[0]) && IsDigit(f[1])
      then Some(DigitsValue(w) * 100 + DigitValue(f[0]) * 10 + DigitValue(f[1]))
      else None
  }

  /** Reads an optionally negative decimal amount. */
  function ParseAmount(s: string): Option<Amount>
  {
    if |s| > 0 && s[0] == '-' then
      match ParseUnsigned(s[1..])
      case Some(m) => Some(Amount(-(m as int)))
      case None => None
    else
      match ParseUnsigned(s)
      case Some(m) => Some(Amount(m))
      case None => None
  }

  lemma {:induction false} NatToStringRoundTrip(n: nat)
    ensures DigitsValue(NatToString(n)) == n
  {
    if n >= 10 {
      var s := NatToString(n);
      assert s[..|s| - 1] == NatToString(n / 10);
      NatToStringRoundTrip(n / 10);
    }
  }

  lemma {:induction false} IndexOfAfterPrefix(a: string, b: string, c: char)
    requires forall i :: 0 <= i < |a| ==> a[i] != c
    requires b == [] || b[0] == c
    ensures IndexOf(a + b, c) == |a|
  {
    if a != [] {
      assert (a + b)[1..] == a[1..] + b;
      IndexOfAfterPrefix(a[1..], b, c);
    }
  }

  lemma NoPointInDigits(w: string)
    requires AllDigits(w)
    ensures forall i :: 0 <= i < |w| ==> w[i] != '.'
  {
    forall i | 0 <= i < |w| ensures w[i] != '.' { assert IsDigit(w[i]); }
  }

  /** A whole number of units reads back as that many hundreds of cents. */
  lemma ParseWhole(q: nat)
    ensures ParseUnsigned(NatToString(q)) == Some(q * 100)
  {
    var w := NatToString(q);
    NatToStringRoundTrip(q);
    NoPointInDigits(w);
    IndexOfAfterPrefix(w, [], '.');
    assert w + [] == w;
    assert w[..|w|] == w;
  }

  /** With a point after the digits, the decimals are read from what follows the point. */
  lemma ParseDecimals(w: string, g: string)
    requires AllDigits(w)
    ensures IndexOf(w + ['.'] + g, '.') == |w|
    ensures (w + ['.'] + g)[..|w|] == w && (w + ['.'] + g)[|w| + 1..] == g
  {
    NoPointInDigits(w);
    assert w + ['.'] + g == w + (['.'] + g);
    IndexOfAfterPrefix(w, ['.'] + g, '.');
  }

  lemma ParseOneDecimal(q: nat, d: nat)
    requires d < 10
    ensures ParseUnsigned(NatToString(q) + ['.', DigitChar(d)]) == Some(q * 100 + d * 10)
  {
    var w := NatToString(q);
    NatToStringRoundTrip(q);
    ParseDecimals(w, [DigitChar(d)]);
    assert w + ['.', DigitChar(d)] == w + ['.'] + [DigitChar(d)];
  }

  lemma ParseTwoDecimals(q: nat, d: nat, e: nat)
    requires d < 10 && e < 10
    ensures ParseUnsigned(NatToString(q) + ['.', DigitChar(d), DigitChar(e)]) == Some(q * 100 + d * 10 + e)
  {
    var w := NatToString(q);
    NatToStringRoundTrip(q);
    ParseDecimals(w, [DigitChar(d), DigitChar(e)]);
    assert w + ['.', DigitChar(d), DigitChar(e)] == w + ['.'] + [DigitChar(d), DigitChar(e)];
  }

  /** A number below a hundred is its tens digit and its units digit. */
  lemma TensAndUnits(f: nat)
    requires f < 100
    ensures f == (f / 10) * 10 + f % 10
  {
  }

  /** Whole units followed by the printed cents read back as the cents in all. */
  lemma PartsRoundTrip(q: nat, f: nat)
    requires f < 100
    ensures ParseUnsigned(NatToString(q) + FractionText(f)) == Some(q * 100 + f)
  {
    TensAndUnits(f);
    if f == 0 {
      assert NatToString(q) + FractionText(f) == NatToString(q);
      ParseWhole(q);
    } else if f % 10 == 0 {
      ParseOneDecimal(q, f / 10);
    } else {
      ParseTwoDecimals(q, f / 10, f % 10);
    }
  }

  lemma UnsignedRoundTrip(m: nat)
    ensures ParseUnsigned(NatToString(m / 100) + FractionText(m % 100)) == Some(m)
  {
    PartsRoundTrip(m / 100, m % 100);
  }

  /** A leading minus sign negates what the rest reads as. */
  lemma ParseNegative(body: string, m: nat)
    requires ParseUnsigned(body) == Some(m)
    ensures ParseAmount("-" + body) == Some(Amount(-(m as int)))
  {
    assert ("-" + body)[1..] == body;
  }

  /** Text starting with a digit reads as the unsigned amount. */
  lemma ParsePositive(body: string, m: nat)
    requires ParseUnsigned(body) == Some(m) && body != [] && IsDigit(body[0])
    ensures ParseAmount(body) == Some(Amount(m))
  {
  }

  /** Reading back the printed amount gives the amount. */
  lemma FormatParseRoundTrip(a: Amount)
    ensures ParseAmount(FormatAmount(a)) == Some(a)
  {
    if a.cents < 0 {
      NegativeRoundTrip(a);
    } else {
      NonNegativeRoundTrip(a);
    }
  }

  lemma NegativeRoundTrip(a: Amount)
    requires a.cents < 0
    ensures ParseAmount(FormatAmount(a)) == Some(a)
  {
    var m := Magnitude(a);
    var body := NatToString(m / 100) + FractionText(m % 100);
    UnsignedRoundTrip(m);
    assert FormatAmount(a) == "-" + body;
    ParseNegative(body, m);
  }

  lemma NonNegativeRoundTrip(a: Amount)
    requires a.cents >= 0
    ensures ParseAmount(FormatAmount(a)) == Some(a)
  {
    var m := Magnitude(a);
    var w := NatToString(m / 100);
    var body := w + FractionText(m % 100);
    UnsignedRoundTrip(m);
    assert FormatAmount(a) == body;
    assert body[0] == w[0];
    ParsePositive(body, m);
  }

  /** Different amounts never print the same: the mismatch diagnostics always tell them apart. */
  lemma FormatAmountInjective(a: Amount, b: Amount)
    requires FormatAmount(a) == FormatAmount(b)
    ensures a == b
  {
    FormatParseRoundTrip(a);
    FormatParseRoundTrip(b);
  }

}
