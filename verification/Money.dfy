/** Amounts of money as decimal strings and as whole minor units (packages/commerce/src/model.ts:95-114). */
module Money {
  import opened Common
  import opened Text

  const MAX_SAFE := 9007199254740991

  datatype Error = UnsupportedCurrency | InvalidAmount | InvalidPrecision

  /** Decimal places of the currencies the payment provider takes; none for any other. */
  function Exponent(currency: string): Option<nat> {
    if currency in ["JPY", "HUF", "TWD"] then Some(0)
    else if currency in ["AUD", "BRL", "CAD", "CHF", "CNY", "CZK", "DKK", "EUR", "GBP", "HKD", "ILS", "MXN", "MYR", "NOK",
                         "NZD", "PHP", "PLN", "SEK", "SGD", "THB", "USD"] then Some(2)
    else None
  }

  predicate Digits(s: string) {
    forall i :: 0 <= i < |s| ==> '0' <= s[i] <= '9'
  }

  function Point(s: string): (i: nat)
    ensures i <= |s|
    ensures i < |s| ==> s[i] == '.'
    ensures '.' !in s[..i]
  {
    if s == "" || s[0] == '.' then 0
    else
      var i := 1 + Point(s[1..]);
      assert s[..i] == [s[0]] + s[1..][..i - 1];
      i
  }

  // Digits, and perhaps a point and more digits.
  predicate IsAmount(s: string) {
    var p := Point(s);
    && p > 0 && Digits(s[..p])
    && (p < |s| ==> p + 1 < |s| && Digits(s[p + 1..]))
  }

  function Whole(s: string): string {
    s[..Point(s)]
  }

  function Fraction(s: string): string {
    var p := Point(s);
    if p < |s| then s[p + 1..] else ""
  }

  function Zeros(n: nat): (z: string)
    ensures |z| == n && Digits(z) && forall i :: 0 <= i < n ==> z[i] == '0'
  {
    if n == 0 then "" else Zeros(n - 1) + "0"
  }

  function PadEnd(s: string, n: nat): (r: string)
    ensures |r| >= n && (Digits(s) ==> Digits(r))
  {
    if |s| < n then s + Zeros(n - |s|) else s
  }

  function PadStart(s: string, n: nat): (r: string)
    ensures |r| >= n && (Digits(s) ==> Digits(r))
  {
    if |s| < n then Zeros(n - |s|) + s else s
  }

  function Pow10(n: nat): (p: nat)
    ensures p > 0
  {
    if n == 0 then 1 else 10 * Pow10(n - 1)
  }

  function Scaled(whole: string, fraction: string, exponent: nat): nat
    requires Digits(whole) && Digits(fraction)
  {
    Value(whole) * Pow10(exponent) + Value(PadEnd(fraction[..Min(|fraction|, exponent)], exponent))
  }

  predicate AllZeros(s: string) {
    forall i :: 0 <= i < |s| ==> s[i] == '0'
  }

  function AmountToMinor(value: string, currency: string): Result<nat, Error> {
    var exponent := Exponent(currency);
    if exponent.None? then Err(UnsupportedCurrency)
    else if !IsAmount(value) then Err(InvalidAmount)
    else
      var e := exponent.value;
      var whole, fraction := Whole(value), Fraction(value);
      if |fraction| > e && !AllZeros(fraction[e..]) then Err(InvalidPrecision)
      else if Scaled(whole, fraction, e) > MAX_SAFE then Err(InvalidAmount)
      else Ok(Scaled(whole, fraction, e))
  }

  /** Digits with the point put before the last e of them, if any. */
  function Pointed(digits: string, e: nat): string
    requires |digits| > e
  {
    if e > 0 then digits[..|digits| - e] + "." + digits[|digits| - e..] else digits
  }

  function MinorToAmount(value: int, currency: string): Result<string, Error> {
    if !(0 <= value <= MAX_SAFE) then Err(InvalidAmount)
    else if Exponent(currency).None? then Err(UnsupportedCurrency)
    else
      var e := Exponent(currency).value;
      var digits := PadStart(Decimal(value), e + 1);
      Ok(Pointed(digits, e))
  }

  // --------------------------------------------------------------- products

  lemma {:induction false} Scale(k: nat, p: nat)
    requires k > 0
    ensures k * p >= p
  {
  }

  lemma Spread(a: int, b: int, c: int)
    ensures (a + b) * c == a * c + b * c
  {
  }

  lemma SameFactor(a: int, b: int, p: nat)
    requires p > 0 && a * p == b * p
    ensures a == b
  {
    if a < b {
      Scale(b - a, p);
      Spread(a, b - a, p);
    } else if b < a {
      Scale(a - b, p);
      Spread(b, a - b, p);
    }
  }

  lemma Regroup(a: int, b: int, c: int)
    ensures a * b * c == a * (b * c) == a * c * b == b * (a * c)
  {
  }

  lemma {:induction false} PowersAdd(m: nat, n: nat)
    ensures Pow10(m + n) == Pow10(m) * Pow10(n)
  {
    if n > 0 {
      PowersAdd(m, n - 1);
      Regroup(10, Pow10(m), Pow10(n - 1));
      assert Pow10(m + n) == 10 * Pow10(m + n - 1);
    }
  }

  // --------------------------------------------------------------- what a decimal string means

  /** v minor units are the number written: v / 10^e and the digits over 10^places are one value. */
  ghost predicate Denotes(s: string, v: nat, e: nat)
    requires IsAmount(s)
  {
    v * Pow10(|Fraction(s)|) == Value(Whole(s) + Fraction(s)) * Pow10(e)
  }

  lemma LastDigit(s: string)
    requires Digits(s) && s != ""
    ensures Digits(s[..|s| - 1]) && Value(s) == 10 * Value(s[..|s| - 1]) + (s[|s| - 1] as int - '0' as int)
  {
  }

  lemma {:induction false} ValueOfConcat(a: string, b: string)
    requires Digits(a) && Digits(b)
    ensures Digits(a + b) && Value(a + b) == Value(a) * Pow10(|b|) + Value(b)
  {
    if b == "" {
      assert a + b == a;
    } else {
      hide Value;
      var n := |b| - 1;
      ValueOfConcat(a, b[..n]);
      assert (a + b)[..|a + b| - 1] == a + b[..n];
      LastDigit(a + b);
      LastDigit(b);
      Regroup(10, Value(a), Pow10(n));
    }
  }

  lemma {:induction false} ValueOfZeros(s: string)
    requires AllZeros(s)
    ensures Digits(s) && Value(s) == 0
  {
    if s != "" {
      ValueOfZeros(s[..|s| - 1]);
    }
  }

  lemma {:induction false} ZeroValue(s: string)
    requires Digits(s) && Value(s) == 0
    ensures AllZeros(s)
  {
    if s != "" {
      ZeroValue(s[..|s| - 1]);
      assert s == s[..|s| - 1] + [s[|s| - 1]];
    }
  }

  lemma {:induction false} ValueBelow(s: string)
    requires Digits(s)
    ensures Value(s) < Pow10(|s|)
  {
    if s != "" {
      ValueBelow(s[..|s| - 1]);
    }
  }

  lemma PadEndScales(s: string, n: nat)
    requires Digits(s) && |s| <= n
    ensures Value(PadEnd(s, n)) == Value(s) * Pow10(n - |s|)
  {
    if |s| < n {
      ValueOfZeros(Zeros(n - |s|));
      ValueOfConcat(s, Zeros(n - |s|));
    }
  }

  lemma ShortFractionScaled(fraction: string, e: nat)
    requires Digits(fraction) && |fraction| <= e
    ensures Value(PadEnd(fraction, e)) * Pow10(|fraction|) == Value(fraction) * Pow10(e)
  {
    hide Value, Pow10;
    PadEndScales(fraction, e);
    PowersAdd(e - |fraction|, |fraction|);
    Regroup(Value(fraction), Pow10(e - |fraction|), Pow10(|fraction|));
  }

  lemma LongFractionScaled(kept: string, dropped: string)
    requires Digits(kept) && AllZeros(dropped)
    ensures Digits(kept + dropped)
    ensures Value(kept) * Pow10(|kept| + |dropped|) == Value(kept + dropped) * Pow10(|kept|)
  {
    hide Value, Pow10;
    ValueOfZeros(dropped);
    ValueOfConcat(kept, dropped);
    PowersAdd(|kept|, |dropped|);
    Regroup(Value(kept), Pow10(|kept|), Pow10(|dropped|));
  }

  // The kept places of a fraction whose other places are zeros.
  lemma FractionScaled(fraction: string, e: nat)
    requires Digits(fraction) && (|fraction| > e ==> AllZeros(fraction[e..]))
    ensures Value(PadEnd(fraction[..Min(|fraction|, e)], e)) * Pow10(|fraction|) == Value(fraction) * Pow10(e)
  {
    hide Value, Pow10;
    if |fraction| <= e {
      assert fraction[..|fraction|] == fraction;
      ShortFractionScaled(fraction, e);
    } else {
      assert fraction == fraction[..e] + fraction[e..];
      LongFractionScaled(fraction[..e], fraction[e..]);
    }
  }

  lemma ScaledDenotes(value: string, e: nat)
    requires IsAmount(value) && (|Fraction(value)| > e ==> AllZeros(Fraction(value)[e..]))
    ensures Denotes(value, Scaled(Whole(value), Fraction(value), e), e)
  {
    hide Value, PadEnd;
    var whole, fraction := Whole(value), Fraction(value);
    var kept := Value(PadEnd(fraction[..Min(|fraction|, e)], e));
    FractionScaled(fraction, e);
    ValueOfConcat(whole, fraction);
    Spread(Value(whole) * Pow10(e), kept, Pow10(|fraction|));
    Spread(Value(whole) * Pow10(|fraction|), Value(fraction), Pow10(e));
    Regroup(Value(whole), Pow10(e), Pow10(|fraction|));
  }

  // A leftover below its place value, with nothing to balance it, is nothing.
  lemma LeftoverIsZero(v: nat, a: nat, b: nat, q: nat)
    requires b < q && v * q == a * q + b
    ensures b == 0
  {
    if v > a {
      Scale(v - a, q);
      Spread(a, v - a, q);
    } else if v < a {
      Scale(a - v, q);
      Spread(v, a - v, q);
    }
  }

  /** If some whole number of minor units is the number written, the places to drop are zeros. */
  lemma DroppedPlacesAreZeros(value: string, e: nat, v: nat)
    requires IsAmount(value) && Denotes(value, v, e)
    ensures |Fraction(value)| > e ==> AllZeros(Fraction(value)[e..])
  {
    hide Value;
    var whole, fraction := Whole(value), Fraction(value);
    if |fraction| > e {
      var high, low := whole + fraction[..e], fraction[e..];
      assert whole + fraction == high + low;
      ValueOfConcat(high, low);
      ValueBelow(low);
      PowersAdd(|low|, e);
      Regroup(v, Pow10(|low|), Pow10(e));
      SameFactor(v * Pow10(|low|), Value(high) * Pow10(|low|) + Value(low), Pow10(e));
      LeftoverIsZero(v, Value(high), Value(low), Pow10(|low|));
      ZeroValue(low);
    }
  }

  /** A converted amount is exactly the number written and a safe integer; no other amount is. */
  lemma ConversionIsExact(value: string, currency: string, v: nat)
    ensures AmountToMinor(value, currency) == Ok(v)
       <==> Exponent(currency).Some? && IsAmount(value) && Denotes(value, v, Exponent(currency).value) && v <= MAX_SAFE
  {
    hide Exponent, Value, Scaled;
    if Exponent(currency).Some? && IsAmount(value) {
      var e := Exponent(currency).value;
      if Denotes(value, v, e) {
        DroppedPlacesAreZeros(value, e, v);
        ScaledDenotes(value, e);
        SameFactor(v, Scaled(Whole(value), Fraction(value), e), Pow10(|Fraction(value)|));
      } else if AmountToMinor(value, currency).Ok? {
        ScaledDenotes(value, e);
      }
    }
  }

  lemma {:induction false} PointOf(a: string, b: string)
    requires Digits(a)
    ensures Point(a) == |a|
    ensures Point(a + "." + b) == |a|
  {
    if a == "" {
      assert a + "." + b == "." + b;
    } else {
      PointOf(a[1..], b);
      assert (a + "." + b)[1..] == a[1..] + "." + b;
    }
  }

  lemma PadStartKeepsValue(s: string, n: nat)
    requires Digits(s)
    ensures Value(PadStart(s, n)) == Value(s)
  {
    if |s| < n {
      ValueOfZeros(Zeros(n - |s|));
      ValueOfConcat(Zeros(n - |s|), s);
    }
  }

  lemma PointedParts(digits: string, e: nat)
    requires Digits(digits) && |digits| > e
    ensures IsAmount(Pointed(digits, e))
    ensures Whole(Pointed(digits, e)) == digits[..|digits| - e] && Fraction(Pointed(digits, e)) == digits[|digits| - e..]
  {
    var whole, fraction := digits[..|digits| - e], digits[|digits| - e..];
    var text := Pointed(digits, e);
    PointOf(if e > 0 then whole else digits, fraction);
    if e > 0 {
      assert text[..|whole|] == whole && text[|whole| + 1..] == fraction;
    } else {
      assert text[..|digits|] == digits == whole && fraction == "";
    }
  }

  /** They denote their value in minor units. */
  lemma PointedDigitsDenote(digits: string, e: nat, v: nat)
    requires Digits(digits) && |digits| > e && Value(digits) == v
    ensures IsAmount(Pointed(digits, e)) && Denotes(Pointed(digits, e), v, e)
  {
    hide Value, Pointed, Pow10, Whole, Fraction, IsAmount;
    PointedParts(digits, e);
    assert digits == digits[..|digits| - e] + digits[|digits| - e..];
  }

  /** Every safe amount survives being written out and read back. */
  lemma AmountsRoundTrip(value: int, currency: string)
    requires 0 <= value <= MAX_SAFE && Exponent(currency).Some?
    ensures MinorToAmount(value, currency).Ok?
    ensures AmountToMinor(MinorToAmount(value, currency).value, currency) == Ok(value)
  {
    hide Exponent, Value, IsAmount, AmountToMinor, Decimal;
    var e := Exponent(currency).value;
    var digits := PadStart(Decimal(value), e + 1);
    ValueOfDecimal(value);
    PadStartKeepsValue(Decimal(value), e + 1);
    PointedDigitsDenote(digits, e, value);
    ConversionIsExact(MinorToAmount(value, currency).value, currency, value);
  }
}
