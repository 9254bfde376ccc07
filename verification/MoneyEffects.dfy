/** Which currencies and strings are taken, and how amounts are written. */
module MoneyEffects {
  import opened Common
  import opened Text
  import opened Money

  /** Three currencies have no minor unit, these others have hundredths, and no other currency is taken. */
  lemma CurrenciesAre(c: string)
    ensures Exponent(c) == Some(0) <==> c == "JPY" || c == "HUF" || c == "TWD"
    ensures Exponent(c) == Some(2) <==>
              || c == "AUD" || c == "BRL" || c == "CAD" || c == "CHF" || c == "CNY" || c == "CZK" || c == "DKK"
              || c == "EUR" || c == "GBP" || c == "HKD" || c == "ILS" || c == "MXN" || c == "MYR" || c == "NOK"
              || c == "NZD" || c == "PHP" || c == "PLN" || c == "SEK" || c == "SGD" || c == "THB" || c == "USD"
    ensures Exponent(c).Some? ==> Exponent(c).value == 0 || Exponent(c).value == 2
  {
  }

  /** Digits alone, or digits on both sides of one point. */
  ghost predicate IsPlainDecimal(s: string) {
    || (s != "" && forall i :: 0 <= i < |s| ==> '0' <= s[i] <= '9')
    || exists p :: 0 < p < |s| - 1 && HasPointAt(s, p)
  }

  ghost predicate HasPointAt(s: string, p: int) {
    0 <= p < |s| && s[p] == '.' && forall i :: 0 <= i < |s| && i != p ==> '0' <= s[i] <= '9'
  }

  lemma AmountsAre(s: string)
    ensures IsAmount(s) <==> IsPlainDecimal(s)
  {
    var p := Point(s);
    assert forall i :: 0 <= i < p ==> s[i] in s[..p];
    if IsAmount(s) {
      assert forall i :: 0 <= i < p ==> s[i] == s[..p][i];
      assert forall i :: p < i < |s| ==> s[i] == s[p + 1..][i - p - 1];
      if p < |s| {
        assert HasPointAt(s, p);
      }
    }
    if q :| 0 < q < |s| - 1 && HasPointAt(s, q) {
      assert p == q;
      assert Digits(s[..p]) && Digits(s[p + 1..]);
    }
  }

  /** Each digit written counts ten times what comes before it. */
  lemma ValueByDigits(s: string)
    requires Digits(s)
    ensures Value("") == 0
    ensures forall d :: '0' <= d <= '9' ==> Digits(s + [d]) && Value(s + [d]) == 10 * Value(s) + (d as int - '0' as int)
  {
    forall d | '0' <= d <= '9' ensures Digits(s + [d]) && Value(s + [d]) == 10 * Value(s) + (d as int - '0' as int) {
      assert (s + [d])[..|s|] == s;
      assert Digits(s + [d]);
    }
  }

  lemma {:induction false} NoLeadingZero(n: nat)
    ensures Decimal(n)[0] == '0' ==> n == 0 && |Decimal(n)| == 1
  {
    if n >= 10 {
      NoLeadingZero(n / 10);
    }
  }

  lemma PointedIs(digits: string, e: nat)
    requires Digits(digits) && |digits| > e > 0
    ensures var s := Pointed(digits, e);
            && |s| == |digits| + 1 && HasPointAt(s, |s| - e - 1) && s[0] == digits[0]
            && s[..|s| - e - 1] + s[|s| - e..] == digits
  {
  }

  lemma PaddedIs(plain: string, n: nat)
    requires plain != "" && Digits(plain) && (plain[0] == '0' ==> |plain| == 1) && n > 0
    ensures var digits := PadStart(plain, n);
            Digits(digits) && |digits| >= n && (digits[0] == '0' ==> |digits| == n)
  {
  }

  lemma UnpointedIs(digits: string)
    requires digits != ""
    ensures Pointed(digits, 0) == digits
  {
  }

  ghost predicate IsWritten(s: string, v: nat, e: nat) {
    if e == 0 then s != "" && Digits(s) && Value(s) == v && (s[0] == '0' ==> |s| == 1)
    else
      && |s| > e + 1 && HasPointAt(s, |s| - e - 1) && Digits(s[..|s| - e - 1] + s[|s| - e..])
      && Value(s[..|s| - e - 1] + s[|s| - e..]) == v && (s[0] == '0' ==> |s| == e + 2)
  }

  lemma WrittenIs(v: nat, e: nat)
    ensures |PadStart(Decimal(v), e + 1)| > e && IsWritten(Pointed(PadStart(Decimal(v), e + 1), e), v, e)
  {
    hide Value, Decimal, PadStart, Pointed, HasPointAt;
    ValueOfDecimal(v);
    NoLeadingZero(v);
    PadStartKeepsValue(Decimal(v), e + 1);
    PaddedIs(Decimal(v), e + 1);
    var digits := PadStart(Decimal(v), e + 1);
    if e > 0 {
      PointedIs(digits, e);
    } else {
      UnpointedIs(digits);
    }
  }

  /** Safe amounts are written with exactly the currency's places after the point and no zero more than needed before it. */
  lemma AmountsAreWrittenExactly(value: int, currency: string)
    ensures MinorToAmount(value, currency).Ok? <==> 0 <= value <= 9007199254740991 && Exponent(currency).Some?
    ensures MinorToAmount(value, currency).Ok? ==>
              IsWritten(MinorToAmount(value, currency).value, value, Exponent(currency).value)
  {
    hide Exponent, Value, Decimal, PadStart, Pointed, IsWritten;
    if MinorToAmount(value, currency).Ok? {
      WrittenIs(value, Exponent(currency).value);
    }
  }
}
