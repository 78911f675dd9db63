/**
 * Decimal rendering of signed integers, as used to put a millisecond count
 * into a connect-option string, and its inverse.
 */
module Decimal {
  import opened Results

  predicate IsDigit(c: char) { '0' <= c <= '9' }

  predicate AllDigits(s: string) {
    forall i :: 0 <= i < |s| ==> IsDigit(s[i])
  }

  function DigitChar(d: nat): (c: char)
    requires d < 10
    ensures IsDigit(c)
    ensures (c as int) - ('0' as int) == d
  {
    (('0' as int) + d) as char
  }

  function DigitValue(c: char): nat
    requires IsDigit(c)
  {
    (c as int) - ('0' as int)
  }

  /** The decimal digits of `n`, most significant first, without leading zeros. */
  function Digits(n: nat): (s: string)
    ensures |s| >= 1
    ensures AllDigits(s)
    ensures |s| > 1 ==> s[0] != '0'
    decreases n
  {
    if n < 10 then [DigitChar(n)] else Digits(n / 10) + [DigitChar(n % 10)]
  }

  /** `n` written in base ten, with a leading '-' for negative numbers. */
  function ToString(n: int): (s: string)
    ensures |s| >= 1
    ensures s[0] == '-' <==> n < 0
    ensures ';' !in s
  {
    if n < 0 then "-" + Digits(-n) else Digits(n)
  }

  /** The number a string of decimal digits denotes. */
  function DigitsValue(s: string): nat
    requires AllDigits(s)
  {
    if |s| == 0 then 0 else DigitsValue(s[..|s| - 1]) * 10 + DigitValue(s[|s| - 1])
  }

  /** Reads back an integer written by `ToString`. */
  function Parse(s: string): Option<int> {
    if |s| > 1 && s[0] == '-' && AllDigits(s[1..]) then Some(-(DigitsValue(s[1..]) as int))
    else if |s| > 0 && AllDigits(s) then Some(DigitsValue(s))
    else None
  }

  lemma {:induction false} DigitsRoundTrip(n: nat)
    ensures DigitsValue(Digits(n)) == n
    decreases n
  {
    if n >= 10 {
      var s := Digits(n);
      assert s[..|s| - 1] == Digits(n / 10);
      DigitsRoundTrip(n / 10);
    }
  }

  lemma ParseDigitString(s: string)
    requires |s| > 0 && AllDigits(s)
    ensures Parse(s) == Some(DigitsValue(s) as int)
  {
    assert IsDigit(s[0]);
  }

  lemma ParseSignedDigitString(s: string)
    requires |s| > 1 && s[0] == '-' && AllDigits(s[1..])
    ensures Parse(s) == Some(-(DigitsValue(s[1..]) as int))
  {
  }

  /** Rendering loses nothing: the rendered text parses back to the same integer. */
  lemma ParseToString(n: int)
    ensures Parse(ToString(n)) == Some(n)
  {
    var s := ToString(n);
    if n < 0 {
      var d := Digits(-n);
      assert s == "-" + d;
      assert s[1..] == d;
      DigitsRoundTrip(-n);
      ParseSignedDigitString(s);
    } else {
      DigitsRoundTrip(n);
      ParseDigitString(s);
    }
  }

  /** Distinct integers are rendered as distinct strings. */
  lemma ToStringInjective(m: int, n: int)
    ensures ToString(m) == ToString(n) ==> m == n
  {
    ParseToString(m);
    ParseToString(n);
  }
}
