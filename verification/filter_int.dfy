/** `filter_var($value, FILTER_VALIDATE_INT)` on strings, and the canonical
    decimal spelling of an integer that it accepts.

    The filter accepts an optional `+` or `-` sign followed either by a
    single `0` or by decimal digits that do not start with `0`, provided the
    value fits in PHP's 64-bit integer. Surrounding whitespace, which PHP
    trims before checking, is not accepted here. */
module FilterInt {
  import opened Php

  const PhpIntMax: int := 0x7FFF_FFFF_FFFF_FFFF
  const PhpIntMin: int := -0x8000_0000_0000_0000

  predicate IsDigit(c: char) {
    '0' <= c <= '9'
  }

  function DigitValue(c: char): (d: nat)
    requires IsDigit(c)
    ensures d < 10
  {
    (c - '0') as nat
  }

  function DigitChar(d: nat): (c: char)
    requires d < 10
    ensures IsDigit(c) && DigitValue(c) == d
  {
    ('0' as int + d) as char
  }

  predicate AllDigits(s: string) {
    forall i :: 0 <= i < |s| ==> IsDigit(s[i])
  }

  /** Digits without a leading zero: the spelling of a positive integer. */
  predicate IsCanonicalDigits(s: string) {
    |s| > 0 && '1' <= s[0] <= '9' && AllDigits(s)
  }

  /** The number a string of decimal digits spells, most significant first. */
  function DigitsValue(s: string): nat
    requires AllDigits(s)
  {
    if |s| == 0 then 0 else DigitsValue(s[..|s| - 1]) * 10 + DigitValue(s[|s| - 1])
  }

  /** The decimal spelling of `n`, without leading zeros. */
  function Decimal(n: nat): (s: string)
    ensures AllDigits(s) && |s| > 0
    ensures n > 0 ==> IsCanonicalDigits(s)
    ensures n == 0 ==> s == "0"
  {
    if n < 10 then [DigitChar(n)] else Decimal(n / 10) + [DigitChar(n % 10)]
  }

  /** The spelling PHP gives an integer when it converts it to a string. */
  function SignedDecimal(n: int): string {
    if n < 0 then "-" + Decimal(-n) else Decimal(n)
  }

  /** `filter_var(s, FILTER_VALIDATE_INT)`: the integer `s` spells, or
      `false` (here `None`) when it spells none. */
  function FilterValidateInt(s: string): (r: Option<int>)
    ensures r.Some? ==> PhpIntMin <= r.value <= PhpIntMax
  {
    var negative := |s| > 0 && s[0] == '-';
    var digits := if |s| > 0 && (s[0] == '-' || s[0] == '+') then s[1..] else s;
    if digits == "0" then Some(0)
    else if IsCanonicalDigits(digits) then
      var magnitude: int := DigitsValue(digits);
      var n := if negative then -magnitude else magnitude;
      if PhpIntMin <= n <= PhpIntMax then Some(n) else None
    else None
  }

  lemma {:induction false} DigitsValueOfDecimal(n: nat)
    ensures DigitsValue(Decimal(n)) == n
  {
    if n >= 10 {
      var s := Decimal(n);
      assert s[..|s| - 1] == Decimal(n / 10);
      DigitsValueOfDecimal(n / 10);
    }
  }

  lemma {:induction false} CanonicalDigitsPositive(s: string)
    requires IsCanonicalDigits(s)
    ensures DigitsValue(s) >= 1
  {
    if |s| > 1 {
      var prefix := s[..|s| - 1];
      assert prefix[0] == s[0];
      CanonicalDigitsPositive(prefix);
    }
  }

  lemma {:induction false} DecimalOfDigitsValue(s: string)
    requires IsCanonicalDigits(s)
    ensures Decimal(DigitsValue(s)) == s
  {
    var prefix := s[..|s| - 1];
    var last := s[|s| - 1];
    if |s| == 1 {
      assert DigitChar(DigitValue(last)) == last;
    } else {
      assert prefix[0] == s[0];
      CanonicalDigitsPositive(prefix);
      var v := DigitsValue(s);
      assert v == DigitsValue(prefix) * 10 + DigitValue(last);
      assert v / 10 == DigitsValue(prefix) && v % 10 == DigitValue(last);
      DecimalOfDigitsValue(prefix);
      assert DigitChar(DigitValue(last)) == last;
      assert s == prefix + [last];
    }
  }

  /** Every 64-bit integer's own spelling passes the filter with its value. */
  lemma FilterAcceptsSignedDecimal(n: int)
    requires PhpIntMin <= n <= PhpIntMax
    ensures FilterValidateInt(SignedDecimal(n)) == Some(n)
  {
    var s := SignedDecimal(n);
    if n < 0 {
      assert s[1..] == Decimal(-n);
      DigitsValueOfDecimal(-n);
    } else if n > 0 {
      DigitsValueOfDecimal(n);
    }
  }

  /** The filter accepts nothing but an integer's own spelling, possibly with
      a leading `+`, and `-0`. */
  lemma FilterAcceptsOnlySignedDecimal(s: string, n: int)
    requires FilterValidateInt(s) == Some(n)
    ensures s == SignedDecimal(n) || s == "+" + SignedDecimal(n) || (n == 0 && s == "-0")
  {
    var digits := if |s| > 0 && (s[0] == '-' || s[0] == '+') then s[1..] else s;
    if digits != "0" {
      DecimalOfDigitsValue(digits);
      CanonicalDigitsPositive(digits);
      if |s| > 0 && (s[0] == '-' || s[0] == '+') {
        assert s == [s[0]] + digits;
      }
    } else if |s| > 0 && (s[0] == '-' || s[0] == '+') {
      assert s == [s[0]] + digits;
    }
  }
}
