/** Decimal rendering of counts: Rust's `usize::to_string`, the digit
    length the column widths are computed from, and reading digits back. */
module Decimal {

  predicate IsDigit(c: char)
  {
    '0' <= c <= '9'
  }

  function DigitChar(d: nat): (c: char)
    requires d < 10
    ensures IsDigit(c)
  {
    "0123456789"[d]
  }

  /** The value of a digit character (0 for any other character). */
  function DigitValue(c: char): (d: nat)
    ensures d < 10
  {
    if IsDigit(c) then (c as int) - ('0' as int) else 0
  }

  /** `n.to_string()`: the shortest decimal numeral of `n`. */
  function NatToString(n: nat): (s: string)
    ensures |s| >= 1
    ensures forall i :: 0 <= i < |s| ==> IsDigit(s[i])
    ensures s[0] == '0' ==> n == 0 && |s| == 1
    decreases n
  {
    if n < 10 then [DigitChar(n)] else NatToString(n / 10) + [DigitChar(n % 10)]
  }

  /** `n.to_string().len()`. */
  function DigitLen(n: nat): nat
  {
    |NatToString(n)|
  }

  /** A numeral as `to_string` writes one: digits only, at least one, and
      no leading zero unless the numeral is `0` itself. */
  predicate IsNumeral(s: string)
  {
    |s| >= 1 && (forall i :: 0 <= i < |s| ==> IsDigit(s[i])) && (s[0] == '0' ==> |s| == 1)
  }

  /** The value of a string of digits, most significant first. */
  function ParseDigits(s: string): nat
    decreases |s|
  {
    if |s| == 0 then 0 else 10 * ParseDigits(s[..|s| - 1]) + DigitValue(s[|s| - 1])
  }

  /** Reading a rendered count back gives the count. */
  lemma {:induction false} ParseNatToString(n: nat)
    ensures ParseDigits(NatToString(n)) == n
    decreases n
  {
    var s := NatToString(n);
    if n < 10 {
      assert s[..0] == [];
    } else {
      ParseNatToString(n / 10);
      assert s[..|s| - 1] == NatToString(n / 10);
    }
  }

  lemma DigitCharValue(c: char)
    requires IsDigit(c)
    ensures DigitChar(DigitValue(c)) == c
  {
    if c == '0' {} else if c == '1' {} else if c == '2' {} else if c == '3' {}
    else if c == '4' {} else if c == '5' {} else if c == '6' {} else if c == '7' {}
    else if c == '8' {} else {}
  }

  /** A numeral that does not start with `0` denotes a positive number. */
  lemma {:induction false} NumeralPositive(s: string)
    requires |s| >= 1 && (forall i :: 0 <= i < |s| ==> IsDigit(s[i])) && s[0] != '0'
    ensures ParseDigits(s) >= 1
    decreases |s|
  {
    if |s| > 1 {
      NumeralPositive(s[..|s| - 1]);
    } else {
      assert s[..0] == [];
    }
  }

  /** The converse of `ParseNatToString`: the numerals are exactly the
      strings `to_string` produces, so a numeral is the rendering of its
      own value. */
  lemma {:induction false} NumeralRoundTrip(s: string)
    requires IsNumeral(s)
    ensures NatToString(ParseDigits(s)) == s
    decreases |s|
  {
    var last := s[|s| - 1];
    DigitCharValue(last);
    if |s| == 1 {
      assert s[..0] == [];
    } else {
      var p := s[..|s| - 1];
      assert IsNumeral(p);
      NumeralRoundTrip(p);
      NumeralPositive(p);
      var n := ParseDigits(s);
      assert n / 10 == ParseDigits(p) && n % 10 == DigitValue(last);
      assert s == p + [last];
    }
  }

  /** A larger count never has fewer digits. */
  lemma {:induction false} DigitLenMonotone(a: nat, b: nat)
    requires a <= b
    ensures DigitLen(a) <= DigitLen(b)
    decreases b
  {
    if a >= 10 {
      DigitLenMonotone(a / 10, b / 10);
    }
  }

  function Pow10(k: nat): (p: nat)
    ensures p >= 1
  {
    if k == 0 then 1 else 10 * Pow10(k - 1)
  }

  /** A count needs at most `k` digits exactly when it is below 10^k. */
  lemma {:induction false} DigitLenBound(n: nat, k: nat)
    requires k >= 1
    ensures DigitLen(n) <= k <==> n < Pow10(k)
    decreases n
  {
    if n >= 10 {
      if k == 1 {
        assert Pow10(1) == 10;
        assert DigitLen(n) >= 2;
      } else {
        DigitLenBound(n / 10, k - 1);
      }
    } else {
      assert Pow10(k) >= 10 by { Pow10AtLeastTen(k); }
    }
  }

  lemma {:induction false} Pow10AtLeastTen(k: nat)
    requires k >= 1
    ensures Pow10(k) >= 10
  {
    if k > 1 {
      Pow10AtLeastTen(k - 1);
    }
  }
}
