/**
 * Strings of ASCII decimal digits: the part of Python's `str.isdigit()` and
 * `int(str)` that the `--size` argument relies on.
 */
module Decimal {

  predicate IsDigit(c: char) {
    '0' <= c <= '9'
  }

  /** Every character is an ASCII digit (the empty string qualifies). */
  predicate AllDigits(s: string) {
    forall i :: 0 <= i < |s| ==> IsDigit(s[i])
  }

  /** `s.isdigit()` on ASCII text: true only for a non-empty string of digits. */
  predicate IsDigits(s: string) {
    |s| > 0 && AllDigits(s)
  }

  function DigitValue(c: char): (d: nat)
    requires IsDigit(c)
    ensures d < 10
  {
    c as int - '0' as int
  }

  function DigitChar(d: nat): (c: char)
    requires d < 10
    ensures IsDigit(c) && DigitValue(c) == d
  {
    ('0' as int + d) as char
  }

  function Pow10(k: nat): (p: nat)
    ensures p >= 1
  {
    if k == 0 then 1 else 10 * Pow10(k - 1)
  }

  /**
   * The number `int(s)` gives for a string of digits, leading zeros allowed:
   * k digits make a number below 10^k, and at least 10^(k-1) when the first
   * digit is not zero.
   */
  function Value(s: string): (v: nat)
    requires AllDigits(s)
    ensures v < Pow10(|s|)
    ensures |s| > 0 && s[0] != '0' ==> Pow10(|s| - 1) <= v
  {
    if s == [] then 0 else Value(s[..|s| - 1]) * 10 + DigitValue(s[|s| - 1])
  }

  /** The canonical decimal text of `n` (`str(n)`), the inverse of `Value`. */
  function ToDecimal(n: nat): (s: string)
    ensures IsDigits(s) && Value(s) == n
    ensures |s| > 1 ==> s[0] != '0'
    decreases n
  {
    if n < 10 then [DigitChar(n)]
    else
      var prefix := ToDecimal(n / 10);
      var s := prefix + [DigitChar(n % 10)];
      assert s[..|s| - 1] == prefix;
      s
  }

  /** Reading a digit string without leading zero and writing the number back gives the same string. */
  lemma {:induction false} ValueRoundTrip(s: string)
    requires IsDigits(s) && (|s| > 1 ==> s[0] != '0')
    ensures ToDecimal(Value(s)) == s
  {
    var n := |s| - 1;
    var prefix := s[..n];
    if n == 0 {
      assert prefix == [];
      assert s == [s[0]];
    } else {
      assert prefix[0] == s[0];
      ValueRoundTrip(prefix);
      assert Pow10(n) >= 10;
      assert Value(s) / 10 == Value(prefix) && Value(s) % 10 == DigitValue(s[n]);
      assert s == prefix + [s[n]];
    }
  }

  function Zeros(k: nat): (z: string)
    ensures |z| == k && AllDigits(z)
  {
    if k == 0 then [] else Zeros(k - 1) + ['0']
  }

  /** A leading zero does not change the value: `int("010") == int("10")`. */
  lemma {:induction false} LeadingZero(s: string)
    requires AllDigits(s)
    ensures AllDigits(['0'] + s) && Value(['0'] + s) == Value(s)
  {
    var t := ['0'] + s;
    if s != [] {
      assert t[..|t| - 1] == ['0'] + s[..|s| - 1];
      LeadingZero(s[..|s| - 1]);
    } else {
      assert t[..|t| - 1] == [];
    }
  }

  /** Any number of leading zeros does not change the value. */
  lemma {:induction false} LeadingZeros(k: nat, s: string)
    requires AllDigits(s)
    ensures AllDigits(Zeros(k) + s) && Value(Zeros(k) + s) == Value(s)
  {
    if k > 0 {
      var t := ['0'] + s;
      LeadingZero(s);
      LeadingZeros(k - 1, t);
      assert Zeros(k) + s == Zeros(k - 1) + t;
      assert Value(Zeros(k) + s) == Value(Zeros(k - 1) + t) == Value(t);
    } else {
      assert Zeros(k) + s == s;
    }
  }
}
