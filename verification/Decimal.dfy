// Decimal numerals as strings: the digits of a number, the number that a string of digits stands
// for, and the canonical numerals, which are those without leading zeros, where the two are inverse
// to each other.
module Decimal {

  predicate IsDigit(c: char) { '0' <= c <= '9' }

  predicate AllDigits(s: string) { forall i :: 0 <= i < |s| ==> IsDigit(s[i]) }

  function DigitOf(n: nat): (c: char)
    requires n < 10
    ensures IsDigit(c) && c as int == '0' as int + n
  {
    ('0' as int + n) as char
  }

  function DigitValue(c: char): (n: nat)
    requires IsDigit(c)
    ensures n < 10 && DigitOf(n) == c
  {
    c as int - '0' as int
  }

  function Numeral(n: nat): (s: string)
    ensures s != "" && AllDigits(s)
  {
    if n < 10 then [DigitOf(n)] else Numeral(n / 10) + [DigitOf(n % 10)]
  }

  function Value(s: string): nat
    requires AllDigits(s)
  {
    if s == "" then 0 else 10 * Value(s[..|s| - 1]) + DigitValue(s[|s| - 1])
  }

  // A numeral without superfluous leading zeros.
  predicate Canonical(s: string) {
    s != "" && AllDigits(s) && (s[0] == '0' ==> |s| == 1)
  }

  lemma {:induction false} NumeralValue(n: nat)
    ensures Value(Numeral(n)) == n && Canonical(Numeral(n))
    ensures |Numeral(n)| == 1 <==> n < 10
    ensures Numeral(n)[0] == '0' <==> n == 0
  {
    if n >= 10 {
      NumeralValue(n / 10);
      var s := Numeral(n);
      assert s[..|s| - 1] == Numeral(n / 10);
      assert s[0] == Numeral(n / 10)[0];
    } else {
      assert Numeral(n)[..0] == "";
    }
  }

  lemma {:induction false} ValueNumeral(s: string)
    requires Canonical(s)
    ensures Numeral(Value(s)) == s
  {
    if |s| == 1 {
      assert s[..0] == "";
      assert s == [s[0]];
    } else {
      var t := s[..|s| - 1];
      ValueNumeral(t);
      NumeralValue(Value(t));
      assert Value(t) >= 1 by { assert t[0] == s[0] && Numeral(Value(t))[0] != '0'; }
      assert s == t + [s[|s| - 1]];
    }
  }

  function Zeros(n: nat): (s: string)
    ensures |s| == n && forall i :: 0 <= i < n ==> s[i] == '0'
  {
    seq(n, _ => '0')
  }
}
