/**
 * Decimal digit strings: the value a digit string denotes, the string a
 * natural number prints as, and the laws that make the two inverse.
 */
module Decimal {

  predicate IsDigit(c: char) {
    '0' <= c <= '9'
  }

  predicate AllDigits(s: string) {
    forall i :: 0 <= i < |s| ==> IsDigit(s[i])
  }

  predicate AllZeros(s: string) {
    forall i :: 0 <= i < |s| ==> s[i] == '0'
  }

  function Pow10(n: nat): nat {
    if n == 0 then 1 else 10 * Pow10(n - 1)
  }

  /** The value of a digit string, most significant digit first; "" is 0. */
  function DigitsValue(s: string): nat
    requires AllDigits(s)
  {
    if s == [] then 0
    else DigitsValue(s[..|s| - 1]) * 10 + (s[|s| - 1] as int - '0' as int)
  }

  function DigitChar(d: nat): char
    requires d < 10
  {
    ('0' as int + d) as char
  }

  /** `String(n)` for a natural number. */
  function NatText(n: nat): string {
    if n < 10 then [DigitChar(n)] else NatText(n / 10) + [DigitChar(n % 10)]
  }

  /** No leading zero, except in "0" itself. */
  predicate NoLeadingZero(s: string) {
    |s| == 1 || (|s| > 1 && s[0] != '0')
  }

  lemma {:induction false} Pow10Positive(n: nat)
    ensures Pow10(n) >= 1
  {
    if n > 0 { Pow10Positive(n - 1); }
  }

  lemma {:induction false} DigitsValueConcat(a: string, b: string)
    requires AllDigits(a) && AllDigits(b)
    ensures AllDigits(a + b)
    ensures DigitsValue(a + b) == DigitsValue(a) * Pow10(|b|) + DigitsValue(b)
  {
    if b == [] {
      assert a + b == a;
    } else {
      var init, d := b[..|b| - 1], b[|b| - 1] as int - '0' as int;
      DigitsValueConcat(a, init);
      assert (a + b)[..|a + b| - 1] == a + init;
      assert DigitsValue(a + b) == DigitsValue(a + init) * 10 + d;
      ShiftDigit(DigitsValue(a), Pow10(|init|), DigitsValue(init), d);
    }
  }

  /** One more digit on the right multiplies everything before it by ten. */
  lemma ShiftDigit(x: int, p: int, y: int, d: int)
    ensures (x * p + y) * 10 + d == x * (10 * p) + (y * 10 + d)
  {
    assert x * (10 * p) == 10 * (x * p);
  }

  lemma {:induction false} TenPowers(a: nat, b: nat)
    ensures Pow10(a + b) == Pow10(a) * Pow10(b)
  {
    if a > 0 {
      TenPowers(a - 1, b);
      MulAssociative(10, Pow10(a - 1), Pow10(b));
      assert a + b - 1 == a - 1 + b;
    }
  }

  lemma MulAssociative(x: int, y: int, z: int)
    ensures x * (y * z) == (x * y) * z
  {
  }

  lemma {:induction false} DigitsValueBound(s: string)
    requires AllDigits(s)
    ensures DigitsValue(s) < Pow10(|s|)
  {
    if s != [] { DigitsValueBound(s[..|s| - 1]); }
  }

  lemma {:induction false} DigitsValueZero(s: string)
    requires AllDigits(s)
    ensures DigitsValue(s) == 0 <==> AllZeros(s)
  {
    if s != [] {
      var init := s[..|s| - 1];
      DigitsValueZero(init);
      if AllZeros(init) && s[|s| - 1] == '0' {
        assert forall i :: 0 <= i < |s| ==> s[i] == if i < |init| then init[i] else '0';
      }
    }
  }

  /** Reading what was printed gives the number back. */
  lemma {:induction false} ReadNatText(n: nat)
    ensures AllDigits(NatText(n)) && NoLeadingZero(NatText(n))
    ensures DigitsValue(NatText(n)) == n
    ensures n > 0 ==> NatText(n)[0] != '0'
  {
    if n < 10 {
      assert NatText(n)[..0] == [];
    } else {
      ReadNatText(n / 10);
      var init := NatText(n / 10);
      assert NatText(n)[..|NatText(n)| - 1] == init;
    }
  }

  /** Printing what was read gives the string back, unless it had leading zeros. */
  lemma {:induction false} PrintDigits(s: string)
    requires AllDigits(s) && NoLeadingZero(s)
    ensures NatText(DigitsValue(s)) == s
    ensures |s| > 1 ==> DigitsValue(s) >= 10
  {
    var d := s[|s| - 1] as int - '0' as int;
    if |s| == 1 {
      assert s[..0] == [];
      assert s == [DigitChar(d)];
    } else {
      var init := s[..|s| - 1];
      if |init| == 1 {
        assert init[..0] == [];
        assert DigitsValue(init) == init[0] as int - '0' as int;
      }
      PrintDigits(init);
      assert DigitsValue(s) / 10 == DigitsValue(init) && DigitsValue(s) % 10 == d;
      assert s == init + [DigitChar(d)];
    }
  }

  /** A string without leading zeros has at most k digits exactly when its value is below 10^k. */
  lemma {:induction false} NatTextLength(n: nat, k: nat)
    requires k >= 1
    ensures |NatText(n)| <= k <==> n < Pow10(k)
  {
    if k == 1 {
      assert Pow10(1) == 10 * Pow10(0);
      if n >= 10 { assert |NatText(n / 10)| >= 1 by { ReadNatText(n / 10); } }
    } else {
      Pow10Positive(k - 1);
      assert Pow10(k) == 10 * Pow10(k - 1);
      if n < 10 {
        assert Pow10(k - 1) >= 1;
      } else {
        NatTextLength(n / 10, k - 1);
      }
    }
  }
}
