/**
 * Decimal numerals of natural numbers: digits only, no sign, no leading zero. For
 * integers below 2^53 (so for every OTP code) this is what JavaScript's
 * `Number.prototype.toString()` writes; beyond that JavaScript rounds or switches
 * to exponent notation, which is not modelled.
 * `Value` reads a numeral back; the two are inverse (`ValueOfShow`).
 */
module Decimal {

  predicate IsDigit(c: char) {
    '0' <= c <= '9'
  }

  predicate AllDigits(s: string) {
    forall i :: 0 <= i < |s| ==> IsDigit(s[i])
  }

  function DigitChar(d: nat): (c: char)
    requires d < 10
    ensures IsDigit(c) && c as int - '0' as int == d
  {
    ('0' as int + d) as char
  }

  function DigitValue(c: char): (d: nat)
    requires IsDigit(c)
    ensures d < 10 && DigitChar(d) == c
  {
    c as int - '0' as int
  }

  function Pow10(k: nat): (p: nat)
    ensures p >= 1
  {
    if k == 0 then 1 else 10 * Pow10(k - 1)
  }

  /** The numeral of `n`, most significant digit first. */
  function Show(n: nat): (s: string)
    ensures |s| >= 1 && AllDigits(s)
    ensures s[0] == '0' ==> n == 0
  {
    if n < 10 then [DigitChar(n)] else Show(n / 10) + [DigitChar(n % 10)]
  }

  /** The number a string of digits denotes (leading zeros allowed). */
  function Value(s: string): (n: nat)
    requires AllDigits(s)
    ensures n < Pow10(|s|)
  {
    if s == [] then 0
    else
      var init := s[..|s| - 1];
      assert AllDigits(init) by {
        forall i | 0 <= i < |init| ensures IsDigit(init[i]) { assert init[i] == s[i]; }
      }
      var v, d := Value(init), DigitValue(s[|s| - 1]);
      assert 10 * v + d < 10 * Pow10(|init|) by {
        assert v + 1 <= Pow10(|init|);
        assert 10 * (v + 1) <= 10 * Pow10(|init|);
      }
      10 * v + d
  }

  /** Reading back a numeral gives the number it was made from. */
  lemma {:induction false} ValueOfShow(n: nat)
    ensures Value(Show(n)) == n
  {
    var s := Show(n);
    if n < 10 {
      assert s[..|s| - 1] == [];
    } else {
      assert s[..|s| - 1] == Show(n / 10);
      ValueOfShow(n / 10);
    }
  }

  /** Distinct numbers have distinct numerals. */
  lemma ShowInjective(a: nat, b: nat)
    ensures Show(a) == Show(b) <==> a == b
  {
    ValueOfShow(a);
    ValueOfShow(b);
  }

  /** A number with exactly `k + 1` digits has a numeral of length `k + 1`. */
  lemma {:induction false} ShowLength(n: nat, k: nat)
    requires Pow10(k) <= n < Pow10(k + 1)
    ensures |Show(n)| == k + 1
  {
    if k == 0 {
      assert n < 10;
    } else {
      var p := Pow10(k - 1);
      assert Pow10(k) == 10 * p && Pow10(k + 1) == 10 * Pow10(k);
      assert n >= 10;
      assert p <= n / 10 < Pow10(k) by {
        assert 10 * p <= n;
        assert n < 10 * Pow10(k);
      }
      ShowLength(n / 10, k - 1);
    }
  }
}
