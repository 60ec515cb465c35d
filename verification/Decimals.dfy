/** Decimal numerals, as Python's string formatting produces them. */
module Decimals {

  const DIGITS: string := "0123456789"

  function Numeral(n: nat): string {
    if n < 10 then [DIGITS[n]] else Numeral(n / 10) + [DIGITS[n % 10]]
  }

  predicate IsDigit(c: char) { '0' <= c <= '9' }

  lemma DigitsDiffer(i: nat, j: nat)
    requires i < 10 && j < 10 && DIGITS[i] == DIGITS[j]
    ensures i == j
  {}

  lemma NumeralHasOnlyDigits(n: nat)
    ensures Numeral(n) != [] && forall i :: 0 <= i < |Numeral(n)| ==> IsDigit(Numeral(n)[i])
  {}

  lemma {:induction false} NumeralInjective(m: nat, n: nat)
    requires Numeral(m) == Numeral(n)
    ensures m == n
    decreases m
  {
    NumeralHasOnlyDigits(m / 10);
    NumeralHasOnlyDigits(n / 10);
    var a, b := Numeral(m), Numeral(n);
    assert a[|a| - 1] == DIGITS[m % 10] && b[|b| - 1] == DIGITS[n % 10];
    DigitsDiffer(m % 10, n % 10);
    if m >= 10 {
      assert |a| >= 2 && n >= 10;
      assert Numeral(m / 10) == a[..|a| - 1] == b[..|b| - 1] == Numeral(n / 10);
      NumeralInjective(m / 10, n / 10);
    }
  }

  /** Python's str() of an integer. */
  function Show(n: int): string {
    if n < 0 then "-" + Numeral(-n) else Numeral(n)
  }

  lemma ShowInjective(m: int, n: int)
    requires Show(m) == Show(n)
    ensures m == n
  {
    NumeralHasOnlyDigits(if m < 0 then -m else m);
    NumeralHasOnlyDigits(if n < 0 then -n else n);
    assert Show(m)[0] == '-' <==> m < 0;
    assert Show(n)[0] == '-' <==> n < 0;
    if m < 0 {
      assert Show(m)[1..] == Numeral(-m) && Show(n)[1..] == Numeral(-n);
      NumeralInjective(-m, -n);
    } else {
      NumeralInjective(m, n);
    }
  }
}
