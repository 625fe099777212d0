/** Powers of ten and decimal digit counts, shared by the price, printing and
    budget models. */
module Decimals {

  function Pow10(e: nat): (p: nat)
    ensures p >= 1
  {
    if e == 0 then 1 else 10 * Pow10(e - 1)
  }

  lemma {:induction false} Pow10Add(a: nat, b: nat)
    ensures Pow10(a + b) == Pow10(a) * Pow10(b)
  {
    if a == 0 {
    } else {
      Pow10Add(a - 1, b);
      assert Pow10(a + b) == 10 * Pow10(a - 1 + b);
    }
  }

  lemma Pow10Mono(a: nat, b: nat)
    requires a <= b
    ensures Pow10(a) <= Pow10(b)
  {
    Pow10Add(a, b - a);
    MulMono(1, Pow10(b - a), Pow10(a));
  }

  lemma Pow10Strict(a: nat, b: nat)
    ensures Pow10(a) < Pow10(b) <==> a < b
    ensures Pow10(a) == Pow10(b) <==> a == b
  {
    if a < b {
      Pow10Mono(a + 1, b);
    } else if b < a {
      Pow10Mono(b + 1, a);
    }
  }

  lemma MulMono(x: int, y: int, d: nat)
    requires x <= y
    ensures x * d <= y * d
  {
  }

  /** `n` is a whole number of units `d`. */
  ghost predicate Multiple(n: int, d: int) {
    exists c: int :: n == c * d
  }

  lemma MultipleTimes(c: int, d: int)
    ensures Multiple(c * d, d)
  {
  }

  lemma MultipleTrans(n: int, d: int, e: int)
    requires Multiple(n, d) && Multiple(d, e)
    ensures Multiple(n, e)
  {
    var c: int :| n == c * d;
    var f: int :| d == f * e;
    assert n == (c * f) * e;
  }

  lemma Pow10Multiple(a: nat, b: nat)
    requires a <= b
    ensures Multiple(Pow10(b), Pow10(a))
  {
    Pow10Add(b - a, a);
    MultipleTimes(Pow10(b - a), Pow10(a));
  }

  /** Two multiples of the same unit that are less than one unit apart agree. */
  lemma MultiplesApart(m: int, n: int, d: int)
    requires d > 0 && Multiple(m, d) && Multiple(n, d) && m - d < n < m + d
    ensures m == n
  {
    var a: int :| m == a * d;
    var b: int :| n == b * d;
    assert (a - b) * d == m - n;
    if a - b >= 1 {
      MulMono(1, a - b, d);
    } else if a - b <= -1 {
      MulMono(a - b, -1, d);
    }
  }

  /** The number of decimal digits of the coefficient; zero has one digit. */
  function NumDigits(n: nat): (d: nat)
    ensures d >= 1
  {
    if n < 10 then 1 else 1 + NumDigits(n / 10)
  }

  lemma {:induction false} NumDigitsBounds(n: nat)
    requires n > 0
    ensures Pow10(NumDigits(n) - 1) <= n < Pow10(NumDigits(n))
  {
    if n < 10 {
      assert Pow10(1) == 10 * Pow10(0);
    } else {
      NumDigitsBounds(n / 10);
      assert Pow10(NumDigits(n)) == 10 * Pow10(NumDigits(n / 10));
      assert Pow10(NumDigits(n) - 1) == 10 * Pow10(NumDigits(n / 10) - 1);
    }
  }

  lemma NumDigitsUnique(n: nat, d: nat)
    requires n > 0 && d >= 1 && Pow10(d - 1) <= n < Pow10(d)
    ensures NumDigits(n) == d
  {
    NumDigitsBounds(n);
    Pow10Strict(NumDigits(n) - 1, d);
    Pow10Strict(d - 1, NumDigits(n));
  }
}
