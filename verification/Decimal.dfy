/** Decimal digits of natural numbers: the shared ground of `str(int)`, of
    JSON integers and of one-decimal temperature buckets. */
module Decimal {

  type Digit = d: nat | d < 10

  /** Most significant digit first, no leading zero except for 0 itself. */
  function Digits(n: nat): (ds: seq<Digit>)
    ensures ds != []
    ensures ds[0] == 0 ==> n == 0 && ds == [0]
  {
    if n < 10 then [n] else Digits(n / 10) + [n % 10]
  }

  function Value(ds: seq<Digit>): nat {
    if ds == [] then 0 else 10 * Value(ds[..|ds| - 1]) + ds[|ds| - 1]
  }

  lemma {:induction false} ValueDigits(n: nat)
    ensures Value(Digits(n)) == n
  {
    if n >= 10 {
      ValueDigits(n / 10);
      assert Digits(n)[..|Digits(n)| - 1] == Digits(n / 10);
    }
  }

  lemma DigitsInjective(m: nat, n: nat)
    requires Digits(m) == Digits(n)
    ensures m == n
  {
    ValueDigits(m);
    ValueDigits(n);
  }

  function Pow10(k: nat): nat { if k == 0 then 1 else 10 * Pow10(k - 1) }

  /** The digit `k` places from the right is that of `10^k`. */
  lemma {:induction false} DigitAt(n: nat, k: nat)
    requires k < |Digits(n)|
    ensures Pow10(k) > 0 && Digits(n)[|Digits(n)| - 1 - k] == n / Pow10(k) % 10
  {
    if k > 0 {
      DigitAt(n / 10, k - 1);
      DivideTwice(n, Pow10(k - 1));
    }
  }

  lemma DivideTwice(n: nat, p: nat)
    requires p > 0
    ensures n / 10 / p == n / (10 * p)
  {
    var q, r := n / 10, n % 10;
    var a, b := q / p, q % p;
    QuotientIs(n, 10 * p, a, 10 * b + r);
  }

  lemma QuotientIs(n: nat, d: nat, q: nat, r: nat)
    requires d > 0 && n == q * d + r && r < d
    ensures n / d == q
  {
    var q', r' := n / d, n % d;
    assert n == q' * d + r';
    if q' < q {
      StepUp(d, q', q);
    } else if q < q' {
      StepUp(d, q, q');
    }
  }

  lemma StepUp(d: nat, a: nat, b: nat)
    requires a < b
    ensures a * d + d <= b * d
  {
    assert b * d == (a + 1) * d + (b - a - 1) * d;
  }
}
