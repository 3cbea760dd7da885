// Powers of ten, and products of integers.

module Arithmetic {
  function Pow10(k: nat): (p: nat)
    ensures p > 0
  {
    if k == 0 then 1 else 10 * Pow10(k - 1)
  }

  lemma {:induction false} AtLeastOnce(d: int, r: int)
    requires d >= 1 && r >= 1
    ensures d * r >= r
    decreases d
  {
    if d > 1 {
      AtLeastOnce(d - 1, r);
      assert d * r == (d - 1) * r + r;
    }
  }

  lemma Apart(p: int, q: int, r: int)
    requires r >= 1 && p > q
    ensures p * r >= q * r + r
  {
    AtLeastOnce(p - q, r);
    assert p * r == q * r + (p - q) * r;
  }

  lemma {:induction false} TimesMonotone(a: int, b: int, k: nat)
    requires a <= b
    ensures a * k <= b * k
  {
    if k > 0 {
      TimesMonotone(a, b, k - 1);
      assert a * k == a * (k - 1) + a && b * k == b * (k - 1) + b;
    }
  }

  lemma Cancel(a: int, b: int, k: nat)
    requires k > 0
    ensures a * k <= b * k <==> a <= b
  {
    if a <= b {
      TimesMonotone(a, b, k);
    } else {
      Apart(a, b, k);
    }
  }

  /** A quotient is the only number that leaves a remainder below the divisor. */
  lemma QuotientIs(v: nat, d: int, q: nat)
    requires d > 0 && q * d <= v < q * d + d
    ensures v / d == q
  {
    var p, m := v / d, v % d;
    assert v == p * d + m;
    if p > q {
      Apart(p, q, d);
    } else if q > p {
      Apart(q, p, d);
    }
  }
}
