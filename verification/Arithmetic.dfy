/** The few facts about products and quotients used elsewhere. */
module Arithmetic {

  lemma MulMonotone(a: nat, b: nat, f: nat)
    requires a <= b
    ensures a * f <= b * f
  {
    MulDistributes(a, b - a, f);
  }

  lemma MulDistributes(a: int, b: int, f: int)
    ensures (a + b) * f == a * f + b * f
  {
  }

  /** The quotient is pinned down by the two multiples around the dividend. */
  lemma QuotientIs(x: nat, f: nat, q: nat)
    requires f >= 1
    requires q * f <= x < q * f + f
    ensures x / f == q
  {
    var d := x / f;
    DivisionBounds(x, f);
    if d < q {
      MulMonotone(d + 1, q, f);
      MulDistributes(d, 1, f);
    } else if q < d {
      MulMonotone(q + 1, d, f);
      MulDistributes(q, 1, f);
    }
  }

  lemma DivisionBounds(x: nat, f: nat)
    requires f >= 1
    ensures (x / f) * f <= x < (x / f) * f + f
  {
    assert x == (x / f) * f + x % f;
  }

  lemma QuotientsOrdered(a: nat, b: nat, f: nat, p: nat, q: nat)
    requires a <= b && p * f <= a && b < q * f + f
    ensures p <= q
  {
    if q < p {
      MulMonotone(q + 1, p, f);
      MulDistributes(q, 1, f);
    }
  }

  lemma QuotientMonotone(a: nat, b: nat, f: nat)
    requires a <= b && f >= 1
    ensures a / f <= b / f
  {
    DivisionBounds(a, f);
    DivisionBounds(b, f);
    QuotientsOrdered(a, b, f, a / f, b / f);
  }

  /** A quotient exceeds a bound exactly if the dividend exceeds that many divisors. */
  lemma QuotientAbove(x: real, y: real, bound: real)
    requires y > 0.0
    ensures x / y > bound <==> x - bound * y > 0.0
  {
    var q := x / y;
    QuotientTimes(x, y);
    DifferenceTimes(q, bound, y);
    ProductSign(q - bound, y);
  }

  lemma QuotientTimes(x: real, y: real)
    requires y > 0.0
    ensures x / y * y == x
  {
  }

  lemma DifferenceTimes(a: real, b: real, y: real)
    ensures (a - b) * y == a * y - b * y
  {
  }

  lemma ProductSign(d: real, y: real)
    requires y > 0.0
    ensures d * y > 0.0 <==> d > 0.0
  {
    if d <= 0.0 {
      assert -d * y >= 0.0;
    }
  }
}
