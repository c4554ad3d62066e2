/** Facts of real arithmetic the rounding bounds rest on. */
module Algebra {

  lemma Times(a: real, x: real, y: real)
    ensures a * (x + y) == a * x + a * y
    ensures a * (x - y) == a * x - a * y
  {
  }

  lemma DivideBack(a: real, q: real)
    requires q > 0.0
    ensures (a / q) * q == a
  {
  }

  /** A product with a number of size at most bound. */
  lemma Scale(m: real, d: real, bound: real)
    requires m >= 0.0 && -bound <= d <= bound
    ensures -(m * bound) <= m * d <= m * bound
  {
    assert m * (bound - d) >= 0.0;
    assert m * (bound + d) >= 0.0;
    Times(m, bound, d);
  }

  /** Dividing by at least one brings no number further from zero. */
  lemma ShrinkOne(e: real, q: real, b: real)
    requires q >= 1.0 && b >= 0.0 && e * q <= b
    ensures e <= b
  {
    if e > 0.0 {
      assert e * (q - 1.0) >= 0.0;
      Times(e, q, 1.0);
    }
  }

  /** Nor two numbers further apart. */
  lemma Shrink(x: real, y: real, q: real, b: real)
    requires q >= 1.0 && b >= 0.0 && -b <= x - y <= b
    ensures -b <= x / q - y / q <= b
  {
    var u, v := x / q, y / q;
    DivideBack(x, q);
    DivideBack(y, q);
    Times(q, u, v);
    ShrinkOne(u - v, q, b);
    ShrinkOne(v - u, q, b);
  }

  lemma Same(p: real, x: real, y: real)
    requires x == y
    ensures p * x == p * y
  {
  }

  lemma Compound(q: real, p: real, x: real, g: real, b: real, qp: real, qg: real)
    requires b == p * x + 0.5 * g && qp == q * p && qg == q * g + 1.0
    ensures q * b + 0.5 == qp * x + 0.5 * qg
  {
    Same(q, b, p * x + 0.5 * g);
    Times(q, p * x, 0.5 * g);
    Same(x, qp, q * p);
    assert q * (0.5 * g) == 0.5 * (q * g);
    assert q * (p * x) == x * (q * p);
  }

  lemma MonthApart(o: real, e: real, r: real)
    ensures (1.0 + r) * (o - e) == o + o * r - e * (1.0 + r)
  {
    Times(1.0 + r, o, e);
    Times(o, 1.0, r);
    Times(e, 1.0, r);
  }

  /** One month of drift between an actual liability o and an exact one e. */
  lemma DriftStep(o: real, e: real, interest: real, p: real, r: real, b: real)
    requires r >= 0.0 && -0.5 <= interest - o * r <= 0.5 && -b <= o - e <= b
    ensures var d := o - (p - interest) - (e * (1.0 + r) - p);
            -((1.0 + r) * b + 0.5) <= d <= (1.0 + r) * b + 0.5
  {
    var d := o - (p - interest) - (e * (1.0 + r) - p);
    MonthApart(o, e, r);
    assert d == (1.0 + r) * (o - e) + (interest - o * r);
    Scale(1.0 + r, o - e, b);
  }

  lemma ExactStep(p: real, a1: real, a: real, q: real)
    requires a1 * q == a + 1.0
    ensures (p * a1) * q - p == p * a
  {
    assert (p * a1) * q == p * (a1 * q);
    Times(p, a, 1.0);
  }

  /** Σ p f and Σ p d, one term further. */
  lemma WeightedStep(p: real, f: real, d: real, b: real)
    requires p >= 0.0 && -b <= f - d <= b
    ensures -(p * b) <= p * f - p * d <= p * b
  {
    Scale(p, f - d, b);
    Times(p, f, d);
  }

  lemma Quotient(x: real, q: real)
    requires 0.0 < x <= 1.0 && q >= 1.0
    ensures 0.0 < x / q <= 1.0
  {
    DivideBack(x, q);
  }

  /** Dividing near numbers by near divisors above one keeps them near. */
  lemma QuotientsNear(x: real, y: real, p: real, q: real, b: real, e: real)
    requires 0.0 < x <= 1.0 && 0.0 < y <= 1.0 && p >= 1.0 && q >= 1.0
    requires -b <= x - y <= b && -e <= p - q <= e
    ensures -(b + e) <= x / p - y / q <= b + e
  {
    Shrink(x, y, p, b);
    Quotient(y, p);
    Quotient(y, q);
    DivisorsNear(y, p, q, e);
  }

  lemma DivisorsNear(y: real, p: real, q: real, e: real)
    requires 0.0 < y <= 1.0 && p >= 1.0 && q >= 1.0 && -e <= p - q <= e
    ensures -e <= y / p - y / q <= e
  {
    var a, b := y / p, y / q;
    DivideBack(y, p);
    DivideBack(y, q);
    Quotient(y, p);
    Quotient(y, q);
    Crosswise(a, b, p, q);
    SmallFactor(b, q - p, e);
    ShrinkOneBack(a - b, p, e);
  }

  lemma Crosswise(a: real, b: real, p: real, q: real)
    requires a * p == b * q
    ensures (a - b) * p == b * (q - p)
  {
    assert (a - b) * p == a * p - b * p;
    assert b * (q - p) == b * q - b * p;
  }

  lemma Negated(b: real, d: real, n: real)
    requires n == -d
    ensures b * n == -(b * d) && n * b == -(d * b)
  {
    assert b * n + b * d == b * (n + d);
    assert b * (n + d) == 0.0;
  }

  lemma SmallFactor(b: real, d: real, e: real)
    requires 0.0 < b <= 1.0 && -e <= d <= e
    ensures -e <= b * d <= e
  {
    ProductAtMost(b, d, e);
    ProductAtMost(b, -d, e);
    Negated(b, d, -d);
  }

  lemma ProductAtMost(b: real, d: real, e: real)
    requires 0.0 < b <= 1.0 && -e <= d <= e
    ensures b * d <= e
  {
    NotNegative(b, e - d);
    Times(b, e, d);
    NotNegative(e, 1.0 - b);
    Times(e, 1.0, b);
  }

  lemma NotNegative(x: real, y: real)
    requires x >= 0.0 && y >= 0.0
    ensures x * y >= 0.0
  {
  }

  lemma Enlarges(x: real, p: real)
    requires x >= 0.0 && p >= 1.0
    ensures x <= x * p
  {
    NotNegative(x, p - 1.0);
    Times(x, p, 1.0);
  }

  lemma ShrinkOneBack(x: real, p: real, e: real)
    requires p >= 1.0 && -e <= x * p <= e
    ensures -e <= x <= e
  {
    if x >= 0.0 {
      Enlarges(x, p);
    } else {
      Enlarges(-x, p);
      Negated(p, x, -x);
    }
  }

  lemma ScaledNear(m: real, x: real, y: real, b: real)
    requires m >= 0.0 && -b <= x - y <= b
    ensures -(m * b) <= m * x - m * y <= m * b
  {
    Scale(m, x - y, b);
    assert m * (x - y) == m * x - m * y;
  }

  lemma ProductsOrdered(x: real, y: real, u: real, v: real)
    requires 0.0 <= x <= y && 0.0 <= u <= v
    ensures 0.0 <= x * u <= y * v
  {
    assert x * u <= x * v;
    assert x * v <= y * v;
  }

  lemma RateNear(o: real, r: real, q: real, e: real)
    requires -e <= r - q <= e
    ensures -((if o < 0.0 then -o else o) * e) <= o * r - o * q <= (if o < 0.0 then -o else o) * e
  {
    if o >= 0.0 {
      ScaledNear(o, r, q, e);
    } else {
      ScaledNear(-o, r, q, e);
      assert -o * r == -(o * r) && -o * q == -(o * q);
    }
  }
}
