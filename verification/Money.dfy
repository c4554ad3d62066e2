/** Decimal rounding as the ledger uses it: half away from zero, at a fixed
    number of places.  Amounts are whole cents, so rounding to two places is
    rounding to an integer. */
module Money {

  function Abs(x: int): nat {
    if x < 0 then -x else x
  }

  function Min(x: int, y: int): int {
    if x < y then x else y
  }

  function Max(x: int, y: int): int {
    if x < y then y else x
  }

  /** n / d to the nearest integer, halves away from zero. */
  function RoundDiv(n: int, d: int): (q: int)
    requires d > 0
  {
    if n >= 0 then (2 * n + d) / (2 * d) else -((2 * -n + d) / (2 * d))
  }

  /** Rounding moves a quotient by at most one half. */
  lemma RoundDivNearest(n: int, d: int)
    requires d > 0
    ensures 2 * Abs(d * RoundDiv(n, d) - n) <= d
  {
    var m := 2 * Abs(n) + d;
    var q := m / (2 * d);
    assert m == 2 * d * q + m % (2 * d);
    assert 0 <= m % (2 * d) < 2 * d;
    if n >= 0 {
      assert d * RoundDiv(n, d) == d * q;
    } else {
      assert d * RoundDiv(n, d) == -(d * q);
    }
  }

  /** Rounding keeps the sign, so a rounded non-negative amount is non-negative. */
  lemma RoundDivSign(n: int, d: int)
    requires d > 0
    ensures n >= 0 ==> RoundDiv(n, d) >= 0
    ensures n <= 0 ==> RoundDiv(n, d) <= 0
  {
    RoundDivNearest(n, d);
    if n >= 0 {
      assert 2 * n + d >= 0;
    } else {
      assert 2 * -n + d >= 0;
    }
  }

  /** A real number of cents to the nearest whole cent, halves away from zero. */
  function RoundReal(x: real): (r: int) {
    if x >= 0.0 then (x + 0.5).Floor else -((-x + 0.5).Floor)
  }

  lemma RoundRealNearest(x: real)
    ensures -0.5 <= RoundReal(x) as real - x <= 0.5
    ensures x >= 0.0 ==> RoundReal(x) >= 0
  {
  }

  lemma RoundRealWhole(x: real, n: int)
    requires x == n as real
    ensures RoundReal(x) == n
  {
  }
}
