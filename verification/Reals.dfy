/** Rounding, and the few facts about products and quotients of reals that the
    solver is told. */
module Reals {
  /** The nearest integer, the even one of two: Python's `round`. */
  function RoundHalfEven(x: real): int {
    var low := x.Floor;
    var rest := x - low as real;
    if rest < 0.5 || (rest == 0.5 && low % 2 == 0) then low else low + 1
  }

  lemma RoundingIsMonotone(x: real, y: real)
    requires x <= y
    ensures RoundHalfEven(x) <= RoundHalfEven(y)
  {
  }

  /** Python's `round(x, digits)` on reals, for scale the power of ten. */
  function RoundTo(x: real, scale: real): real
    requires scale > 0.0
  {
    RoundHalfEven(x * scale) as real / scale
  }

  lemma ProductSign(x: real, y: real)
    ensures x >= 0.0 && y >= 0.0 ==> x * y >= 0.0
    ensures x > 0.0 && y > 0.0 ==> x * y > 0.0
    ensures x >= 0.0 && y <= 0.0 ==> x * y <= 0.0
    ensures x > 0.0 && x * y == 0.0 ==> y == 0.0
  {
  }

  lemma ProductOrder(x: real, y: real, k: real)
    requires k >= 0.0 && x <= y
    ensures k * x <= k * y && x * k <= y * k
  {
    ProductSign(k, y - x);
    assert k * (y - x) == k * y - k * x;
  }

  lemma SquareOrder(x: real, y: real)
    requires x >= 0.0 && y >= 0.0 && x * x <= y * y
    ensures x <= y
  {
    assert (x - y) * (x + y) == x * x - y * y;
    ProductSign(x - y, x + y);
  }

  lemma QuotientTimes(x: real, y: real)
    requires y > 0.0
    ensures (x / y) * y == x
  {
  }

  lemma QuotientOrder(x: real, y: real, d: real)
    requires d > 0.0
    ensures x <= y ==> x / d <= y / d
    ensures x < y ==> x / d < y / d
  {
    QuotientTimes(x, d);
    QuotientTimes(y, d);
    if x / d > y / d {
      ProductSign(d, x / d - y / d);
    }
    if x / d == y / d {
      assert x == y;
    }
  }

  lemma QuotientSum(x: real, y: real, d: real)
    requires d > 0.0
    ensures (x + y) / d == x / d + y / d
    ensures (x - y) / d == x / d - y / d
    ensures d / d == 1.0 && 0.0 / d == 0.0
  {
  }

  lemma QuotientBelow(x: real, y: real, d: real)
    requires d > 0.0 && x < y * d
    ensures x / d < y
  {
    QuotientTimes(x, d);
    if x / d >= y {
      ProductOrder(y, x / d, d);
    }
  }

  lemma CrossOrder(x: real, d: real, y: real, e: real)
    requires d > 0.0 && e > 0.0 && x * e < y * d
    ensures x / d < y / e
  {
    var low := x / d;
    QuotientTimes(x, d);
    assert (low * e) * d == x * e by {
      assert (low * e) * d == (low * d) * e;
    }
    if low * e >= y {
      ProductOrder(y, low * e, d);
    }
    QuotientTimes(y, e);
    if low >= y / e {
      ProductOrder(y / e, low, e);
    }
  }

  lemma HalfEvenIsNearest(x: real)
    ensures -0.5 <= RoundHalfEven(x) as real - x <= 0.5
  {
  }

  /** y is a multiple of 1 / scale, and no other multiple is nearer to x. */
  ghost predicate IsNearest(y: real, x: real, scale: real) {
    y * scale == (y * scale).Floor as real && -0.5 <= y * scale - x * scale <= 0.5
  }

  lemma RoundToIsNearest(x: real, scale: real)
    requires scale > 0.0
    ensures IsNearest(RoundTo(x, scale), x, scale)
  {
    var steps := RoundHalfEven(x * scale);
    HalfEvenIsNearest(x * scale);
    QuotientTimes(steps as real, scale);
    assert RoundTo(x, scale) * scale == steps as real;
  }
}
