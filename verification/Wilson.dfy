/** The precision gate with its Wilson lower bound:
    `scripts/evaluate_capture_graph_quality.py`.  `root` stands for the square
    root: the non-negative number whose square is the radicand. */
module Wilson {
  import opened Reals

  datatype Tally = Tally(correct: nat, predicted: nat, expected: nat)

  /** `_counts`, on the sets of keys. */
  function CountKeys<K>(expected: set<K>, predicted: set<K>): Tally {
    Tally(|expected * predicted|, |predicted|, |expected|)
  }

  const Z := 1.96

  function Ratio(correct: nat, total: nat): real
    requires total > 0
  {
    correct as real / total as real
  }

  function Radicand(r: real, n: real): real
    requires n > 0.0
  {
    r * (1.0 - r) / n + Z * Z / (4.0 * n * n)
  }

  ghost predicate IsRoot(root: real, x: real) {
    root >= 0.0 && root * root == x
  }

  /** The bound before the outer max. */
  function RawLower(r: real, n: real, root: real): real
    requires n > 0.0
  {
    (r + Z * Z / (2.0 * n) - Z * root) / (1.0 + Z * Z / n)
  }

  function Lower(correct: nat, total: nat, root: real): real {
    if total == 0 then 0.0
    else
      var raw := RawLower(Ratio(correct, total), total as real, root);
      if raw >= 0.0 then raw else 0.0
  }

  function Precision(t: Tally): real {
    if t.predicted == 0 then 0.0 else t.correct as real / t.predicted as real
  }

  predicate Passes(t: Tally, root: real, target: real) {
    Precision(t) >= target && Lower(t.correct, t.predicted, root) >= target
  }

  // ----- The bound as a root of a quadratic ------------------------------------

  /** (1 + a) p^2 - (2r + a) p + r^2, for a = z^2 / n: at most 0 between the two
      Wilson bounds. */
  function Quadratic(p: real, r: real, a: real): real {
    (1.0 + a) * p * p - (2.0 * r + a) * p + r * r
  }

  /** With c = r + a/2 and m the margin, m^2 is c^2 - (1 + a) r^2. */
  lemma MarginSquared(r: real, n: real, root: real)
    requires n > 0.0 && IsRoot(root, Radicand(r, n))
    ensures var a, m := Z * Z / n, Z * root;
            m >= 0.0 && m * m == (r + a / 2.0) * (r + a / 2.0) - (1.0 + a) * r * r
  {
    var a, m := Z * Z / n, Z * root;
    var i := 1.0 / n;
    assert i * n == 1.0;
    assert Z * Z / n == Z * Z * i;
    assert r * (1.0 - r) / n == r * (1.0 - r) * i;
    Reciprocal(n, i);
    assert Radicand(r, n) == r * (1.0 - r) * i + Z * Z * i * i / 4.0;
    assert m * m == Z * Z * (root * root);
    assert Z * Z * (r * (1.0 - r) * i + Z * Z * i * i / 4.0) == a * (r * (1.0 - r)) + a * a / 4.0;
  }

  lemma Reciprocal(n: real, i: real)
    requires n > 0.0 && i * n == 1.0
    ensures Z * Z / (4.0 * n * n) == Z * Z * i * i / 4.0
  {
    var d := 4.0 * n * n;
    assert (Z * Z * i * i / 4.0) * d == Z * Z * (i * n) * (i * n);
  }

  lemma HalfStep(n: real)
    requires n > 0.0
    ensures Z * Z / (2.0 * n) == (Z * Z / n) / 2.0 && Z * Z / n > 0.0
  {
    assert (Z * Z / n / 2.0) * (2.0 * n) == Z * Z / n * n == Z * Z;
  }

  /** The bound is the smaller root: q = (c - m) / (1 + a). */
  lemma SmallerRoot(c: real, m: real, a: real, r: real, q: real)
    requires a > 0.0 && m >= 0.0 && c == r + a / 2.0
    requires m * m == c * c - (1.0 + a) * r * r && q * (1.0 + a) == c - m
    ensures Quadratic(q, r, a) == 0.0
  {
    var d := 1.0 + a;
    assert d * Quadratic(q, r, a) == (d * q) * (d * q) - 2.0 * c * (d * q) + d * r * r;
    assert (c - m) * (c - m) - 2.0 * c * (c - m) + d * r * r == m * m - c * c + d * r * r;
    assert d * Quadratic(q, r, a) == 0.0;
  }

  /** All that is needed about the bound at one ratio. */
  lemma RawBounds(r: real, n: real, root: real)
    requires n > 0.0 && 0.0 <= r <= 1.0 && IsRoot(root, Radicand(r, n))
    ensures var a, q := Z * Z / n, RawLower(r, n, root);
            && a > 0.0 && 0.0 <= q <= r
            && Quadratic(q, r, a) == 0.0 && q * (1.0 + a) <= r + a / 2.0
  {
    var a, m, q := Z * Z / n, Z * root, RawLower(r, n, root);
    var c := r + a / 2.0;
    HalfStep(n);
    MarginSquared(r, n, root);
    assert q * (1.0 + a) == c - m;
    SmallerRoot(c, m, a, r, q);
    ProductSign(r, r);
    ProductSign(1.0 + a, r * r);
    SquareOrder(m, c);
    ProductSign(-q, 1.0 + a);
    assert (-q) * (1.0 + a) == -(q * (1.0 + a));
    LowerBelowRatio(r, a, m, q);
  }

  lemma LowerBelowRatio(r: real, a: real, m: real, q: real)
    requires a > 0.0 && 0.0 <= r <= 1.0 && m >= 0.0
    requires m * m == (r + a / 2.0) * (r + a / 2.0) - (1.0 + a) * r * r
    requires q * (1.0 + a) == r + a / 2.0 - m
    ensures q <= r
  {
    var gap := a / 2.0 - a * r;
    assert m * m - gap * gap == (a + a * a) * (r * (1.0 - r));
    ProductSign(r, 1.0 - r);
    ProductSign(a, a);
    ProductSign(a + a * a, r * (1.0 - r));
    if gap >= 0.0 {
      SquareOrder(gap, m);
    }
    assert (q - r) * (1.0 + a) == gap - m <= 0.0;
    ProductSign(q - r, 1.0 + a);
  }

  // ----- Main results -----------------------------------------------------------

  /** For 0 <= correct <= total: the bound lies between 0 and the ratio, so the
      outer max never changes it. */
  lemma LowerIsBetweenZeroAndRatio(correct: nat, total: nat, root: real)
    requires 0 < total && correct <= total && IsRoot(root, Radicand(Ratio(correct, total), total as real))
    ensures 0.0 <= Lower(correct, total, root) <= Ratio(correct, total)
    ensures Lower(correct, total, root) == RawLower(Ratio(correct, total), total as real, root)
  {
    RatioInRange(correct, total);
    RawBounds(Ratio(correct, total), total as real, root);
  }

  lemma RatioInRange(correct: nat, total: nat)
    requires 0 < total && correct <= total
    ensures 0.0 <= Ratio(correct, total) <= 1.0
  {
    QuotientOrder(correct as real, total as real, total as real);
    QuotientOrder(0.0, correct as real, total as real);
    QuotientSum(0.0, 0.0, total as real);
  }

  /** Left of its smaller root the quadratic is positive. */
  lemma PositiveLeftOfRoot(a: real, r: real, q: real, p: real)
    requires a > 0.0 && Quadratic(q, r, a) == 0.0 && q * (1.0 + a) <= r + a / 2.0 && p < q
    ensures Quadratic(p, r, a) > 0.0
  {
    var d := q - p;
    var slope := 2.0 * (r + a / 2.0 - (1.0 + a) * q) + (1.0 + a) * d;
    assert Quadratic(p, r, a) - Quadratic(q, r, a) == d * slope;
    ProductSign(1.0 + a, d);
    ProductSign(d, slope);
  }

  /** A larger ratio has the larger bound: left of the bound q1 of r1, the
      quadratic of r1 is positive, yet at q2 it is no more than that of r2. */
  lemma RootsKeepOrder(a: real, r1: real, q1: real, r2: real, q2: real)
    requires a > 0.0 && r1 <= r2 && q1 <= r1 && q2 <= r2
    requires Quadratic(q1, r1, a) == 0.0 && Quadratic(q2, r2, a) == 0.0
    requires q1 * (1.0 + a) <= r1 + a / 2.0
    ensures q1 <= q2
  {
    assert Quadratic(q2, r1, a) == Quadratic(q2, r2, a) + (r2 - r1) * (2.0 * q2 - r1 - r2);
    ProductSign(r2 - r1, 2.0 * q2 - r1 - r2);
    if q2 < q1 {
      PositiveLeftOfRoot(a, r1, q1, q2);
    }
  }

  /** More correct answers out of as many never lower the bound. */
  lemma LowerIsMonotone(c1: nat, c2: nat, total: nat, root1: real, root2: real)
    requires 0 < total && c1 <= c2 <= total
    requires IsRoot(root1, Radicand(Ratio(c1, total), total as real))
    requires IsRoot(root2, Radicand(Ratio(c2, total), total as real))
    ensures Lower(c1, total, root1) <= Lower(c2, total, root2)
  {
    var r1, r2, n := Ratio(c1, total), Ratio(c2, total), total as real;
    RatioInRange(c1, total);
    RatioInRange(c2, total);
    RawBounds(r1, n, root1);
    RawBounds(r2, n, root2);
    QuotientOrder(c1 as real, c2 as real, n);
    RootsKeepOrder(Z * Z / n, r1, RawLower(r1, n, root1), r2, RawLower(r2, n, root2));
  }

  /** The gate on precision adds nothing: the bound alone decides. */
  lemma PassIsLowerBound<K>(expected: set<K>, predicted: set<K>, root: real, target: real)
    requires var t := CountKeys(expected, predicted);
             t.predicted > 0 ==> IsRoot(root, Radicand(Ratio(t.correct, t.predicted), t.predicted as real))
    ensures var t := CountKeys(expected, predicted);
            Passes(t, root, target) <==> Lower(t.correct, t.predicted, root) >= target
  {
    var t := CountKeys(expected, predicted);
    assert predicted == expected * predicted + (predicted - expected);
    if t.predicted > 0 {
      LowerIsBetweenZeroAndRatio(t.correct, t.predicted, root);
    }
  }

  lemma QuadraticAtN(q: real, r: real, n: real, a: real)
    requires n > 0.0 && a * n == 3.8416 && Quadratic(q, r, a) == 0.0
    ensures n * ((r - q) * (r - q)) == 3.8416 * (q * (1.0 - q))
  {
    assert Quadratic(q, r, a) == (r - q) * (r - q) - a * (q * (1.0 - q));
    assert n * (a * (q * (1.0 - q))) == (a * n) * (q * (1.0 - q));
  }

  lemma BelowRatio(q: real, r: real, a: real)
    requires a > 0.0 && 0.0 < r <= 1.0 && q <= r && Quadratic(q, r, a) == 0.0 && q * (1.0 + a) <= r + a / 2.0
    ensures q < r
  {
    assert Quadratic(r, r, a) == -(a * (r * (1.0 - r)));
    assert r * (1.0 + a) == r + a * r;
    assert a * (r * (1.0 - r)) == (a * r) * (1.0 - r);
    ProductSign(a, r);
    ProductSign(a * r, 1.0 - r);
  }

  /** The bound L solves n (ratio - L)^2 = 1.96^2 L (1 - L), and lies strictly below
      the ratio as soon as an answer is correct. */
  lemma LowerSolvesTheWilsonEquation(correct: nat, total: nat, root: real)
    requires 0 < total && correct <= total && IsRoot(root, Radicand(Ratio(correct, total), total as real))
    ensures var low, gap := Lower(correct, total, root), Ratio(correct, total) - Lower(correct, total, root);
            && total as real * (gap * gap) == 3.8416 * (low * (1.0 - low))
            && (correct > 0 ==> low < Ratio(correct, total))
  {
    var r, n := Ratio(correct, total), total as real;
    RatioInRange(correct, total);
    RawBounds(r, n, root);
    LowerIsBetweenZeroAndRatio(correct, total, root);
    QuotientTimes(Z * Z, n);
    QuadraticAtN(RawLower(r, n, root), r, n, Z * Z / n);
    if correct > 0 {
      QuotientOrder(0.0, correct as real, n);
      assert 0.0 / n == 0.0;
      BelowRatio(RawLower(r, n, root), r, Z * Z / n);
    }
  }
}
