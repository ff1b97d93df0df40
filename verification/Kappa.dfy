/** Cohen's kappa for two binary raters: `kappa` of
    `scripts/eval_index_vs_similarity.py`. */
module Kappa {
  import opened Basics
  import opened Reals

  type Pairs = seq<(bool, bool)>

  /** How many pairs are (a, b). */
  function Cell(pairs: Pairs, a: bool, b: bool): nat {
    if pairs == [] then 0
    else Cell(pairs[..|pairs| - 1], a, b) + if pairs[|pairs| - 1] == (a, b) then 1 else 0
  }

  function Agreements(pairs: Pairs): nat {
    if pairs == [] then 0
    else Agreements(pairs[..|pairs| - 1]) + if pairs[|pairs| - 1].0 == pairs[|pairs| - 1].1 then 1 else 0
  }

  function FirstYes(pairs: Pairs): nat {
    if pairs == [] then 0
    else FirstYes(pairs[..|pairs| - 1]) + if pairs[|pairs| - 1].0 then 1 else 0
  }

  function SecondYes(pairs: Pairs): nat {
    if pairs == [] then 0
    else SecondYes(pairs[..|pairs| - 1]) + if pairs[|pairs| - 1].1 then 1 else 0
  }

  function Expected(pa: real, pb: real): real {
    pa * pb + (1.0 - pa) * (1.0 - pb)
  }

  function ShareOf(part: nat, pairs: Pairs): real
    requires pairs != []
  {
    part as real / |pairs| as real
  }

  function RawKappa(pairs: Pairs): Option<real> {
    if pairs == [] then None
    else
      var observed := ShareOf(Agreements(pairs), pairs);
      var expected := Expected(ShareOf(FirstYes(pairs), pairs), ShareOf(SecondYes(pairs), pairs));
      if expected < 1.0 then Some((observed - expected) / (1.0 - expected)) else None
  }

  /** `kappa`: to four digits. */
  function KappaOf(pairs: Pairs): Option<real> {
    match RawKappa(pairs)
    case None => None
    case Some(k) => Some(RoundTo(k, 10000.0))
  }

  // ----- The counting behind it -----------------------------------------------

  lemma {:induction false} Cells(pairs: Pairs)
    ensures Agreements(pairs) == Cell(pairs, true, true) + Cell(pairs, false, false)
    ensures FirstYes(pairs) == Cell(pairs, true, true) + Cell(pairs, true, false)
    ensures SecondYes(pairs) == Cell(pairs, true, true) + Cell(pairs, false, true)
    ensures |pairs| == Agreements(pairs) + Cell(pairs, true, false) + Cell(pairs, false, true)
  {
    if pairs != [] {
      Cells(pairs[..|pairs| - 1]);
    }
  }

  lemma {:induction false} CellsEmpty(pairs: Pairs, a: bool, b: bool)
    ensures Cell(pairs, a, b) == 0 <==> (a, b) !in pairs
  {
    if pairs != [] {
      CellsEmpty(pairs[..|pairs| - 1], a, b);
      assert pairs == pairs[..|pairs| - 1] + [pairs[|pairs| - 1]];
    }
  }

  // ----- The arithmetic behind it -----------------------------------------------

  /** Scaling by a factor of at most 1 in size does not take v further out. */
  lemma Shrunk(u: real, v: real, product: real)
    requires -1.0 <= u <= 1.0 && product == u * v
    ensures v >= 0.0 ==> -v <= product <= v
    ensures v <= 0.0 ==> v <= product <= -v
  {
    var up, down := (1.0 - u) * v, (1.0 + u) * v;
    ProductSign(1.0 - u, v);
    ProductSign(1.0 + u, v);
    assert up == v - product && down == v + product;
  }

  lemma BelowMean(u: real, v: real, product: real)
    requires u >= 0.0 ==> product <= u
    requires u <= 0.0 ==> product <= -u
    requires v >= 0.0 ==> product <= v
    requires v <= 0.0 ==> product <= -v
    requires (u >= 0.0 && v <= 0.0) || (u <= 0.0 && v >= 0.0) ==> product <= 0.0
    ensures u + v >= 0.0 ==> product + product <= u + v
    ensures u + v <= 0.0 ==> product + product <= -(u + v)
  {
  }

  lemma OppositeSigns(u: real, v: real)
    requires (u >= 0.0 && v <= 0.0) || (u <= 0.0 && v >= 0.0)
    ensures u * v <= 0.0
  {
    if u >= 0.0 && v <= 0.0 {
      ProductSign(u, v);
    } else {
      ProductSign(v, u);
      assert u * v == v * u;
    }
  }

  /** 2e - 1 = (1 - 2pa)(1 - 2pb) is at most |pa + pb - 1|, hence at most o. */
  lemma ExpectedBelowObserved(pa: real, pb: real, observed: real)
    requires 0.0 <= pa <= 1.0 && 0.0 <= pb <= 1.0
    requires observed >= pa + pb - 1.0 && observed >= 1.0 - pa - pb
    ensures 2.0 * Expected(pa, pb) - 1.0 <= observed
  {
    var u, v := 1.0 - 2.0 * pa, 1.0 - 2.0 * pb;
    var product := u * v;
    assert product == v * u;
    Shrunk(u, v, product);
    Shrunk(v, u, product);
    if (u >= 0.0 && v <= 0.0) || (u <= 0.0 && v >= 0.0) {
      OppositeSigns(u, v);
    }
    BelowMean(u, v, product);
    assert 2.0 * Expected(pa, pb) - 1.0 == product;
  }

  lemma ExpectedIsOne(pa: real, pb: real)
    requires 0.0 <= pa <= 1.0 && 0.0 <= pb <= 1.0
    ensures Expected(pa, pb) <= 1.0
    ensures Expected(pa, pb) == 1.0 <==> (pa == 0.0 && pb == 0.0) || (pa == 1.0 && pb == 1.0)
  {
    var x, y := pa * (1.0 - pb), pb * (1.0 - pa);
    assert Expected(pa, pb) == 1.0 - (x + y);
    ProductSign(pa, 1.0 - pb);
    ProductSign(pb, 1.0 - pa);
    assert x >= 0.0 && y >= 0.0;
    if x + y == 0.0 && pa > 0.0 {
      assert pb == 1.0;
      assert y == 1.0 - pa;
    }
  }

  lemma Share(part: nat, whole: nat)
    requires 0 < whole && part <= whole
    ensures 0.0 <= part as real / whole as real <= 1.0
    ensures part as real / whole as real == 1.0 <==> part == whole
    ensures part as real / whole as real == 0.0 <==> part == 0
  {
    var p, w := part as real, whole as real;
    QuotientOrder(p, w, w);
    QuotientOrder(0.0, p, w);
    QuotientSum(p, w, w);
  }

  lemma QuotientBounds(num: real, den: real)
    requires den > 0.0 && -den <= num <= den
    ensures -1.0 <= num / den <= 1.0
    ensures num / den == 1.0 <==> num == den
  {
    QuotientOrder(num, den, den);
    QuotientOrder(-den, num, den);
    QuotientSum(0.0, den, den);
    QuotientTimes(num, den);
  }

  // ----- Main results --------------------------------------------------------------

  /** observed >= |pa + pb - 1|, by counting. */
  lemma Shares(pairs: Pairs)
    requires pairs != []
    ensures var o, pa := ShareOf(Agreements(pairs), pairs), ShareOf(FirstYes(pairs), pairs);
            var pb := ShareOf(SecondYes(pairs), pairs);
            0.0 <= pa <= 1.0 && 0.0 <= pb <= 1.0 && o <= 1.0 && o >= pa + pb - 1.0 && o >= 1.0 - pa - pb
  {
    Cells(pairs);
    var n, a, f, s := |pairs| as real, Agreements(pairs) as real, FirstYes(pairs) as real, SecondYes(pairs) as real;
    Share(FirstYes(pairs), |pairs|);
    Share(SecondYes(pairs), |pairs|);
    Share(Agreements(pairs), |pairs|);
    QuotientSum(f, s, n);
    QuotientSum(f + s, n, n);
    QuotientSum(n, f + s, n);
    QuotientOrder(f + s - n, a, n);
    QuotientOrder(n - (f + s), a, n);
  }

  /** A perfect score is full observed agreement, that is, no disagreeing pair. */
  lemma FullAgreement(pairs: Pairs)
    requires pairs != []
    ensures ShareOf(Agreements(pairs), pairs) == 1.0 <==> forall p :: p in pairs ==> p.0 == p.1
  {
    Cells(pairs);
    Share(Agreements(pairs), |pairs|);
    CellsEmpty(pairs, true, false);
    CellsEmpty(pairs, false, true);
    if forall p :: p in pairs ==> p.0 == p.1 {
      assert (true, false) !in pairs && (false, true) !in pairs;
    }
  }

  /** The score of an observed share o against an expected share e. */
  lemma ScoreRange(o: real, e: real)
    requires e < 1.0 && o <= 1.0 && 2.0 * e - 1.0 <= o
    ensures -1.0 <= (o - e) / (1.0 - e) <= 1.0
    ensures (o - e) / (1.0 - e) == 1.0 <==> o == 1.0
  {
    QuotientBounds(o - e, 1.0 - e);
  }

  /** Before rounding, kappa lies in [-1, 1] and is 1 exactly when the raters agree
      on every pair. */
  lemma RawKappaRange(pairs: Pairs)
    requires RawKappa(pairs).Some?
    ensures -1.0 <= RawKappa(pairs).value <= 1.0
    ensures RawKappa(pairs).value == 1.0 <==> forall p :: p in pairs ==> p.0 == p.1
  {
    var o, pa := ShareOf(Agreements(pairs), pairs), ShareOf(FirstYes(pairs), pairs);
    var pb := ShareOf(SecondYes(pairs), pairs);
    Shares(pairs);
    ExpectedBelowObserved(pa, pb, o);
    ScoreRange(o, Expected(pa, pb));
    FullAgreement(pairs);
  }

  lemma RoundingKeepsTheRange(x: real)
    requires -1.0 <= x <= 1.0
    ensures -1.0 <= RoundTo(x, 10000.0) <= 1.0
    ensures RoundTo(x, 10000.0) == 1.0 <==> x >= 0.99995
  {
    var steps := RoundHalfEven(x * 10000.0);
    assert -10000 <= steps <= 10000;
    QuotientOrder(steps as real, 10000.0, 10000.0);
    QuotientOrder(-10000.0, steps as real, 10000.0);
  }

  // ----- When exactly the rounded score is 1 ---------------------------------------

  function Disagreements(pairs: Pairs): int {
    |pairs| - Agreements(pairs)
  }

  /** In how many of the n * n ways to pair one answer of the first rater with one
      of the second the two differ. */
  function Crossed(pairs: Pairs): int {
    FirstYes(pairs) * (|pairs| - SecondYes(pairs)) + SecondYes(pairs) * (|pairs| - FirstYes(pairs))
  }

  lemma ScoreReachesIff(o: real, e: real)
    requires e < 1.0
    ensures (o - e) / (1.0 - e) >= 0.99995 <==> 20000.0 * (1.0 - o) <= 1.0 - e
  {
    var score, rest := (o - e) / (1.0 - e), 1.0 - e;
    QuotientTimes(o - e, rest);
    if score >= 0.99995 {
      ProductOrder(0.99995, score, rest);
    } else {
      ProductSign(0.99995 - score, rest);
      assert (0.99995 - score) * rest == 0.99995 * rest - score * rest;
    }
  }

  /** The expected share, in counts. */
  lemma ExpectedInCounts(f: real, s: real, n: real)
    requires n > 0.0
    ensures (1.0 - Expected(f / n, s / n)) * (n * n) == f * (n - s) + s * (n - f)
  {
    var pa, pb := f / n, s / n;
    QuotientTimes(f, n);
    QuotientTimes(s, n);
    assert 1.0 - Expected(pa, pb) == pa * (1.0 - pb) + pb * (1.0 - pa);
    assert (pa * (1.0 - pb)) * (n * n) == (pa * n) * (n - pb * n);
    assert (pb * (1.0 - pa)) * (n * n) == (pb * n) * (n - pa * n);
  }

  lemma ObservedInCounts(a: real, n: real)
    requires n > 0.0
    ensures (1.0 - a / n) * (n * n) == n * (n - a)
  {
    QuotientTimes(a, n);
    assert (1.0 - a / n) * (n * n) == n * (n - (a / n) * n);
  }

  lemma ScaledOrder(x: real, y: real, m: real)
    requires m > 0.0
    ensures x <= y <==> x * m <= y * m
  {
    if x <= y {
      ProductOrder(x, y, m);
    } else {
      ProductSign(x - y, m);
      assert (x - y) * m == x * m - y * m;
    }
  }

  lemma RealProduct(x: int, y: int)
    ensures (x * y) as real == x as real * y as real
  {
  }

  lemma RealCrossed(n: int, f: int, s: int)
    ensures (f * (n - s) + s * (n - f)) as real
         == f as real * (n as real - s as real) + s as real * (n as real - f as real)
  {
    RealProduct(f, n - s);
    RealProduct(s, n - f);
  }

  lemma ScaledGap(gap: real, rest: real, square: real, few: int, many: int)
    requires square > 0.0 && gap * square == few as real && rest * square == many as real
    ensures 20000.0 * gap <= rest <==> 20000 * few <= many
  {
    ScaledOrder(20000.0 * gap, rest, square);
    assert (20000.0 * gap) * square == 20000.0 * (gap * square);
  }

  lemma GapInCounts(n: int, a: int)
    requires n > 0
    ensures (1.0 - a as real / n as real) * (n as real * n as real) == (n * (n - a)) as real
  {
    ObservedInCounts(a as real, n as real);
    RealProduct(n, n - a);
  }

  lemma RestInCounts(n: int, f: int, s: int)
    requires n > 0
    ensures (1.0 - Expected(f as real / n as real, s as real / n as real)) * (n as real * n as real)
         == (f * (n - s) + s * (n - f)) as real
  {
    ExpectedInCounts(f as real, s as real, n as real);
    RealCrossed(n, f, s);
  }

  /** Both sides of ScoreReachesIff, times n * n. */
  lemma ShareInCounts(n: int, f: int, s: int, a: int)
    requires n > 0
    ensures var o, e := a as real / n as real, Expected(f as real / n as real, s as real / n as real);
            20000.0 * (1.0 - o) <= 1.0 - e <==> 20000 * (n * (n - a)) <= f * (n - s) + s * (n - f)
  {
    GapInCounts(n, a);
    RestInCounts(n, f, s);
    ProductSign(n as real, n as real);
    ScaledGap(1.0 - a as real / n as real, 1.0 - Expected(f as real / n as real, s as real / n as real),
              n as real * n as real, n * (n - a), f * (n - s) + s * (n - f));
  }

  /** Kappa reads 1 exactly when 20000 times the disagreements, out of n, are no more
      than the crossed answers, out of n * n. */
  lemma ReadsOneIff(pairs: Pairs)
    requires KappaOf(pairs).Some?
    ensures KappaOf(pairs).value == 1.0 <==> 20000 * (|pairs| * Disagreements(pairs)) <= Crossed(pairs)
  {
    var o := ShareOf(Agreements(pairs), pairs);
    var e := Expected(ShareOf(FirstYes(pairs), pairs), ShareOf(SecondYes(pairs), pairs));
    RawKappaRange(pairs);
    RoundingKeepsTheRange(RawKappa(pairs).value);
    ScoreReachesIff(o, e);
    ShareInCounts(|pairs|, FirstYes(pairs), SecondYes(pairs), Agreements(pairs));
  }

  lemma CrossedIdentity(n: int, f: int, s: int)
    ensures 2 * (f * (n - s) + s * (n - f)) == n * n + (f - s) * (f - s) - (n - f - s) * (n - f - s)
  {
  }

  lemma SquareWithin(x: int, d: int)
    requires -d <= x <= d
    ensures 0 <= x * x <= d * d
  {
    assert (d - x) * (d + x) >= 0;
    assert (d - x) * (d + x) == d * d - x * x;
  }

  lemma SquareIsNotNegative(x: int)
    ensures x * x >= 0
  {
  }

  lemma CrossedWithin(n: int, f: int, s: int, d: int)
    requires -d <= f - s <= d
    ensures 2 * (f * (n - s) + s * (n - f)) <= n * n + d * d
  {
    CrossedIdentity(n, f, s);
    SquareWithin(f - s, d);
    SquareIsNotNegative(n - f - s);
  }

  /** With n pairs of which d disagree, at most (n * n + d * d) / 2 ways cross. */
  lemma CrossedIsBounded(pairs: Pairs)
    ensures 2 * Crossed(pairs) <= |pairs| * |pairs| + Disagreements(pairs) * Disagreements(pairs)
  {
    Cells(pairs);
    CrossedWithin(|pairs|, FirstYes(pairs), SecondYes(pairs), Disagreements(pairs));
  }

  lemma TooManyForFewPairs(n: int, d: int)
    requires 0 < d <= n < 40000
    ensures n * n + d * d < 40000 * (n * d)
  {
    assert n * n <= n * (39999 * d) by {
      assert n <= 39999 * d;
    }
    assert n * (39999 * d) == 39999 * (n * d);
    if d < n {
      assert d * d < n * d;
    } else {
      assert d * d == n * d == n * n;
      assert n * n > 0;
    }
  }

  lemma DisagreementShows(pairs: Pairs)
    requires KappaOf(pairs).Some? && |pairs| < 40000 && Disagreements(pairs) > 0
    ensures KappaOf(pairs).value != 1.0
  {
    ReadsOneIff(pairs);
    CrossedIsBounded(pairs);
    TooManyForFewPairs(|pairs|, Disagreements(pairs));
  }

  // A list of n >= 40000 pairs with one disagreement that reads 1.

  function Repeated(answer: bool, n: nat): Pairs {
    if n == 0 then [] else Repeated(answer, n - 1) + [(answer, answer)]
  }

  function NearPerfect(n: nat): Pairs
    requires n >= 40000
  {
    [(true, false)] + Repeated(true, 20000) + Repeated(false, n - 20001)
  }

  lemma {:induction false} CellConcat(p: Pairs, q: Pairs, a: bool, b: bool)
    ensures Cell(p + q, a, b) == Cell(p, a, b) + Cell(q, a, b)
  {
    if q == [] {
      assert p + q == p;
    } else {
      assert (p + q)[..|p + q| - 1] == p + q[..|q| - 1];
      CellConcat(p, q[..|q| - 1], a, b);
    }
  }

  lemma {:induction false} RepeatedCells(answer: bool, n: nat, a: bool, b: bool)
    ensures |Repeated(answer, n)| == n
    ensures Cell(Repeated(answer, n), a, b) == if (a, b) == (answer, answer) then n else 0
  {
    if n > 0 {
      RepeatedCells(answer, n - 1, a, b);
    }
  }

  lemma NearPerfectCells(n: nat, a: bool, b: bool)
    requires n >= 40000
    ensures |NearPerfect(n)| == n && NearPerfect(n)[0] == (true, false)
    ensures Cell(NearPerfect(n), a, b)
         == if a && b then 20000 else if a then 1 else if b then 0 else n - 20001
  {
    var one: Pairs := [(true, false)];
    CellConcat(one, Repeated(true, 20000), a, b);
    CellConcat(one + Repeated(true, 20000), Repeated(false, n - 20001), a, b);
    RepeatedCells(true, 20000, a, b);
    RepeatedCells(false, n - 20001, a, b);
    assert one[..0] == [] && Cell(one[..0], a, b) == 0;
  }

  lemma NearPerfectCounts(n: nat)
    requires n >= 40000
    ensures FirstYes(NearPerfect(n)) == 20001 && SecondYes(NearPerfect(n)) == 20000
    ensures |NearPerfect(n)| == n && Disagreements(NearPerfect(n)) == 1
  {
    NearPerfectCells(n, true, true);
    NearPerfectCells(n, true, false);
    NearPerfectCells(n, false, true);
    NearPerfectCells(n, false, false);
    Cells(NearPerfect(n));
  }

  lemma EnoughCrossed(n: int, f: int, s: int, d: int)
    requires n >= 40000 && f == 20001 && s == 20000 && d == 1
    ensures 20000 * (n * d) <= f * (n - s) + s * (n - f)
  {
    assert f * (n - s) == 20001 * (n - 20000) && s * (n - f) == 20000 * (n - 20001) && n * d == n;
  }

  /** From 40000 pairs on there is a list with one disagreement that reads 1. */
  lemma NearPerfectReadsOne(n: nat)
    requires n >= 40000
    ensures |NearPerfect(n)| == n && NearPerfect(n)[0] == (true, false)
    ensures Disagreements(NearPerfect(n)) == 1 && KappaOf(NearPerfect(n)) == Some(1.0)
  {
    var pairs := NearPerfect(n);
    NearPerfectCounts(n);
    assert pairs[0] in pairs;
    KappaUndefined(pairs);
    ReadsOneIff(pairs);
    EnoughCrossed(n, FirstYes(pairs), SecondYes(pairs), Disagreements(pairs));
  }

  /** Whenever it is defined, kappa lies in [-1, 1], and it reads 1 when the raters
      agree on every pair. */
  lemma KappaRange(pairs: Pairs)
    requires KappaOf(pairs).Some?
    ensures -1.0 <= KappaOf(pairs).value <= 1.0
    ensures KappaOf(pairs).value == 1.0 <==> RawKappa(pairs).value >= 0.99995
    ensures (forall p :: p in pairs ==> p.0 == p.1) ==> KappaOf(pairs).value == 1.0
    ensures |pairs| < 40000 && KappaOf(pairs).value == 1.0 ==> forall p :: p in pairs ==> p.0 == p.1
  {
    RawKappaRange(pairs);
    RoundingKeepsTheRange(RawKappa(pairs).value);
    NoDisagreement(pairs);
    if |pairs| < 40000 && Disagreements(pairs) > 0 {
      DisagreementShows(pairs);
    }
  }

  lemma NoDisagreement(pairs: Pairs)
    requires pairs != []
    ensures Disagreements(pairs) == 0 <==> forall p :: p in pairs ==> p.0 == p.1
    ensures Disagreements(pairs) >= 0
  {
    Cells(pairs);
    FullAgreement(pairs);
    Share(Agreements(pairs), |pairs|);
  }

  ghost predicate Agree(pairs: Pairs) {
    forall p :: p in pairs ==> p.0 == p.1
  }

  /** For lists of n pairs, reading 1 means agreeing on every pair if and only if n
      is below 40000. */
  lemma OneMeansAgreementIffFew(n: nat)
    requires n > 0
    ensures (forall pairs: Pairs :: |pairs| == n && KappaOf(pairs).Some? ==>
               (KappaOf(pairs).value == 1.0 <==> Agree(pairs)))
       <==> n < 40000
  {
    if n < 40000 {
      forall pairs: Pairs | |pairs| == n && KappaOf(pairs).Some?
        ensures KappaOf(pairs).value == 1.0 <==> Agree(pairs)
      {
        KappaRange(pairs);
      }
    } else {
      var pairs := NearPerfect(n);
      NearPerfectReadsOne(n);
      assert pairs[0] in pairs && !Agree(pairs);
    }
  }

  /** Kappa is undefined exactly when there is no pair, or both raters give one
      and the same answer throughout. */
  lemma KappaUndefined(pairs: Pairs)
    ensures KappaOf(pairs) == None
       <==> pairs == [] || (exists answer :: forall p :: p in pairs ==> p == (answer, answer))
  {
    if pairs != [] {
      Shares(pairs);
      ExpectedIsOne(ShareOf(FirstYes(pairs), pairs), ShareOf(SecondYes(pairs), pairs));
      Cells(pairs);
      Share(FirstYes(pairs), |pairs|);
      Share(SecondYes(pairs), |pairs|);
      AllAnswers(pairs, true);
      AllAnswers(pairs, false);
    }
  }

  lemma AllAnswers(pairs: Pairs, answer: bool)
    requires pairs != []
    ensures (forall p :: p in pairs ==> p == (answer, answer))
       <==> FirstYes(pairs) == SecondYes(pairs) == if answer then |pairs| else 0
  {
    Cells(pairs);
    CellsEmpty(pairs, true, true);
    CellsEmpty(pairs, true, false);
    CellsEmpty(pairs, false, true);
    CellsEmpty(pairs, false, false);
    if forall p :: p in pairs ==> p == (answer, answer) {
      assert (answer, !answer) !in pairs && (!answer, answer) !in pairs && (!answer, !answer) !in pairs;
    }
    if FirstYes(pairs) == SecondYes(pairs) == if answer then |pairs| else 0 {
      forall p | p in pairs
        ensures p == (answer, answer)
      {
        assert p == (p.0, p.1);
        assert (answer, !answer) !in pairs && (!answer, answer) !in pairs && (!answer, !answer) !in pairs;
        assert p.0 == answer || p.0 == !answer;
        assert p.1 == answer || p.1 == !answer;
      }
    }
  }

  function Swapped(pairs: Pairs): Pairs {
    seq(|pairs|, i requires 0 <= i < |pairs| => (pairs[i].1, pairs[i].0))
  }

  lemma {:induction false} SwappedCounts(pairs: Pairs)
    ensures FirstYes(Swapped(pairs)) == SecondYes(pairs) && SecondYes(Swapped(pairs)) == FirstYes(pairs)
    ensures Agreements(Swapped(pairs)) == Agreements(pairs)
  {
    if pairs != [] {
      assert Swapped(pairs)[..|pairs| - 1] == Swapped(pairs[..|pairs| - 1]);
      SwappedCounts(pairs[..|pairs| - 1]);
    }
  }

  lemma ExpectedIsSymmetric(pa: real, pb: real)
    ensures Expected(pa, pb) == Expected(pb, pa)
  {
  }

  /** It does not matter which rater comes first. */
  lemma KappaIsSymmetric(pairs: Pairs)
    ensures KappaOf(Swapped(pairs)) == KappaOf(pairs)
  {
    if pairs != [] {
      SwappedCounts(pairs);
      ExpectedIsSymmetric(ShareOf(FirstYes(pairs), pairs), ShareOf(SecondYes(pairs), pairs));
      assert |Swapped(pairs)| == |pairs|;
    }
  }

  // ----- The score in counts ---------------------------------------------------------

  function Differing(pairs: Pairs): set<nat> {
    set i: nat | i < |pairs| && pairs[i].0 != pairs[i].1
  }

  function FirstSaysYes(pairs: Pairs): set<nat> {
    set i: nat | i < |pairs| && pairs[i].0
  }

  function SecondSaysYes(pairs: Pairs): set<nat> {
    set i: nat | i < |pairs| && pairs[i].1
  }

  lemma DifferingStep(pairs: Pairs, last: (bool, bool))
    ensures |Differing(pairs + [last])| == |Differing(pairs)| + if last.0 != last.1 then 1 else 0
  {
    assert Differing(pairs + [last]) == Differing(pairs) + if last.0 != last.1 then {|pairs|} else {};
  }

  lemma FirstSaysStep(pairs: Pairs, last: (bool, bool))
    ensures |FirstSaysYes(pairs + [last])| == |FirstSaysYes(pairs)| + if last.0 then 1 else 0
  {
    assert FirstSaysYes(pairs + [last]) == FirstSaysYes(pairs) + if last.0 then {|pairs|} else {};
  }

  lemma SecondSaysStep(pairs: Pairs, last: (bool, bool))
    ensures |SecondSaysYes(pairs + [last])| == |SecondSaysYes(pairs)| + if last.1 then 1 else 0
  {
    assert SecondSaysYes(pairs + [last]) == SecondSaysYes(pairs) + if last.1 then {|pairs|} else {};
  }

  lemma {:induction false} AnswersAreCounted(pairs: Pairs)
    ensures Disagreements(pairs) == |Differing(pairs)|
    ensures FirstYes(pairs) == |FirstSaysYes(pairs)| && SecondYes(pairs) == |SecondSaysYes(pairs)|
  {
    if pairs != [] {
      var init, last := pairs[..|pairs| - 1], pairs[|pairs| - 1];
      assert pairs == init + [last];
      AnswersAreCounted(init);
      DifferingStep(init, last);
      FirstSaysStep(init, last);
      SecondSaysStep(init, last);
    }
  }

  lemma ShortfallInCounts(k: real, o: real, e: real, square: real, few: real, many: real)
    requires e < 1.0 && k == (o - e) / (1.0 - e)
    requires (1.0 - o) * square == few && (1.0 - e) * square == many
    ensures (1.0 - k) * many == few
  {
    QuotientTimes(o - e, 1.0 - e);
    assert (1.0 - k) * (1.0 - e) == (1.0 - e) - k * (1.0 - e) == 1.0 - o;
    assert (1.0 - k) * ((1.0 - e) * square) == ((1.0 - k) * (1.0 - e)) * square;
  }

  /** k is the score of a agreements among n pairs with f and s answers of yes. */
  ghost predicate IsScore(k: real, n: int, a: int, f: int, s: int) {
    && n > 0
    && var o, e := a as real / n as real, Expected(f as real / n as real, s as real / n as real);
       e < 1.0 && k == (o - e) / (1.0 - e)
  }

  lemma RawKappaIsScore(pairs: Pairs)
    requires RawKappa(pairs).Some?
    ensures IsScore(RawKappa(pairs).value, |pairs|, Agreements(pairs), FirstYes(pairs), SecondYes(pairs))
  {
  }

  /** How far k falls short of 1: the d pairs that differ, against those that would
      differ if n answers with f and with s of yes were paired at random. */
  ghost predicate FallsShortBy(k: real, n: int, d: int, f: int, s: int) {
    (1.0 - k) * (f * (n - s) + s * (n - f)) as real == (n * d) as real
  }

  lemma ScoreFallsShort(n: int, a: int, d: int, f: int, s: int, k: real)
    requires IsScore(k, n, a, f, s) && d == n - a
    ensures FallsShortBy(k, n, d, f, s)
  {
    GapInCounts(n, a);
    RestInCounts(n, f, s);
    ShortfallInCounts(k, a as real / n as real, Expected(f as real / n as real, s as real / n as real),
                      n as real * n as real, (n * (n - a)) as real, (f * (n - s) + s * (n - f)) as real);
  }

  /** The unrounded score in terms of who said yes and where the two differ. */
  lemma KappaInCounts(pairs: Pairs)
    requires RawKappa(pairs).Some?
    ensures FallsShortBy(RawKappa(pairs).value, |pairs|, |Differing(pairs)|, |FirstSaysYes(pairs)|,
                         |SecondSaysYes(pairs)|)
  {
    RawKappaIsScore(pairs);
    AnswersAreCounted(pairs);
    ScoreFallsShort(|pairs|, Agreements(pairs), |Differing(pairs)|, |FirstSaysYes(pairs)|, |SecondSaysYes(pairs)|,
                    RawKappa(pairs).value);
  }

  /** The score handed out is the multiple of 1/10000 nearest to it. */
  lemma KappaIsNearest(pairs: Pairs)
    ensures KappaOf(pairs).Some? <==> RawKappa(pairs).Some?
    ensures KappaOf(pairs).Some? ==> IsNearest(KappaOf(pairs).value, RawKappa(pairs).value, 10000.0)
  {
    if RawKappa(pairs).Some? {
      RoundToIsNearest(RawKappa(pairs).value, 10000.0);
    }
  }
}
