/** The promotion gate sweep: `scripts/eval_steward_pareto.py`. */
module Pareto {
  import opened Basics
  import opened Reals
  import opened Sorting

  // ----- Evaluating a gate -----------------------------------------------------

  /** A labelled claim; `score` is what `validation_score` gives it. */
  datatype Case = Case(positive: bool, citations: int, score: real)

  datatype Gate = Gate(minCitations: int, minScore: real)

  datatype Confusion = Confusion(tp: nat, fp: nat, tn: nat, fn: nat)

  datatype Point = Point(gate: Gate, counts: Confusion, promoteRate: real, falsePromoteRate: real)

  predicate Promoted(c: Case, gate: Gate) {
    c.citations >= gate.minCitations && c.score >= gate.minScore
  }

  /** How many cases there are with this label and this verdict. */
  function Count(cases: seq<Case>, gate: Gate, positive: bool, promoted: bool): nat {
    if cases == [] then 0
    else
      var last := cases[|cases| - 1];
      Count(cases[..|cases| - 1], gate, positive, promoted)
      + if last.positive == positive && Promoted(last, gate) == promoted then 1 else 0
  }

  function Labelled(cases: seq<Case>, positive: bool): nat {
    if cases == [] then 0
    else Labelled(cases[..|cases| - 1], positive) + if cases[|cases| - 1].positive == positive then 1 else 0
  }

  function Counts(cases: seq<Case>, gate: Gate): Confusion {
    Confusion(Count(cases, gate, true, true), Count(cases, gate, false, true),
              Count(cases, gate, false, false), Count(cases, gate, true, false))
  }

  /** A rate, rounded; 0 when there is nothing to divide by. */
  function Rate(part: nat, whole: nat, round: real -> real): real {
    if whole == 0 then 0.0 else round(part as real / whole as real)
  }

  function PointOf(cases: seq<Case>, gate: Gate, round: real -> real): Point {
    var c := Counts(cases, gate);
    Point(gate, c, Rate(c.tp, c.tp + c.fn, round), Rate(c.fp, c.fp + c.tn, round))
  }

  method Evaluate(cases: seq<Case>, gate: Gate, round: real -> real) returns (p: Point)
    ensures p == PointOf(cases, gate, round)
  {
    var tp: nat, fp: nat, tn: nat, fn: nat := 0, 0, 0, 0;
    for i := 0 to |cases|
      invariant Confusion(tp, fp, tn, fn) == Counts(cases[..i], gate)
    {
      assert cases[..i + 1][..i] == cases[..i];
      var promoted := cases[i].citations >= gate.minCitations && cases[i].score >= gate.minScore;
      if cases[i].positive {
        if promoted { tp := tp + 1; } else { fn := fn + 1; }
      } else {
        if promoted { fp := fp + 1; } else { tn := tn + 1; }
      }
    }
    assert cases[..|cases|] == cases;
    p := Point(gate, Confusion(tp, fp, tn, fn), Rate(tp, tp + fn, round), Rate(fp, fp + tn, round));
  }

  /** Whatever the gate, the counts split each class. */
  lemma {:induction false} CountsSplitClasses(cases: seq<Case>, gate: Gate)
    ensures Counts(cases, gate).tp + Counts(cases, gate).fn == Labelled(cases, true)
    ensures Counts(cases, gate).fp + Counts(cases, gate).tn == Labelled(cases, false)
  {
    if cases != [] {
      CountsSplitClasses(cases[..|cases| - 1], gate);
    }
  }

  ghost predicate Tighter(a: Gate, b: Gate) {
    a.minCitations >= b.minCitations && a.minScore >= b.minScore
  }

  lemma {:induction false} TighterPromotesFewer(cases: seq<Case>, a: Gate, b: Gate, positive: bool)
    requires Tighter(a, b)
    ensures Count(cases, a, positive, true) <= Count(cases, b, positive, true)
  {
    if cases != [] {
      TighterPromotesFewer(cases[..|cases| - 1], a, b, positive);
    }
  }

  ghost predicate Monotone(round: real -> real) {
    forall x, y :: x <= y ==> round(x) <= round(y)
  }

  /** The rounding of the script: `round(x, 4)`. */
  function FourDigits(x: real): real {
    RoundTo(x, 10000.0)
  }

  lemma FourDigitsAreMonotone()
    ensures Monotone(FourDigits)
  {
    forall x: real, y: real | x <= y
      ensures FourDigits(x) <= FourDigits(y)
    {
      RoundingIsMonotone(x * 10000.0, y * 10000.0);
      QuotientOrder(RoundHalfEven(x * 10000.0) as real, RoundHalfEven(y * 10000.0) as real, 10000.0);
    }
  }

  lemma RateMonotone(a: nat, b: nat, whole: nat, round: real -> real)
    requires a <= b && Monotone(round)
    ensures Rate(a, whole, round) <= Rate(b, whole, round)
  {
    if whole > 0 {
      assert a as real / whole as real <= b as real / whole as real;
    }
  }

  /** Raising either threshold never raises a count of promotions or a rate. */
  lemma GateIsMonotone(cases: seq<Case>, a: Gate, b: Gate, round: real -> real)
    requires Tighter(a, b) && Monotone(round)
    ensures var p, q := PointOf(cases, a, round), PointOf(cases, b, round);
            && p.counts.tp <= q.counts.tp && p.counts.fp <= q.counts.fp
            && p.promoteRate <= q.promoteRate && p.falsePromoteRate <= q.falsePromoteRate
  {
    TighterPromotesFewer(cases, a, b, true);
    TighterPromotesFewer(cases, a, b, false);
    CountsSplitClasses(cases, a);
    CountsSplitClasses(cases, b);
    RateMonotone(Counts(cases, a).tp, Counts(cases, b).tp, Labelled(cases, true), round);
    RateMonotone(Counts(cases, a).fp, Counts(cases, b).fp, Labelled(cases, false), round);
  }

  // ----- The frontier -------------------------------------------------------------

  predicate Dominates(a: Point, b: Point) {
    var bf, ef := a.falsePromoteRate < b.falsePromoteRate, a.falsePromoteRate == b.falsePromoteRate;
    var br, er := a.promoteRate > b.promoteRate, a.promoteRate == b.promoteRate;
    (bf && (br || er)) || (ef && br)
  }

  /** At least as good at both rates. */
  predicate Covers(a: Point, b: Point) {
    a.falsePromoteRate <= b.falsePromoteRate && a.promoteRate >= b.promoteRate
  }

  predicate Dominated(p: Point, results: seq<Point>) {
    exists i | 0 <= i < |results| :: Dominates(results[i], p)
  }

  function Undominated(candidates: seq<Point>, results: seq<Point>): seq<Point> {
    if candidates == [] then []
    else
      var last := candidates[|candidates| - 1];
      Undominated(candidates[..|candidates| - 1], results) + if Dominated(last, results) then [] else [last]
  }

  /** The order of `(false_promote_rate, -promote_rate)`. */
  predicate Before(a: Point, b: Point) {
    a.falsePromoteRate < b.falsePromoteRate
    || (a.falsePromoteRate == b.falsePromoteRate && a.promoteRate >= b.promoteRate)
  }

  function Frontier(results: seq<Point>): seq<Point> {
    Sort(Undominated(results, results), Before)
  }

  method ParetoFrontier(results: seq<Point>) returns (frontier: seq<Point>)
    ensures frontier == Frontier(results)
  {
    frontier := [];
    for i := 0 to |results|
      invariant frontier == Undominated(results[..i], results)
    {
      assert results[..i + 1][..i] == results[..i];
      var dominated := false;
      for j := 0 to |results|
        invariant !dominated && forall k :: 0 <= k < j ==> !Dominates(results[k], results[i])
      {
        if Dominates(results[j], results[i]) {
          dominated := true;
          break;
        }
      }
      if !dominated {
        frontier := frontier + [results[i]];
      }
    }
    assert results[..|results|] == results;
    frontier := Sort(frontier, Before);
  }

  lemma {:induction false} UndominatedHas(candidates: seq<Point>, results: seq<Point>, p: Point)
    ensures p in Undominated(candidates, results) <==> p in candidates && !Dominated(p, results)
  {
    if candidates != [] {
      var init, last := candidates[..|candidates| - 1], candidates[|candidates| - 1];
      UndominatedHas(init, results, p);
      assert candidates == init + [last];
    }
  }

  lemma FrontierHas(results: seq<Point>, p: Point)
    ensures p in Frontier(results) <==> p in results && !Dominated(p, results)
  {
    UndominatedHas(results, results, p);
    SortHasSame(Undominated(results, results), Before);
  }

  function Dominators(p: Point, results: seq<Point>): set<nat> {
    set i | 0 <= i < |results| && Dominates(results[i], p)
  }

  lemma FewerDominators(a: Point, i: nat, results: seq<Point>)
    requires i < |results| && Dominates(results[i], a)
    ensures |Dominators(results[i], results)| < |Dominators(a, results)|
  {
    var fewer, more := Dominators(results[i], results), Dominators(a, results);
    assert i in more && i !in fewer;
    assert more == fewer + (more - fewer);
    assert more - fewer != {};
  }

  /** Every point is covered by one of the frontier. */
  lemma {:induction false} FrontierCovers(results: seq<Point>, p: Point) returns (f: Point)
    requires p in results
    ensures f in Frontier(results) && Covers(f, p)
    decreases |Dominators(p, results)|
  {
    if Dominated(p, results) {
      var i :| 0 <= i < |results| && Dominates(results[i], p);
      FewerDominators(p, i, results);
      f := FrontierCovers(results, results[i]);
    } else {
      FrontierHas(results, p);
      f := p;
    }
  }

  /** The frontier is a staircase: both rates rise together, or both stay. */
  lemma FrontierIsStaircase(results: seq<Point>, i: nat, j: nat)
    requires i < j < |Frontier(results)|
    ensures var a, b := Frontier(results)[i], Frontier(results)[j];
            (a.falsePromoteRate < b.falsePromoteRate && a.promoteRate < b.promoteRate)
            || (a.falsePromoteRate == b.falsePromoteRate && a.promoteRate == b.promoteRate)
  {
    var frontier := Frontier(results);
    SortSorts(Undominated(results, results), Before);
    FrontierHas(results, frontier[i]);
    FrontierHas(results, frontier[j]);
    assert Before(frontier[i], frontier[j]);
    NotDominatedBy(results, frontier[i], frontier[j]);
  }

  lemma NotDominatedBy(results: seq<Point>, a: Point, b: Point)
    requires a in results && !Dominated(b, results)
    ensures !Dominates(a, b)
  {
    var i :| 0 <= i < |results| && results[i] == a;
  }

  // ----- The recommendation -----------------------------------------------------------

  function Distance(p: Point, cap: real): real {
    if p.falsePromoteRate >= cap then p.falsePromoteRate - cap else cap - p.falsePromoteRate
  }

  function Eligible(points: seq<Point>, cap: real): seq<Point> {
    if points == [] then []
    else
      var last := points[|points| - 1];
      Eligible(points[..|points| - 1], cap) + if last.falsePromoteRate <= cap then [last] else []
  }

  /** Python's max by (promote_rate, -false_promote_rate): the first of the best. */
  function Best(points: seq<Point>): Point
    requires points != []
  {
    if |points| == 1 then points[0]
    else
      var best, last := Best(points[..|points| - 1]), points[|points| - 1];
      if last.promoteRate > best.promoteRate
         || (last.promoteRate == best.promoteRate && last.falsePromoteRate < best.falsePromoteRate)
      then last else best
  }

  function Nearest(points: seq<Point>, cap: real): Point
    requires points != []
  {
    if |points| == 1 then points[0]
    else
      var nearest, last := Nearest(points[..|points| - 1], cap), points[|points| - 1];
      if Distance(last, cap) < Distance(nearest, cap) then last else nearest
  }

  /** `pick_recommended`. */
  function PickRecommended(frontier: seq<Point>, cap: real): Option<Point> {
    var eligible := Eligible(frontier, cap);
    if eligible != [] then Some(Best(eligible))
    else if frontier != [] then Some(Nearest(frontier, cap))
    else None
  }

  lemma {:induction false} EligibleHas(points: seq<Point>, cap: real, p: Point)
    ensures p in Eligible(points, cap) <==> p in points && p.falsePromoteRate <= cap
  {
    if points != [] {
      EligibleHas(points[..|points| - 1], cap, p);
      assert points == points[..|points| - 1] + [points[|points| - 1]];
    }
  }

  lemma {:induction false} BestIsBest(points: seq<Point>, p: Point)
    requires p in points
    ensures Best(points) in points
    ensures Best(points).promoteRate >= p.promoteRate
    ensures Best(points).promoteRate == p.promoteRate ==> Best(points).falsePromoteRate <= p.falsePromoteRate
  {
    if |points| > 1 {
      var init, last := points[..|points| - 1], points[|points| - 1];
      assert points == init + [last];
      BestIsBest(init, if p in init then p else init[0]);
    }
  }

  lemma {:induction false} NearestIsNearest(points: seq<Point>, cap: real, p: Point)
    requires p in points
    ensures Nearest(points, cap) in points && Distance(Nearest(points, cap), cap) <= Distance(p, cap)
  {
    if |points| > 1 {
      var init, last := points[..|points| - 1], points[|points| - 1];
      assert points == init + [last];
      NearestIsNearest(init, cap, if p in init then p else init[0]);
    }
  }

  /** Within the cap: the recommendation promotes at least as much as any swept
      point within the cap, on or off the frontier, and among those that promote
      as much it promotes falsely the least. */
  lemma RecommendationIsOptimal(results: seq<Point>, cap: real, p: Point)
    requires p in results && p.falsePromoteRate <= cap
    ensures var pick := PickRecommended(Frontier(results), cap);
            && pick.Some? && pick.value in results && pick.value.falsePromoteRate <= cap
            && pick.value.promoteRate >= p.promoteRate
            && (pick.value.promoteRate == p.promoteRate ==> pick.value.falsePromoteRate <= p.falsePromoteRate)
  {
    var frontier := Frontier(results);
    var f := FrontierCovers(results, p);
    EligibleHas(frontier, cap, f);
    var best := Best(Eligible(frontier, cap));
    BestIsBest(Eligible(frontier, cap), f);
    EligibleHas(frontier, cap, best);
    FrontierHas(results, best);
  }

  /** When no swept point is within the cap: the recommendation is as near to the
      cap as any swept point, and of those as near it promotes the most. */
  lemma RecommendationIsNearest(results: seq<Point>, cap: real, p: Point)
    requires p in results && forall q :: q in results ==> q.falsePromoteRate > cap
    ensures var pick := PickRecommended(Frontier(results), cap);
            && pick.Some? && pick.value in results
            && Distance(pick.value, cap) <= Distance(p, cap)
            && (Distance(pick.value, cap) == Distance(p, cap) ==> pick.value.promoteRate >= p.promoteRate)
  {
    var frontier := Frontier(results);
    var f := FrontierCovers(results, p);
    FrontierHas(results, f);
    var nearest := Nearest(frontier, cap);
    NearestIsNearest(frontier, cap, f);
    FrontierHas(results, nearest);
    if Eligible(frontier, cap) != [] {
      var q := Eligible(frontier, cap)[0];
      EligibleHas(frontier, cap, q);
      FrontierHas(results, q);
      assert false;
    }
    assert PickRecommended(frontier, cap) == Some(nearest);
    NotDominatedBy(results, nearest, f);
    NotDominatedBy(results, f, nearest);
  }

  lemma NothingHasNoFrontier()
    ensures Frontier([]) == []
  {
    forall p
      ensures p !in Frontier([])
    {
      FrontierHas([], p);
    }
    assert forall p :: p in Frontier([]) ==> false;
  }

  /** Whether any point is within the cap can be read off the frontier, and there
      is a recommendation exactly when there is a point. */
  lemma FrontierDecides(results: seq<Point>, cap: real)
    ensures (exists p :: p in results && p.falsePromoteRate <= cap)
       <==> (exists p :: p in Frontier(results) && p.falsePromoteRate <= cap)
    ensures PickRecommended(Frontier(results), cap) == None <==> results == []
  {
    if p :| p in results && p.falsePromoteRate <= cap {
      var f := FrontierCovers(results, p);
    }
    if p :| p in Frontier(results) && p.falsePromoteRate <= cap {
      FrontierHas(results, p);
    }
    if results != [] {
      var f := FrontierCovers(results, results[0]);
    } else {
      NothingHasNoFrontier();
    }
  }

  // ----- The sweep ---------------------------------------------------------------------

  /** 3 citation thresholds by 41 score thresholds from 0.40 to 0.80. */
  function SweptGate(i: nat): Gate
    requires i < 123
  {
    Gate(i / 41, (40 + i % 41) as real / 100.0)
  }

  function Sweep(cases: seq<Case>, round: real -> real): seq<Point> {
    seq(123, i requires 0 <= i < 123 => PointOf(cases, SweptGate(i), round))
  }

  lemma SweepHas(cases: seq<Case>, round: real -> real, minCitations: nat, percent: nat)
    requires minCitations <= 2 && 40 <= percent <= 80
    ensures PointOf(cases, Gate(minCitations, percent as real / 100.0), round) in Sweep(cases, round)
  {
    var i := minCitations * 41 + (percent - 40);
    assert i / 41 == minCitations && i % 41 == percent - 40;
    assert Sweep(cases, round)[i] == PointOf(cases, Gate(minCitations, percent as real / 100.0), round);
  }

  /** The sweep always recommends a gate, and no swept gate within the cap
      promotes more of the positives. */
  lemma SweepRecommendsTheBest(cases: seq<Case>, round: real -> real, cap: real, minCitations: nat, percent: nat)
    requires minCitations <= 2 && 40 <= percent <= 80
    ensures var pick := PickRecommended(Frontier(Sweep(cases, round)), cap);
            var p := PointOf(cases, Gate(minCitations, percent as real / 100.0), round);
            && pick.Some?
            && (p.falsePromoteRate <= cap ==>
                  pick.value.falsePromoteRate <= cap && pick.value.promoteRate >= p.promoteRate)
  {
    SweepHas(cases, round, minCitations, percent);
    FrontierDecides(Sweep(cases, round), cap);
    var p := PointOf(cases, Gate(minCitations, percent as real / 100.0), round);
    if p.falsePromoteRate <= cap {
      RecommendationIsOptimal(Sweep(cases, round), cap, p);
    }
  }
}
