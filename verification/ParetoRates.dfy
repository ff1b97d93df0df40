/** The rates of a gate as shares of the labelled cases, and the recommended gate
    in terms of rates alone. */
module ParetoRates {
  import opened Basics
  import opened Reals
  import opened Sorting
  import opened Pareto

  // ----- Rates ---------------------------------------------------------------------

  predicate Passes(c: Case, gate: Gate) {
    !(c.citations < gate.minCitations) && !(c.score < gate.minScore)
  }

  function CasesWith(cases: seq<Case>, positive: bool): set<nat> {
    set i: nat | i < |cases| && cases[i].positive == positive
  }

  function PassingWith(cases: seq<Case>, gate: Gate, positive: bool): set<nat> {
    set i: nat | i < |cases| && cases[i].positive == positive && Passes(cases[i], gate)
  }

  lemma CasesStep(cases: seq<Case>, last: Case, positive: bool)
    ensures |CasesWith(cases + [last], positive)|
         == |CasesWith(cases, positive)| + if last.positive == positive then 1 else 0
  {
    assert CasesWith(cases + [last], positive)
        == CasesWith(cases, positive) + if last.positive == positive then {|cases|} else {};
  }

  lemma PassingStep(cases: seq<Case>, last: Case, gate: Gate, positive: bool)
    ensures |PassingWith(cases + [last], gate, positive)|
         == |PassingWith(cases, gate, positive)| + if last.positive == positive && Passes(last, gate) then 1 else 0
  {
    assert PassingWith(cases + [last], gate, positive)
        == PassingWith(cases, gate, positive)
           + if last.positive == positive && Passes(last, gate) then {|cases|} else {};
  }

  lemma {:induction false} CountIsCardinality(cases: seq<Case>, gate: Gate, positive: bool)
    ensures Count(cases, gate, positive, true) == |PassingWith(cases, gate, positive)|
    ensures Labelled(cases, positive) == |CasesWith(cases, positive)|
  {
    if cases != [] {
      var init, last := cases[..|cases| - 1], cases[|cases| - 1];
      assert cases == init + [last];
      CountIsCardinality(init, gate, positive);
      CasesStep(init, last, positive);
      PassingStep(init, last, gate, positive);
    }
  }

  /** The promotion rate is the rounded share of the positive cases that pass, the
      false promotion rate that of the negative ones; 0 when there are none. */
  lemma RatesAreShares(cases: seq<Case>, gate: Gate, round: real -> real)
    ensures var p := PointOf(cases, gate, round);
            var yes, no := |CasesWith(cases, true)|, |CasesWith(cases, false)|;
            var tp, fp := |PassingWith(cases, gate, true)|, |PassingWith(cases, gate, false)|;
            && p.gate == gate && p.counts.tp == tp && p.counts.fp == fp
            && p.counts.tn == no - fp && p.counts.fn == yes - tp
            && p.promoteRate == (if yes == 0 then 0.0 else round(tp as real / yes as real))
            && p.falsePromoteRate == if no == 0 then 0.0 else round(fp as real / no as real)
  {
    CountsSplitClasses(cases, gate);
    CountIsCardinality(cases, gate, true);
    CountIsCardinality(cases, gate, false);
  }

  lemma FourDigitsAreNearest(x: real)
    ensures IsNearest(FourDigits(x), x, 10000.0)
  {
    RoundToIsNearest(x, 10000.0);
  }

  // ----- The frontier -----------------------------------------------------------------

  /** Dominated: some point is at least as good at both rates and better at one. */
  lemma FrontierIsTold(results: seq<Point>, p: Point)
    ensures p in Frontier(results) <==>
              && p in results
              && forall q :: q in results && q.falsePromoteRate <= p.falsePromoteRate && q.promoteRate >= p.promoteRate
                   ==> q.falsePromoteRate == p.falsePromoteRate && q.promoteRate == p.promoteRate
  {
    FrontierHas(results, p);
    if p in results && !Dominated(p, results) {
      forall q | q in results && Covers(q, p)
        ensures q.falsePromoteRate == p.falsePromoteRate && q.promoteRate == p.promoteRate
      {
        NotDominatedBy(results, q, p);
      }
    }
  }

  // ----- The recommendation --------------------------------------------------------------

  /** With no point within the cap: the fewest false promotions, and of those the
      most promotions. */
  lemma NearestIsLeastFalse(results: seq<Point>, cap: real, p: Point)
    requires p in results && forall q :: q in results ==> q.falsePromoteRate > cap
    ensures var pick := PickRecommended(Frontier(results), cap);
            && pick.Some? && pick.value in results
            && pick.value.falsePromoteRate <= p.falsePromoteRate
            && (pick.value.falsePromoteRate == p.falsePromoteRate ==> pick.value.promoteRate >= p.promoteRate)
  {
    RecommendationIsNearest(results, cap, p);
  }

  /** The first of the points with the rates of p is p itself. */
  ghost predicate ComesFirst(points: seq<Point>, p: Point) {
    exists i :: 0 <= i < |points| && points[i] == p && NoneLikeBefore(points, p, i)
  }

  ghost predicate NoneLikeBefore(points: seq<Point>, p: Point, i: nat) {
    forall j :: 0 <= j < i && j < |points| ==> !SameRates(points[j], p)
  }

  predicate SameRates(a: Point, b: Point) {
    a.falsePromoteRate == b.falsePromoteRate && a.promoteRate == b.promoteRate
  }

  ghost predicate Leads(points: seq<Point>, p: Point) {
    Alike(points, p, Before) != [] && Alike(points, p, Before)[0] == p
  }

  lemma RatesDecide(points: seq<Point>, p: Point)
    requires points != []
    ensures var init, last := points[..|points| - 1], points[|points| - 1];
            Alike(points, p, Before) == Alike(init, p, Before) + if SameRates(last, p) then [last] else []
  {
    var last := points[|points| - 1];
    assert SameRates(last, p) <==> Before(p, last) && Before(last, p);
  }

  lemma RatesAppend(points: seq<Point>, last: Point, p: Point)
    ensures Alike(points + [last], p, Before) == Alike(points, p, Before) + if SameRates(last, p) then [last] else []
  {
    RatesDecide(points + [last], p);
    assert (points + [last])[..|points|] == points;
  }

  lemma {:induction false} AlikeHas(points: seq<Point>, p: Point)
    ensures Alike(points, p, Before) == [] <==> forall q :: q in points ==> !SameRates(q, p)
  {
    if points != [] {
      AlikeHas(points[..|points| - 1], p);
      RatesDecide(points, p);
      assert points == points[..|points| - 1] + [points[|points| - 1]];
    }
  }

  lemma {:induction false} LeaderComesFirst(points: seq<Point>, p: Point)
    requires Leads(points, p)
    ensures ComesFirst(points, p)
  {
    var init, last := points[..|points| - 1], points[|points| - 1];
    RatesDecide(points, p);
    if Alike(init, p, Before) != [] {
      LeaderComesFirst(init, p);
      var i :| 0 <= i < |init| && init[i] == p && NoneLikeBefore(init, p, i);
      assert NoneLikeBefore(points, p, i);
    } else {
      AlikeHas(init, p);
      assert NoneLikeBefore(points, p, |init|);
      assert points[|init|] == p;
    }
  }

  lemma {:induction false} EligibleKeepsAlike(points: seq<Point>, cap: real, p: Point)
    requires p.falsePromoteRate <= cap
    ensures Alike(Eligible(points, cap), p, Before) == Alike(points, p, Before)
  {
    if points != [] {
      var init, last := points[..|points| - 1], points[|points| - 1];
      EligibleKeepsAlike(init, cap, p);
      RatesDecide(points, p);
      if last.falsePromoteRate <= cap {
        RatesAppend(Eligible(init, cap), last, p);
      } else {
        assert Eligible(points, cap) == Eligible(init, cap);
      }
    }
  }

  lemma SameRatesSameFate(results: seq<Point>, p: Point, q: Point)
    requires SameRates(p, q)
    ensures Dominated(p, results) <==> Dominated(q, results)
  {
    assert forall r :: Dominates(r, p) <==> Dominates(r, q);
  }

  lemma {:induction false} UndominatedKeepsAlike(candidates: seq<Point>, results: seq<Point>, p: Point)
    requires !Dominated(p, results)
    ensures Alike(Undominated(candidates, results), p, Before) == Alike(candidates, p, Before)
  {
    if candidates != [] {
      var init, last := candidates[..|candidates| - 1], candidates[|candidates| - 1];
      UndominatedKeepsAlike(init, results, p);
      RatesDecide(candidates, p);
      if SameRates(last, p) {
        SameRatesSameFate(results, last, p);
      }
      if !Dominated(last, results) {
        RatesAppend(Undominated(init, results), last, p);
      } else {
        assert Undominated(candidates, results) == Undominated(init, results);
      }
    }
  }

  lemma BeforeIsPreorder()
    ensures TotalPreorder(Before)
  {
  }

  lemma FrontierKeepsLeaders(results: seq<Point>, p: Point)
    requires Leads(Frontier(results), p) && p in Frontier(results)
    ensures Leads(results, p)
  {
    FrontierHas(results, p);
    BeforeIsPreorder();
    SortIsStable(Undominated(results, results), p, Before);
    UndominatedKeepsAlike(results, results, p);
  }

  predicate Better(a: Point, b: Point) {
    a.promoteRate > b.promoteRate || (a.promoteRate == b.promoteRate && a.falsePromoteRate < b.falsePromoteRate)
  }

  lemma {:induction false} BestLeads(points: seq<Point>)
    requires points != []
    ensures Leads(points, Best(points))
  {
    var init, last := points[..|points| - 1], points[|points| - 1];
    if init == [] {
      assert points == [last] && Alike(init, last, Before) == [];
    } else {
      BestLeads(init);
      RatesDecide(points, Best(points));
      if Better(last, Best(init)) {
        forall q | q in init
          ensures !SameRates(q, last)
        {
          BestIsBest(init, q);
        }
        AlikeHas(init, last);
      }
    }
  }

  lemma {:induction false} NearestLeads(points: seq<Point>, cap: real)
    requires points != []
    ensures Leads(points, Nearest(points, cap))
  {
    var init, last := points[..|points| - 1], points[|points| - 1];
    if init == [] {
      assert points == [last] && Alike(init, last, Before) == [];
    } else {
      NearestLeads(init, cap);
      RatesDecide(points, Nearest(points, cap));
      if Distance(last, cap) < Distance(Nearest(init, cap), cap) {
        forall q | q in init
          ensures !SameRates(q, last)
        {
          NearestIsNearest(init, cap, q);
        }
        AlikeHas(init, last);
      }
    }
  }

  /** Among gates with the same rates, the one swept first is recommended. */
  lemma TiesGoToTheFirst(results: seq<Point>, cap: real)
    requires results != []
    ensures PickRecommended(Frontier(results), cap).Some?
    ensures ComesFirst(results, PickRecommended(Frontier(results), cap).value)
  {
    var frontier := Frontier(results);
    FrontierDecides(results, cap);
    var pick := PickRecommended(frontier, cap).value;
    if Eligible(frontier, cap) != [] {
      BestLeads(Eligible(frontier, cap));
      BestIsBest(Eligible(frontier, cap), Eligible(frontier, cap)[0]);
      EligibleHas(frontier, cap, pick);
      EligibleKeepsAlike(frontier, cap, pick);
    } else {
      NearestLeads(frontier, cap);
      NearestIsNearest(frontier, cap, frontier[0]);
    }
    FrontierKeepsLeaders(results, pick);
    LeaderComesFirst(results, pick);
  }

  // ----- The swept gates --------------------------------------------------------------------

  /** The sweep goes through the citation thresholds 0, 1, 2, and for each through
      the score thresholds 0.40, 0.41, ..., 0.80. */
  lemma SweepIsTold(cases: seq<Case>, round: real -> real, i: nat)
    requires i < 123
    ensures |Sweep(cases, round)| == 123
    ensures Sweep(cases, round)[i].gate.minCitations in {0, 1, 2}
    ensures 0.4 <= Sweep(cases, round)[i].gate.minScore <= 0.8
    ensures i + 1 < 123 ==>
              var a, b := Sweep(cases, round)[i].gate, Sweep(cases, round)[i + 1].gate;
              if a.minScore < 0.8 then b == Gate(a.minCitations, a.minScore + 0.01)
              else b == Gate(a.minCitations + 1, 0.4)
    ensures Sweep(cases, round)[0].gate == Gate(0, 0.4)
  {
    var c, s := i / 41, i % 41;
    assert i == 41 * c + s;
    if s < 40 {
      assert (i + 1) / 41 == c && (i + 1) % 41 == s + 1;
    } else {
      assert (i + 1) / 41 == c + 1 && (i + 1) % 41 == 0;
    }
  }
}
