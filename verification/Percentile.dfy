/** Nearest-rank percentiles: `percentile` of `scripts/agg_recall_latency.py`,
    and the two variants elsewhere in the repository that leave out its clamp. */
module Percentile {
  import opened Basics
  import opened Reals
  import opened Sorting

  datatype RankError = IndexError

  function AtMost(a: real, b: real): bool {
    a <= b
  }

  /** The least integer that is not below x. */
  function Ceiling(x: real): (c: int)
    ensures x <= c as real < x + 1.0
  {
    -((-x).Floor)
  }

  /** pct% of a sample of n, as a count that need not be whole. */
  function ShareOf(n: nat, pct: real): real {
    pct * n as real / 100.0
  }

  function Percentile(values: seq<real>, pct: real): real {
    if values == [] then 0.0
    else
      var wanted := Ceiling(ShareOf(|values|, pct));
      var capped := if wanted < |values| then wanted else |values|;
      var rank := if capped < 1 then 1 else capped;
      SortHasSame(values, AtMost);
      Sort(values, AtMost)[rank - 1]
  }

  /** `benchmarks/perf_smoke.py` and `scripts/eval_query_memory_quality.py`: no
      upper clamp, so a rank past the sample raises. `onEmpty` is what an empty
      sample gives. */
  function Unclamped(values: seq<real>, pct: real, onEmpty: real): Result<real, RankError> {
    if values == [] then Success(onEmpty)
    else
      var wanted := Ceiling(ShareOf(|values|, pct));
      var rank := if wanted < 1 then 1 else wanted;
      SortHasSame(values, AtMost);
      if rank <= |values| then Success(Sort(values, AtMost)[rank - 1]) else Failure(IndexError)
  }

  /** How many values are at most x. */
  function CountAtMost(values: seq<real>, x: real): nat {
    if values == [] then 0
    else CountAtMost(values[..|values| - 1], x) + if values[|values| - 1] <= x then 1 else 0
  }

  lemma {:induction false} InsertCounts(sorted: seq<real>, value: real, x: real)
    ensures CountAtMost(Insert(sorted, value, AtMost), x) == CountAtMost(sorted, x) + if value <= x then 1 else 0
  {
    if sorted != [] {
      var init, last := sorted[..|sorted| - 1], sorted[|sorted| - 1];
      if AtMost(last, value) {
        assert (sorted + [value])[..|sorted|] == sorted;
      } else {
        var front := Insert(init, value, AtMost);
        InsertCounts(init, value, x);
        assert (front + [last])[..|front|] == front;
      }
    }
  }

  lemma {:induction false} SortCounts(values: seq<real>, x: real)
    ensures CountAtMost(Sort(values, AtMost), x) == CountAtMost(values, x)
  {
    if values != [] {
      var init, last := values[..|values| - 1], values[|values| - 1];
      SortCounts(init, x);
      InsertCounts(Sort(init, AtMost), last, x);
    }
  }

  /** In an ordered sample, everything up to place k counts and, when the value
      at k is above x, nothing from place k on does. */
  lemma {:induction false} OrderedCounts(values: seq<real>, k: nat, x: real)
    requires InOrder(values, AtMost) && k < |values|
    ensures values[k] <= x ==> CountAtMost(values, x) >= k + 1
    ensures values[k] > x ==> CountAtMost(values, x) <= k
  {
    var init := values[..|values| - 1];
    if k < |init| {
      OrderedCounts(init, k, x);
      assert AtMost(values[k], values[|init|]);
    } else {
      CountWithin(init, x);
      if values[k] <= x {
        forall value | value in init
          ensures value <= x
        {
          var i :| 0 <= i < |init| && init[i] == value;
          assert AtMost(values[i], values[k]);
        }
      }
    }
  }

  lemma {:induction false} CountWithin(values: seq<real>, x: real)
    ensures CountAtMost(values, x) <= |values|
    ensures (forall value :: value in values ==> value <= x) ==> CountAtMost(values, x) == |values|
  {
    if values != [] {
      var init := values[..|values| - 1];
      CountWithin(init, x);
      assert forall value :: value in init ==> value in values;
      assert values[|values| - 1] in values;
    }
  }

  lemma AtMostOrders()
    ensures TotalPreorder(AtMost)
  {
  }

  lemma ShareWithin(n: nat, pct: real)
    requires n > 0
    ensures 0.0 < pct <= 100.0 ==> 0.0 < ShareOf(n, pct) <= n as real
    ensures pct > 100.0 ==> ShareOf(n, pct) > n as real
    ensures pct <= 0.0 ==> ShareOf(n, pct) <= 0.0
  {
    var size := n as real;
    ProductSign(pct, size);
    ProductSign(size, pct);
    ProductSign(100.0 - pct, size);
    ProductSign(pct - 100.0, size);
    assert (100.0 - pct) * size == 100.0 * size - pct * size;
    assert (pct - 100.0) * size == pct * size - 100.0 * size;
    assert size * pct == pct * size;
  }

  /** The nearest-rank percentile is a sample that at least pct% of the samples do
      not exceed, and no smaller value has that. */
  lemma NearestRank(values: seq<real>, pct: real)
    requires values != [] && 0.0 < pct <= 100.0
    ensures Percentile(values, pct) in values
    ensures CountAtMost(values, Percentile(values, pct)) as real >= ShareOf(|values|, pct)
    ensures forall x :: x < Percentile(values, pct) ==> (CountAtMost(values, x) as real) < ShareOf(|values|, pct)
  {
    var sorted, result := Sort(values, AtMost), Percentile(values, pct);
    AtMostOrders();
    SortSorts(values, AtMost);
    SortHasSame(values, AtMost);
    ShareWithin(|values|, pct);
    var rank := Ceiling(ShareOf(|values|, pct));
    assert result == sorted[rank - 1];
    SortCounts(values, result);
    OrderedCounts(sorted, rank - 1, result);
    forall x | x < result
      ensures (CountAtMost(values, x) as real) < ShareOf(|values|, pct)
    {
      SortCounts(values, x);
      OrderedCounts(sorted, rank - 1, x);
    }
  }

  /** Outside that range the clamp gives the least or the greatest sample. */
  lemma ClampedRank(values: seq<real>, pct: real)
    requires values != []
    ensures pct <= 0.0 ==> forall value :: value in values ==> Percentile(values, pct) <= value
    ensures pct >= 100.0 ==> forall value :: value in values ==> value <= Percentile(values, pct)
  {
    var sorted := Sort(values, AtMost);
    AtMostOrders();
    SortSorts(values, AtMost);
    SortHasSame(values, AtMost);
    ShareWithin(|values|, pct);
    forall value | value in values
      ensures pct <= 0.0 ==> Percentile(values, pct) <= value
      ensures pct >= 100.0 ==> value <= Percentile(values, pct)
    {
      var i :| 0 <= i < |sorted| && sorted[i] == value;
      if pct <= 0.0 {
        assert Percentile(values, pct) == sorted[0];
        assert i > 0 ==> AtMost(sorted[0], sorted[i]);
      } else if pct >= 100.0 {
        assert Percentile(values, pct) == sorted[|sorted| - 1];
        assert i < |sorted| - 1 ==> AtMost(sorted[i], sorted[|sorted| - 1]);
      }
    }
  }

  /** The variants agree with the clamped form on a non-empty sample exactly up to
      100 percent; past it they raise. */
  lemma VariantsAgreeUpToAHundred(values: seq<real>, pct: real, onEmpty: real)
    requires values != []
    ensures Unclamped(values, pct, onEmpty) == Success(Percentile(values, pct)) <==> pct <= 100.0
    ensures Unclamped(values, pct, onEmpty).Failure? <==> pct > 100.0
  {
    ShareWithin(|values|, pct);
    SortHasSame(values, AtMost);
  }
}
