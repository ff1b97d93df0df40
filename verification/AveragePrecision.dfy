/** Average precision at k: `_precision_at_k` and `_map_at_k` of
    `scripts/eval_bm25_sweep.py`. A label says whether the ranked item is a hit. */
module AveragePrecision {
  import opened Basics
  import opened Reals

  /** Python's `labels[:k]`, for either sign of k. */
  function Head(labels: seq<bool>, k: int): seq<bool> {
    if k > |labels| then labels
    else if k >= 0 then labels[..k]
    else if k >= -|labels| then labels[..|labels| + k]
    else []
  }

  function Hits(head: seq<bool>): nat {
    if head == [] then 0 else Hits(head[..|head| - 1]) + if head[|head| - 1] then 1 else 0
  }

  /** The precision at the rank of each hit, added up. */
  function PrecisionSum(head: seq<bool>): real {
    if head == [] then 0.0
    else
      PrecisionSum(head[..|head| - 1])
      + if head[|head| - 1] then Hits(head) as real / |head| as real else 0.0
  }

  /** The mean precision over the hits of a ranking, 0 when it has none. */
  function Average(head: seq<bool>): real {
    PrecisionSum(head) / (if Hits(head) > 1 then Hits(head) else 1) as real
  }

  method MapAtK(labels: seq<bool>, k: int) returns (score: real)
    ensures score == Average(Head(labels, k))
  {
    var head := Head(labels, k);
    if head == [] {
      return 0.0;
    }
    var hits, total := 0, 0.0;
    for i := 0 to |head|
      invariant hits == Hits(head[..i]) && total == PrecisionSum(head[..i])
    {
      assert head[..i + 1][..i] == head[..i];
      if head[i] {
        hits := hits + 1;
        total := total + hits as real / (i + 1) as real;
      }
    }
    assert head[..|head|] == head;
    score := total / (if hits > 1 then hits else 1) as real;
  }

  /** No miss comes before a hit. */
  ghost predicate HitsFirst(head: seq<bool>) {
    forall i, j :: 0 <= i < j < |head| && head[j] ==> head[i]
  }

  lemma {:induction false} HitsAreBounded(head: seq<bool>)
    ensures Hits(head) <= |head|
    ensures Hits(head) == |head| <==> false !in head
    ensures Hits(head) == 0 <==> true !in head
  {
    if head != [] {
      var init := head[..|head| - 1];
      HitsAreBounded(init);
      var last := head[|head| - 1];
      assert head == init + [last];
      assert forall hit :: hit in head <==> hit in init || hit == last;
    }
  }

  lemma PartOfWhole(part: nat, whole: nat)
    requires 0 < whole && part <= whole
    ensures 0.0 <= part as real / whole as real <= 1.0
    ensures part as real / whole as real == 1.0 <==> part == whole
  {
    QuotientOrder(part as real, whole as real, whole as real);
    QuotientOrder(0.0, part as real, whole as real);
    QuotientSum(0.0, whole as real, whole as real);
  }

  /** The precision sum never exceeds the number of hits, and reaches it exactly
      when no miss comes before a hit. */
  lemma {:induction false} PrecisionSumIsBounded(head: seq<bool>)
    ensures 0.0 <= PrecisionSum(head) <= Hits(head) as real
    ensures PrecisionSum(head) == Hits(head) as real <==> HitsFirst(head)
  {
    if head != [] {
      var init := head[..|head| - 1];
      PrecisionSumIsBounded(init);
      HitsAreBounded(head);
      HitsAreBounded(init);
      PartOfWhole(Hits(head), |head|);
      if head[|head| - 1] {
        assert HitsFirst(head) <==> false !in head by {
          if HitsFirst(head) {
            forall i | 0 <= i < |head|
              ensures head[i]
            {
              assert i < |head| - 1 ==> head[i];
            }
          }
        }
        assert HitsFirst(head) ==> HitsFirst(init);
      } else {
        assert HitsFirst(head) <==> HitsFirst(init) by {
          if HitsFirst(init) {
            forall i, j | 0 <= i < j < |head| && head[j]
              ensures head[i]
            {
              assert init[j] ==> init[i];
            }
          }
        }
      }
    }
  }

  /** Average precision lies in [0, 1]; it is 1 exactly when the ranking has a hit
      and no miss comes before one, and 0 exactly when it has none. */
  lemma AverageRange(labels: seq<bool>, k: int)
    ensures var head := Head(labels, k);
            && 0.0 <= Average(head) <= 1.0
            && (Average(head) == 1.0 <==> true in head && HitsFirst(head))
            && (Average(head) == 0.0 <==> true !in head)
  {
    var head := Head(labels, k);
    PrecisionSumIsBounded(head);
    HitsAreBounded(head);
    var hits := Hits(head) as real;
    if Hits(head) > 0 {
      QuotientOrder(PrecisionSum(head), hits, hits);
      QuotientOrder(0.0, PrecisionSum(head), hits);
      QuotientSum(0.0, hits, hits);
      SomeHitCounts(head);
    }
  }

  lemma {:induction false} SomeHitCounts(head: seq<bool>)
    requires Hits(head) > 0
    ensures PrecisionSum(head) > 0.0
  {
    var init := head[..|head| - 1];
    PrecisionSumIsBounded(init);
    if head[|head| - 1] {
      QuotientOrder(0.0, Hits(head) as real, |head| as real);
    } else {
      SomeHitCounts(init);
    }
  }

  /** Moves the hit at i + 1 up over the miss at i. */
  function Promoted(head: seq<bool>, i: nat): seq<bool>
    requires i + 1 < |head|
  {
    head[i := true][i + 1 := false]
  }

  lemma {:induction false} PromotionKeepsHits(head: seq<bool>, i: nat)
    requires i + 1 < |head| && !head[i] && head[i + 1]
    ensures Hits(Promoted(head, i)) == Hits(head)
    decreases |head|
  {
    var init := head[..|head| - 1];
    if i + 2 == |head| {
      assert Promoted(head, i)[..i] == head[..i] == init[..i];
      assert Promoted(head, i)[..i + 1][..i] == head[..i];
    } else {
      PromotionKeepsHits(init, i);
      assert Promoted(head, i)[..|head| - 1] == Promoted(init, i);
    }
  }

  lemma LargerShare(part: nat, whole: nat)
    requires 0 < part && 0 < whole
    ensures part as real / whole as real > part as real / (whole + 1) as real
  {
    var p, w, v := part as real, whole as real, (whole + 1) as real;
    QuotientTimes(p, w);
    QuotientTimes(p, v);
    if p / w <= p / v {
      ProductOrder(p / w, p / v, w);
      QuotientOrder(0.0, p, v);
      assert (p / v) * v == (p / v) * w + p / v;
    }
  }

  lemma {:induction false} PromotionRaisesTheSum(head: seq<bool>, i: nat)
    requires i + 1 < |head| && !head[i] && head[i + 1]
    ensures PrecisionSum(Promoted(head, i)) > PrecisionSum(head)
    decreases |head|
  {
    var init, better := head[..|head| - 1], Promoted(head, i);
    PromotionKeepsHits(head, i);
    if i + 2 == |head| {
      var common := head[..i];
      assert better[..i + 1][..i] == common && init[..i] == common;
      assert PrecisionSum(better) == PrecisionSum(better[..i + 1]);
      assert Hits(better[..i + 1]) == Hits(common) + 1;
      LargerShare(Hits(common) + 1, i + 1);
    } else {
      PromotionRaisesTheSum(init, i);
      assert better[..|head| - 1] == Promoted(init, i);
    }
  }

  /** Inside the head, swapping a hit with the miss just before it strictly raises
      the average. */
  lemma PromotionRaisesTheAverage(head: seq<bool>, i: nat)
    requires i + 1 < |head| && !head[i] && head[i + 1]
    ensures Average(Promoted(head, i)) > Average(head)
  {
    PromotionKeepsHits(head, i);
    PromotionRaisesTheSum(head, i);
    var hits := if Hits(head) > 1 then Hits(head) else 1;
    QuotientOrder(PrecisionSum(head), PrecisionSum(Promoted(head, i)), hits as real);
  }

  // ----- A hit that enters the head -----------------------------------------------------

  /** One more hit, of precision (hits + 1) / size, against the mean so far. */
  lemma NewHitAgainstMean(sum: real, hits: real, size: real)
    requires hits > 0.0 && size > 0.0
    ensures sum / hits < (sum + (hits + 1.0) / size) / (hits + 1.0) <==> sum * size < hits * (hits + 1.0)
    ensures sum / hits > (sum + (hits + 1.0) / size) / (hits + 1.0) <==> sum * size > hits * (hits + 1.0)
  {
    var more, mean, share := hits + 1.0, sum / hits, (hits + 1.0) / size;
    var next := (sum + share) / more;
    QuotientTimes(sum, hits);
    QuotientTimes(more, size);
    QuotientTimes(sum + share, more);
    ProductSign(hits, size);
    ProductSign(hits * size, more);
    var scale := (hits * size) * more;
    // Both sides, times hits * size * (hits + 1).
    assert mean * scale == (sum * size) * more by {
      assert mean * scale == (mean * hits) * (size * more);
    }
    assert next * scale == (sum * size + more) * hits by {
      assert next * scale == (next * more) * (hits * size);
      assert (sum + share) * (hits * size) == (sum * size + share * size) * hits;
    }
    ScaledDifference(mean, next, scale, (sum * size) * more, (sum * size + more) * hits);
    assert (sum * size) * more == (sum * size) * hits + sum * size;
    assert (sum * size + more) * hits == (sum * size) * hits + more * hits;
  }

  lemma ScaledDifference(x: real, y: real, scale: real, low: real, high: real)
    requires scale > 0.0 && x * scale == low && y * scale == high
    ensures x < y <==> low < high
    ensures x > y <==> low > high
  {
    ProductSign(y - x, scale);
    ProductSign(x - y, scale);
    assert (y - x) * scale == high - low && (x - y) * scale == low - high;
  }

  /** The head once its last item, a miss, has become a hit. */
  lemma EnteringHit(head: seq<bool>)
    requires head != [] && !head[|head| - 1]
    ensures var after := head[|head| - 1 := true];
            && Hits(after) == Hits(head) + 1
            && PrecisionSum(after) == PrecisionSum(head) + (Hits(head) + 1) as real / |head| as real
  {
    var n := |head| - 1;
    assert head[n := true][..n] == head[..n];
  }

  /** The precision sum against what makes a hit in the last place leave the mean
      as it is. */
  predicate LowForALastHit(head: seq<bool>) {
    PrecisionSum(head) * |head| as real < (Hits(head) * (Hits(head) + 1)) as real
  }

  predicate HighForALastHit(head: seq<bool>) {
    PrecisionSum(head) * |head| as real > (Hits(head) * (Hits(head) + 1)) as real
  }

  lemma EnteringHitAverage(head: seq<bool>)
    requires head != [] && !head[|head| - 1]
    ensures var after, hits := head[|head| - 1 := true], Hits(head);
            && (Average(after) > Average(head) <==> hits == 0 || LowForALastHit(head))
            && (Average(after) < Average(head) <==> hits > 0 && HighForALastHit(head))
  {
    var hits, size := Hits(head) as real, |head| as real;
    EnteringHit(head);
    PrecisionSumIsBounded(head);
    if Hits(head) == 0 {
      QuotientOrder(0.0, 1.0, size);
      QuotientSum(0.0, 0.0, size);
    } else {
      NewHitAgainstMean(PrecisionSum(head), hits, size);
    }
  }

  /** What the cut at k makes of a swap further up, at its edge, or below it. */
  lemma HeadOfPromoted(labels: seq<bool>, k: int, i: nat)
    requires i + 1 < |labels|
    ensures var head, after := Head(labels, k), Head(Promoted(labels, i), k);
            && |head| <= |labels| && |after| == |head|
            && (i + 1 < |head| ==> after == Promoted(head, i) && head[i] == labels[i] && head[i + 1] == labels[i + 1])
            && (i + 1 == |head| ==> after == head[i := true] && head[i] == labels[i])
            && (i + 1 > |head| ==> after == head)
  {
  }

  /** Swapping a hit with the miss just before it raises the average precision at k
      exactly when both are inside the head, or the hit enters the head at its last
      rank and its precision there lifts the mean of the hits above it; it lowers
      it exactly when the hit enters and drags that mean down. */
  lemma PromotionAtK(labels: seq<bool>, k: int, i: nat)
    requires i + 1 < |labels| && !labels[i] && labels[i + 1]
    ensures var head, after := Head(labels, k), Head(Promoted(labels, i), k);
            && (Average(after) > Average(head)
                <==> i + 1 < |head| || (i + 1 == |head| && (Hits(head) == 0 || LowForALastHit(head))))
            && (Average(after) < Average(head)
                <==> i + 1 == |head| && Hits(head) > 0 && HighForALastHit(head))
  {
    var head := Head(labels, k);
    HeadOfPromoted(labels, k, i);
    if i + 1 < |head| {
      PromotionRaisesTheAverage(head, i);
    } else if i + 1 == |head| {
      EnteringHitAverage(head);
    }
  }

  /** For the labels 1, 0, 0, 1 the average precision at 3 is 1; moving the last hit
      up to rank 3 lowers it to 5/6. */
  lemma PromotionCanLower()
    ensures var labels := [true, false, false, true];
            Average(Head(labels, 3)) == 1.0 && Average(Head(Promoted(labels, 2), 3)) == 5.0 / 6.0
  {
    var labels := [true, false, false, true];
    var head: seq<bool>, after: seq<bool> := [true, false, false], [true, false, true];
    assert Head(labels, 3) == head && Head(Promoted(labels, 2), 3) == after;
    assert head[..2] == after[..2] == [true, false];
    assert [true, false][..1] == [true] && [true][..0] == [];
    assert Hits([]) == 0 && PrecisionSum([]) == 0.0;
    assert Hits([true]) == 1 && PrecisionSum([true]) == 1.0;
    assert Hits([true, false]) == 1 && PrecisionSum([true, false]) == 1.0;
    assert Hits(head) == 1 && PrecisionSum(head) == 1.0;
    assert Hits(after) == 2 && PrecisionSum(after) == 1.0 + 2.0 / 3.0;
  }

  // ----- Precision at k ----------------------------------------------------------------

  function Precision(head: seq<bool>): real {
    if head == [] then 0.0 else Hits(head) as real / |head| as real
  }

  /** `sum(head) / len(head)`. */
  method PrecisionAtK(labels: seq<bool>, k: int) returns (score: real)
    ensures score == Precision(Head(labels, k))
  {
    var head := Head(labels, k);
    if head == [] {
      return 0.0;
    }
    score := Hits(head) as real / |head| as real;
  }

  function HitsAt(head: seq<bool>, n: nat): set<nat> {
    set i: nat | i < n && i < |head| && head[i]
  }

  lemma {:induction false} HitsAreCounted(head: seq<bool>, n: nat)
    requires n <= |head|
    ensures Hits(head[..n]) == |HitsAt(head, n)|
  {
    if n == 0 {
      assert HitsAt(head, 0) == {};
    } else {
      HitsAreCounted(head, n - 1);
      assert head[..n][..n - 1] == head[..n - 1];
      assert HitsAt(head, n) == HitsAt(head, n - 1) + if head[n - 1] then {n - 1} else {};
    }
  }

  /** At a hit, the share of hits down to its rank; elsewhere nothing. */
  function PrecisionHere(head: seq<bool>): nat -> real {
    (i: nat) => if i < |head| && head[i] then |HitsAt(head, i + 1)| as real / (i + 1) as real else 0.0
  }

  lemma {:induction false} PrecisionSumIsTold(head: seq<bool>, n: nat)
    requires n <= |head|
    ensures PrecisionSum(head[..n]) == SumReals(PrecisionHere(head), n)
  {
    if n > 0 {
      PrecisionSumIsTold(head, n - 1);
      HitsAreCounted(head, n);
      assert head[..n][..n - 1] == head[..n - 1];
    }
  }

  /** The head: the first k labels, or for a negative k all but the last -k. */
  lemma HeadIsTold(labels: seq<bool>, k: int)
    ensures Head(labels, k) <= labels
    ensures k >= 0 ==> |Head(labels, k)| == if k <= |labels| then k else |labels|
    ensures k < 0 ==> |Head(labels, k)| == if -k <= |labels| then |labels| + k else 0
  {
  }

  lemma AverageTimesHits(head: seq<bool>, hits: nat, sum: real)
    requires hits == Hits(head) && sum == PrecisionSum(head)
    ensures Average(head) * hits as real == sum
  {
    PrecisionSumIsBounded(head);
    if hits > 0 {
      QuotientTimes(sum, hits as real);
    }
  }

  lemma PrecisionTimesLength(head: seq<bool>, hits: nat)
    requires hits == Hits(head)
    ensures Precision(head) * |head| as real == hits as real
  {
    if head != [] {
      QuotientTimes(hits as real, |head| as real);
    }
  }

  /** Both scores in terms of ranks: the average precision times the number of hits
      is the sum of the precisions at the hits, and the precision times the length
      is the number of hits. */
  lemma ScoresAreTold(labels: seq<bool>, k: int)
    ensures var head := Head(labels, k);
            && Average(head) * |HitsAt(head, |head|)| as real == SumReals(PrecisionHere(head), |head|)
            && Precision(head) * |head| as real == |HitsAt(head, |head|)| as real
  {
    var head := Head(labels, k);
    assert head[..|head|] == head;
    HitsAreCounted(head, |head|);
    PrecisionSumIsTold(head, |head|);
    AverageTimesHits(head, |HitsAt(head, |head|)|, SumReals(PrecisionHere(head), |head|));
    PrecisionTimesLength(head, |HitsAt(head, |head|)|);
  }

  /** Precision lies in [0, 1]; it is 1 exactly without a miss in a head that is not
      empty, and 0 exactly without a hit.  Moving a hit up inside the head changes
      nothing, where average precision rises. */
  lemma PrecisionRange(labels: seq<bool>, k: int, i: nat)
    ensures var head := Head(labels, k);
            && 0.0 <= Precision(head) <= 1.0
            && (Precision(head) == 1.0 <==> head != [] && false !in head)
            && (Precision(head) == 0.0 <==> true !in head)
            && (i + 1 < |head| && !head[i] && head[i + 1] ==> Precision(Promoted(head, i)) == Precision(head))
  {
    var head := Head(labels, k);
    HitsAreBounded(head);
    if head != [] {
      PartOfWhole(Hits(head), |head|);
      QuotientTimes(Hits(head) as real, |head| as real);
    }
    if i + 1 < |head| && !head[i] && head[i + 1] {
      PromotionKeepsHits(head, i);
    }
  }
}
