/** What the statistics and the weights of BM25 say, told from the rows and the
    tokens: counts as numbers of places, the weight as a fraction, and how it moves
    with the rarity of a term and the length of a document. */
module Bm25Terms {
  import opened Basics
  import opened Reals
  import opened Bm25

  // ----- Counts --------------------------------------------------------------------

  function PlacesOf(tokens: seq<string>, term: string): set<nat> {
    set i: nat | i < |tokens| && tokens[i] == term
  }

  function DocsWith(docs: seq<seq<string>>, term: string): set<nat> {
    set i: nat | i < |docs| && term in docs[i]
  }

  lemma {:induction false} TermCountIsTold(tokens: seq<string>, n: nat, term: string)
    requires n <= |tokens|
    ensures TermCount(tokens[..n], term) == |PlacesOf(tokens[..n], term)|
  {
    if n == 0 {
      assert PlacesOf(tokens[..0], term) == {};
    } else {
      TermCountIsTold(tokens, n - 1, term);
      assert tokens[..n][..n - 1] == tokens[..n - 1];
      assert PlacesOf(tokens[..n], term)
          == PlacesOf(tokens[..n - 1], term) + if tokens[n - 1] == term then {n - 1} else {};
    }
  }

  lemma {:induction false} ContainingIsTold(docs: seq<seq<string>>, n: nat, term: string)
    requires n <= |docs|
    ensures Containing(docs[..n], term) == |DocsWith(docs[..n], term)|
  {
    if n == 0 {
      assert DocsWith(docs[..0], term) == {};
    } else {
      ContainingIsTold(docs, n - 1, term);
      assert docs[..n][..n - 1] == docs[..n - 1];
      assert DocsWith(docs[..n], term)
          == DocsWith(docs[..n - 1], term) + if term in docs[n - 1] then {n - 1} else {};
    }
  }

  function LengthAt(docs: seq<seq<string>>): nat -> int {
    (i: nat) => if i < |docs| then |docs[i]| else 0
  }

  lemma {:induction false} LengthsAdd(docs: seq<seq<string>>, n: nat)
    requires n <= |docs|
    ensures TotalLength(docs[..n]) == SumOver(LengthAt(docs), n)
  {
    if n > 0 {
      LengthsAdd(docs, n - 1);
      assert docs[..n][..n - 1] == docs[..n - 1];
    }
  }

  // ----- Documents -------------------------------------------------------------------

  /** A row with a claim that no row before it has. */
  predicate IsFirst(rows: seq<Row>, i: nat) {
    && i < |rows| && rows[i].claimId.Some?
    && forall j :: 0 <= j < i ==> rows[j].claimId != rows[i].claimId
  }

  function FirstAt(rows: seq<Row>): nat -> bool {
    (i: nat) => IsFirst(rows, i)
  }

  function TokensAt(rows: seq<Row>): nat -> seq<string> {
    (i: nat) => if i < |rows| then rows[i].tokens else []
  }

  lemma {:induction false} IdsAreTold(rows: seq<Row>, n: nat, id: int)
    requires n <= |rows|
    ensures id in Ids(rows[..n]) <==> exists j :: 0 <= j < n && rows[j].claimId == Some(id)
  {
    if n > 0 {
      IdsAreTold(rows, n - 1, id);
      assert rows[..n][..n - 1] == rows[..n - 1];
    }
  }

  /** The documents are the tokens of the first row of each claim, in order. */
  lemma {:induction false} DocsAreTold(rows: seq<Row>, n: nat)
    requires n <= |rows|
    ensures Docs(rows[..n]) == Kept(n, FirstAt(rows), TokensAt(rows))
  {
    if n > 0 {
      DocsAreTold(rows, n - 1);
      assert rows[..n][..n - 1] == rows[..n - 1];
      var row := rows[n - 1];
      if row.claimId.Some? {
        IdsAreTold(rows, n - 1, row.claimId.value);
      }
    }
  }

  ghost predicate IsMean(mean: real, sum: int, n: nat) {
    mean * n as real == sum as real
  }

  lemma QuotientIsMean(sum: int, n: nat)
    requires n > 0
    ensures IsMean(sum as real / n as real, sum, n)
  {
    QuotientTimes(sum as real, n as real);
  }

  lemma AverageIsMean(stats: CorpusStats, docs: seq<seq<string>>)
    requires IsStatsOf(stats, docs)
    ensures IsMean(stats.averageLength, TotalLength(docs), |docs|)
  {
    if docs != [] {
      QuotientIsMean(TotalLength(docs), |docs|);
    }
  }

  /** The statistics in terms of the documents alone. */
  lemma StatsAreTold(stats: CorpusStats, docs: seq<seq<string>>, term: string)
    requires IsStatsOf(stats, docs)
    ensures stats.docs == |docs|
    ensures IsMean(stats.averageLength, SumOver(LengthAt(docs), |docs|), |docs|)
    ensures Frequency(stats.frequency, term) == |DocsWith(docs, term)|
  {
    AverageIsMean(stats, docs);
    LengthsAdd(docs, |docs|);
    ContainingIsTold(docs, |docs|, term);
    assert docs[..|docs|] == docs;
  }

  // ----- Rarity -----------------------------------------------------------------------

  ghost predicate Rising(log: real -> real) {
    forall x, y :: 0.0 < x < y ==> log(x) < log(y)
  }

  /** The odds in the logarithm, in one fraction. */
  lemma Odds(docs: real, n: real)
    requires n >= 0.0
    ensures (docs - n + 0.5) / (n + 0.5) + 1.0 == (docs + 1.0) / (n + 0.5)
  {
    QuotientTimes(docs - n + 0.5, n + 0.5);
    QuotientTimes(docs + 1.0, n + 0.5);
    var low, high := (docs - n + 0.5) / (n + 0.5) + 1.0, (docs + 1.0) / (n + 0.5);
    assert low * (n + 0.5) == docs + 1.0;
    SameQuotient(low, high, n + 0.5);
  }

  lemma SameQuotient(x: real, y: real, d: real)
    requires d > 0.0 && x * d == y * d
    ensures x == y
  {
    assert (x - y) * d == 0.0;
    ProductSign(d, x - y);
    ProductSign(d, y - x);
    assert d * (x - y) == (x - y) * d;
  }

  lemma FewerIsLarger(docs: real, m: real, n: real)
    requires docs >= 0.0 && 0.0 <= m < n
    ensures 0.0 < (docs + 1.0) / (n + 0.5) < (docs + 1.0) / (m + 0.5)
  {
    var x := docs + 1.0;
    ProductSign(x, n - m);
    assert x * (n - m) == x * (n + 0.5) - x * (m + 0.5);
    CrossOrder(x, n + 0.5, x, m + 0.5);
    QuotientOrder(0.0, x, n + 0.5);
    assert 0.0 / (n + 0.5) == 0.0;
  }

  /** The inverse document frequency is log((N + 1) / (n + 1/2)), and a term that
      is in fewer documents has the greater one. */
  lemma RarerTermsWeighMore(stats: CorpusStats, rare: string, common: string, log: real -> real)
    requires Sound(stats) && Rising(log)
    ensures var n := Frequency(stats.frequency, rare) as real;
            Idf(stats, rare, log) == Some(log((stats.docs as real + 1.0) / (n + 0.5)))
    ensures Frequency(stats.frequency, rare) < Frequency(stats.frequency, common) ==>
              Idf(stats, rare, log).Some? && Idf(stats, common, log).Some?
              && Idf(stats, rare, log).value > Idf(stats, common, log).value
  {
    var docs := stats.docs as real;
    var m, n := Frequency(stats.frequency, rare) as real, Frequency(stats.frequency, common) as real;
    Odds(docs, m);
    Odds(docs, n);
    FewerIsLarger(docs, m, m + 1.0);
    FewerIsLarger(docs, n, n + 1.0);
    if m < n {
      FewerIsLarger(docs, m, n);
    }
  }

  // ----- Length --------------------------------------------------------------------------

  /** The norm of a document: 1 at the average length, and 1 - b more or less of the
      length relative to it. */
  lemma NormIsTold(length: nat, stats: CorpusStats, b: real)
    requires stats.averageLength > 0.0
    ensures (Norm(length, stats, b) - 1.0) * stats.averageLength == b * (length as real - stats.averageLength)
  {
    var ratio := length as real / stats.averageLength;
    QuotientTimes(length as real, stats.averageLength);
    assert Norm(length, stats, b) - 1.0 == b * (ratio - 1.0);
    assert (b * (ratio - 1.0)) * stats.averageLength == b * (ratio * stats.averageLength - stats.averageLength);
  }

  lemma NormRises(short: nat, long: nat, stats: CorpusStats, b: real)
    requires short < long && stats.averageLength >= 0.0 && b > 0.0
    ensures Norm(short, stats, b) < Norm(long, stats, b)
  {
    var average := if stats.averageLength == 0.0 then 1.0 else stats.averageLength;
    var low, high := short as real / average, long as real / average;
    QuotientOrder(short as real, long as real, average);
    ProductSign(b, high - low);
    assert b * (high - low) == b * high - b * low;
  }

  /** The weight is idf * f * (k1 + 1) over f + k1 * norm. */
  lemma WeightIsTold(idf: real, f: nat, k1: real, norm: real)
    requires f > 0 && k1 > 0.0 && norm > 0.0
    ensures Weight(idf, f, k1, norm).Some?
    ensures Weight(idf, f, k1, norm).value * (f as real + k1 * norm) == idf * (f as real * (k1 + 1.0))
  {
    var x, c := f as real, k1 * norm;
    ProductSign(k1, norm);
    QuotientTimes(x * (k1 + 1.0), x + c);
    var share := (x * (k1 + 1.0)) / (x + c);
    assert (idf * share) * (x + c) == idf * (share * (x + c));
  }

  lemma WeightFalls(idf: real, f: nat, k1: real, low: real, high: real)
    requires idf > 0.0 && f > 0 && k1 > 0.0 && 0.0 < low < high
    ensures Weight(idf, f, k1, low).Some? && Weight(idf, f, k1, high).Some?
    ensures Weight(idf, f, k1, high).value < Weight(idf, f, k1, low).value
  {
    var x, c, d := f as real * (k1 + 1.0), k1 * low, k1 * high;
    ProductSign(f as real, k1 + 1.0);
    ProductSign(k1, low);
    ProductSign(k1, high - low);
    assert k1 * (high - low) == d - c;
    var more, less := x / (f as real + c), x / (f as real + d);
    ProductSign(x, d - c);
    assert x * (d - c) == x * (f as real + d) - x * (f as real + c);
    CrossOrder(x, f as real + d, x, f as real + c);
    ProductSign(idf, more - less);
    assert idf * (more - less) == idf * more - idf * less;
  }

  /** With as many occurrences, a term weighs strictly less in a longer document. */
  lemma LongerDocumentsWeighLess(term: string, short: seq<string>, long: seq<string>, stats: CorpusStats,
                                 tuning: Tuning)
    requires Sound(stats) && Tuned(tuning) && tuning.b > 0.0
    requires 0 < TermCount(short, term) == TermCount(long, term) && 0 < |short| < |long|
    ensures var high, low := TermScore(term, short, stats, tuning), TermScore(term, long, stats, tuning);
            high.Some? && low.Some? && low.value < high.value
  {
    IdfIsPositive(stats, term, tuning.log);
    NormIsPositive(|short|, stats, tuning.b);
    NormRises(|short|, |long|, stats, tuning.b);
    WeightFalls(Idf(stats, term, tuning.log).value, TermCount(short, term), tuning.k1,
                Norm(|short|, stats, tuning.b), Norm(|long|, stats, tuning.b));
  }

  // ----- The sum ---------------------------------------------------------------------------

  function ScoreAt(query: seq<string>, doc: seq<string>, stats: CorpusStats, tuning: Tuning): nat -> real {
    (i: nat) =>
      if i < |query| && TermScore(query[i], doc, stats, tuning).Some?
      then TermScore(query[i], doc, stats, tuning).value else 0.0
  }

  lemma {:induction false} ScoresAdd(query: seq<string>, doc: seq<string>, stats: CorpusStats, tuning: Tuning, n: nat)
    requires n <= |query| && TermScores(query[..n], doc, stats, tuning).Some?
    ensures TermScores(query[..n], doc, stats, tuning).value == SumReals(ScoreAt(query, doc, stats, tuning), n)
    ensures forall i :: 0 <= i < n ==> TermScore(query[i], doc, stats, tuning).Some?
  {
    if n > 0 {
      assert query[..n][..n - 1] == query[..n - 1];
      ScoresAdd(query, doc, stats, tuning, n - 1);
    }
  }
}
