/** Okapi BM25 over the candidate union: `_build_corpus_stats` and `_bm25` of
    `scripts/eval_bm25_sweep.py`. The logarithm is a parameter that is positive
    above 1. */
module Bm25 {
  import opened Basics
  import opened Reals

  /** A candidate row: the id of its claim, if it has one, and the claim's tokens. */
  datatype Row = Row(claimId: Option<int>, tokens: seq<string>)

  datatype CorpusStats = CorpusStats(docs: nat, averageLength: real, frequency: map<string, nat>)

  /** Python's `df.get(term, 0)`. */
  function Frequency(table: map<string, nat>, term: string): nat {
    if term in table then table[term] else 0
  }

  // ----- Corpus statistics -----------------------------------------------------

  function Joined(batches: seq<seq<Row>>): seq<Row> {
    if batches == [] then [] else Joined(batches[..|batches| - 1]) + batches[|batches| - 1]
  }

  function Ids(rows: seq<Row>): set<int> {
    if rows == [] then {}
    else
      var last := rows[|rows| - 1];
      Ids(rows[..|rows| - 1]) + if last.claimId.Some? then {last.claimId.value} else {}
  }

  /** The documents: the tokens of the first row of each claim. */
  function Docs(rows: seq<Row>): seq<seq<string>> {
    if rows == [] then []
    else
      var init, last := rows[..|rows| - 1], rows[|rows| - 1];
      if last.claimId.Some? && last.claimId.value !in Ids(init) then Docs(init) + [last.tokens] else Docs(init)
  }

  /** In how many documents a term occurs. */
  function Containing(docs: seq<seq<string>>, term: string): nat {
    if docs == [] then 0
    else Containing(docs[..|docs| - 1], term) + if term in docs[|docs| - 1] then 1 else 0
  }

  function TotalLength(docs: seq<seq<string>>): nat {
    if docs == [] then 0 else TotalLength(docs[..|docs| - 1]) + |docs[|docs| - 1]|
  }

  ghost predicate IsStatsOf(stats: CorpusStats, docs: seq<seq<string>>) {
    && stats.docs == |docs|
    && stats.averageLength == (if docs == [] then 0.0 else TotalLength(docs) as real / |docs| as real)
    && forall term :: Frequency(stats.frequency, term) == Containing(docs, term)
  }

  /** Counts each term of one document once. */
  method CountTerms(table: map<string, nat>, tokens: seq<string>) returns (next: map<string, nat>)
    ensures forall term :: Frequency(next, term) == Frequency(table, term) + if term in tokens then 1 else 0
  {
    next := table;
    var todo := set term | term in tokens;
    while todo != {}
      invariant todo <= set term | term in tokens
      invariant forall term ::
                  Frequency(next, term)
                  == Frequency(table, term) + if term in tokens && term !in todo then 1 else 0
      decreases |todo|
    {
      var term :| term in todo;
      next := next[term := Frequency(next, term) + 1];
      todo := todo - {term};
    }
  }

  /** The accumulators agree with the rows gone through. */
  ghost predicate Gathered(rows: seq<Row>, seen: set<int>, count: nat, total: nat, table: map<string, nat>) {
    && seen == Ids(rows) && count == |Docs(rows)| && total == TotalLength(Docs(rows))
    && forall term :: Frequency(table, term) == Containing(Docs(rows), term)
  }

  /** One turn of the inner loop; only the first row of a claim adds anything. */
  method AddRow(ghost rows: seq<Row>, row: Row, seen: set<int>, count: nat, total: nat, table: map<string, nat>)
    returns (seen': set<int>, count': nat, total': nat, table': map<string, nat>)
    requires Gathered(rows, seen, count, total, table)
    ensures Gathered(rows + [row], seen', count', total', table')
  {
    seen', count', total', table' := seen, count, total, table;
    assert (rows + [row])[..|rows|] == rows;
    if row.claimId.Some? && row.claimId.value !in seen {
      assert (Docs(rows) + [row.tokens])[..|Docs(rows)|] == Docs(rows);
      seen' := seen + {row.claimId.value};
      count', total' := count + 1, total + |row.tokens|;
      table' := CountTerms(table, row.tokens);
    }
  }

  method BuildCorpusStats(batches: seq<seq<Row>>) returns (stats: CorpusStats)
    ensures IsStatsOf(stats, Docs(Joined(batches)))
  {
    var count, total := 0, 0;
    var table: map<string, nat> := map[];
    var seen: set<int> := {};
    for b := 0 to |batches|
      invariant Gathered(Joined(batches[..b]), seen, count, total, table)
    {
      ghost var before := Joined(batches[..b]);
      assert before + batches[b][..0] == before;
      for r := 0 to |batches[b]|
        invariant Gathered(before + batches[b][..r], seen, count, total, table)
      {
        ghost var rows := before + batches[b][..r];
        seen, count, total, table := AddRow(rows, batches[b][r], seen, count, total, table);
        assert rows + [batches[b][r]] == before + batches[b][..r + 1];
      }
      assert before + batches[b][..|batches[b]|] == Joined(batches[..b + 1]) by {
        assert batches[..b + 1][..b] == batches[..b] && batches[b][..|batches[b]|] == batches[b];
      }
    }
    assert batches[..|batches|] == batches;
    stats := CorpusStats(count, if count > 0 then total as real / count as real else 0.0, table);
  }

  /** There is one document per distinct claim. */
  lemma {:induction false} OneDocPerClaim(rows: seq<Row>)
    ensures |Docs(rows)| == |Ids(rows)|
  {
    if rows != [] {
      OneDocPerClaim(rows[..|rows| - 1]);
    }
  }

  lemma {:induction false} ContainingIsBounded(docs: seq<seq<string>>, term: string)
    ensures Containing(docs, term) <= |docs|
  {
    if docs != [] {
      ContainingIsBounded(docs[..|docs| - 1], term);
    }
  }

  /** What scoring relies on: no term is in more documents than there are. */
  ghost predicate Sound(stats: CorpusStats) {
    && stats.averageLength >= 0.0
    && forall term :: Frequency(stats.frequency, term) <= stats.docs
  }

  lemma StatsAreSound(stats: CorpusStats, docs: seq<seq<string>>)
    requires IsStatsOf(stats, docs)
    ensures Sound(stats)
  {
    forall term
      ensures Frequency(stats.frequency, term) <= stats.docs
    {
      ContainingIsBounded(docs, term);
    }
    if docs != [] {
      QuotientOrder(0.0, TotalLength(docs) as real, |docs| as real);
      QuotientSum(0.0, |docs| as real, |docs| as real);
    }
  }

  // ----- Scoring -----------------------------------------------------------------

  /** The two parameters of BM25, and the logarithm. */
  datatype Tuning = Tuning(k1: real, b: real, log: real -> real)

  function TermCount(tokens: seq<string>, term: string): nat {
    if tokens == [] then 0
    else TermCount(tokens[..|tokens| - 1], term) + if tokens[|tokens| - 1] == term then 1 else 0
  }

  /** None where `math.log` raises. */
  function Idf(stats: CorpusStats, term: string, log: real -> real): Option<real> {
    var n := Frequency(stats.frequency, term) as real;
    var odds := (stats.docs as real - n + 0.5) / (n + 0.5) + 1.0;
    if odds > 0.0 then Some(log(odds)) else None
  }

  function Norm(length: nat, stats: CorpusStats, b: real): real {
    var average := if stats.averageLength == 0.0 then 1.0 else stats.averageLength;
    1.0 - b + b * (length as real / average)
  }

  /** None where the division raises. */
  function Weight(idf: real, f: nat, k1: real, norm: real): Option<real> {
    if f as real + k1 * norm == 0.0 then None
    else Some(idf * ((f as real * (k1 + 1.0)) / (f as real + k1 * norm)))
  }

  function TermScore(term: string, doc: seq<string>, stats: CorpusStats, tuning: Tuning): Option<real> {
    var f := TermCount(doc, term);
    if f == 0 then Some(0.0)
    else
      var idf := Idf(stats, term, tuning.log);
      if idf.None? then None else Weight(idf.value, f, tuning.k1, Norm(|doc|, stats, tuning.b))
  }

  function Plus(a: Option<real>, b: Option<real>): Option<real> {
    if a.Some? && b.Some? then Some(a.value + b.value) else None
  }

  function TermScores(query: seq<string>, doc: seq<string>, stats: CorpusStats, tuning: Tuning): Option<real> {
    if query == [] then Some(0.0)
    else Plus(TermScores(query[..|query| - 1], doc, stats, tuning),
              TermScore(query[|query| - 1], doc, stats, tuning))
  }

  function Score(query: seq<string>, doc: seq<string>, stats: CorpusStats, tuning: Tuning): Option<real> {
    if stats.docs == 0 then Some(0.0) else TermScores(query, doc, stats, tuning)
  }

  method CountTokens(tokens: seq<string>) returns (counts: map<string, nat>)
    ensures forall term :: Frequency(counts, term) == TermCount(tokens, term)
  {
    counts := map[];
    for i := 0 to |tokens|
      invariant forall term :: Frequency(counts, term) == TermCount(tokens[..i], term)
    {
      assert tokens[..i + 1][..i] == tokens[..i];
      counts := counts[tokens[i] := Frequency(counts, tokens[i]) + 1];
    }
    assert tokens[..|tokens|] == tokens;
  }

  lemma {:induction false} EmptyDocScoresNothing(query: seq<string>, stats: CorpusStats, tuning: Tuning)
    ensures TermScores(query, [], stats, tuning) == Some(0.0)
  {
    if query != [] {
      EmptyDocScoresNothing(query[..|query| - 1], stats, tuning);
    }
  }

  lemma {:induction false} FailureStays(query: seq<string>, i: nat, doc: seq<string>, stats: CorpusStats,
                                        tuning: Tuning)
    requires i <= |query| && TermScores(query[..i], doc, stats, tuning).None?
    ensures TermScores(query, doc, stats, tuning).None?
  {
    if i < |query| {
      var init := query[..|query| - 1];
      assert init[..i] == query[..i];
      FailureStays(init, i, doc, stats, tuning);
    } else {
      assert query[..i] == query;
    }
  }

  method ScoreDocument(query: seq<string>, doc: seq<string>, stats: CorpusStats, tuning: Tuning)
    returns (score: Option<real>)
    ensures score == Score(query, doc, stats, tuning)
  {
    if query == [] || doc == [] || stats.docs == 0 {
      EmptyDocScoresNothing(query, stats, tuning);
      return Some(0.0);
    }
    var counts := CountTokens(doc);
    var sum := 0.0;
    for i := 0 to |query|
      invariant TermScores(query[..i], doc, stats, tuning) == Some(sum)
    {
      assert query[..i + 1][..i] == query[..i];
      var f := Frequency(counts, query[i]);
      if f == 0 {
        continue;
      }
      var idf := Idf(stats, query[i], tuning.log);
      if idf.None? {
        FailureStays(query, i + 1, doc, stats, tuning);
        return None;
      }
      var weight := Weight(idf.value, f, tuning.k1, Norm(|doc|, stats, tuning.b));
      if weight.None? {
        FailureStays(query, i + 1, doc, stats, tuning);
        return None;
      }
      sum := sum + weight.value;
    }
    assert query[..|query|] == query;
    score := Some(sum);
  }

  // ----- Bounds ----------------------------------------------------------------------

  ghost predicate PositiveAboveOne(log: real -> real) {
    forall x :: x > 1.0 ==> log(x) > 0.0
  }

  ghost predicate Tuned(tuning: Tuning) {
    tuning.k1 > 0.0 && 0.0 <= tuning.b <= 1.0 && PositiveAboveOne(tuning.log)
  }

  lemma IdfIsPositive(stats: CorpusStats, term: string, log: real -> real)
    requires Sound(stats) && PositiveAboveOne(log)
    ensures Idf(stats, term, log).Some? && Idf(stats, term, log).value > 0.0
  {
    var n := Frequency(stats.frequency, term) as real;
    QuotientOrder(0.0, stats.docs as real - n + 0.5, n + 0.5);
    QuotientSum(0.0, 0.0, n + 0.5);
  }

  lemma NormIsPositive(length: nat, stats: CorpusStats, b: real)
    requires length > 0 && stats.averageLength >= 0.0 && 0.0 <= b <= 1.0
    ensures Norm(length, stats, b) > 0.0
  {
    var average := if stats.averageLength == 0.0 then 1.0 else stats.averageLength;
    QuotientOrder(0.0, length as real, average);
    QuotientSum(0.0, 0.0, average);
    ProductSign(b, length as real / average);
  }

  /** A matching term contributes more than nothing and less than (k1 + 1) * idf. */
  lemma WeightIsBounded(idf: real, f: nat, k1: real, norm: real)
    requires idf > 0.0 && f > 0 && k1 > 0.0 && norm > 0.0
    ensures Weight(idf, f, k1, norm).Some?
    ensures 0.0 < Weight(idf, f, k1, norm).value < (k1 + 1.0) * idf
  {
    var x, m, c := f as real, k1 + 1.0, k1 * norm;
    ProductSign(k1, norm);
    ProductSign(x, m);
    ProductSign(m, c);
    assert m * (x + c) == x * m + m * c;
    var share := (x * m) / (x + c);
    QuotientBelow(x * m, m, x + c);
    QuotientOrder(0.0, x * m, x + c);
    QuotientSum(0.0, x + c, x + c);
    ProductSign(idf, share);
    ProductSign(idf, m - share);
    assert idf * (m - share) == m * idf - idf * share;
  }

  /** At a fixed length, more occurrences always weigh more. */
  lemma WeightRises(idf: real, f: nat, g: nat, k1: real, norm: real)
    requires idf > 0.0 && 0 < f < g && k1 > 0.0 && norm > 0.0
    ensures Weight(idf, f, k1, norm).Some? && Weight(idf, g, k1, norm).Some?
    ensures Weight(idf, f, k1, norm).value < Weight(idf, g, k1, norm).value
  {
    var x, y, m, c := f as real, g as real, k1 + 1.0, k1 * norm;
    ProductSign(k1, norm);
    ProductSign(m, c);
    ProductSign(m * c, y - x);
    assert (m * c) * (y - x) == (y * m) * (x + c) - (x * m) * (y + c);
    CrossOrder(x * m, x + c, y * m, y + c);
    var low, high := (x * m) / (x + c), (y * m) / (y + c);
    ProductSign(idf, high - low);
    assert idf * (high - low) == idf * high - idf * low;
  }

  lemma {:induction false} TermCountIsPositive(tokens: seq<string>, term: string)
    ensures TermCount(tokens, term) > 0 <==> term in tokens
  {
    if tokens != [] {
      var init := tokens[..|tokens| - 1];
      TermCountIsPositive(init, term);
      assert tokens == init + [tokens[|tokens| - 1]];
    }
  }

  lemma TermScoreSign(term: string, doc: seq<string>, stats: CorpusStats, tuning: Tuning)
    requires Sound(stats) && Tuned(tuning)
    ensures var score := TermScore(term, doc, stats, tuning);
            score.Some? && score.value >= 0.0 && (score.value > 0.0 <==> term in doc)
  {
    TermCountIsPositive(doc, term);
    if term in doc {
      IdfIsPositive(stats, term, tuning.log);
      NormIsPositive(|doc|, stats, tuning.b);
      WeightIsBounded(Idf(stats, term, tuning.log).value, TermCount(doc, term), tuning.k1,
                      Norm(|doc|, stats, tuning.b));
    }
  }

  lemma {:induction false} TermScoresSign(query: seq<string>, doc: seq<string>, stats: CorpusStats, tuning: Tuning)
    requires Sound(stats) && Tuned(tuning)
    ensures var score := TermScores(query, doc, stats, tuning);
            score.Some? && score.value >= 0.0 && (score.value > 0.0 <==> exists term :: term in query && term in doc)
  {
    if query != [] {
      var init, last := query[..|query| - 1], query[|query| - 1];
      TermScoresSign(init, doc, stats, tuning);
      TermScoreSign(last, doc, stats, tuning);
      assert query == init + [last];
      assert forall term :: term in query <==> term in init || term == last;
    }
  }

  /** On sound statistics a document's score is never undefined or negative, and it
      is positive exactly when some query term occurs in the document. */
  lemma ScoreIsPositiveOnAMatch(query: seq<string>, doc: seq<string>, stats: CorpusStats, tuning: Tuning)
    requires Sound(stats) && Tuned(tuning)
    ensures var score := Score(query, doc, stats, tuning);
            && score.Some? && score.value >= 0.0
            && (score.value > 0.0 <==> stats.docs > 0 && exists term :: term in query && term in doc)
  {
    TermScoresSign(query, doc, stats, tuning);
  }

  lemma TermScoreRises(term: string, doc: seq<string>, better: seq<string>, stats: CorpusStats, tuning: Tuning)
    requires Sound(stats) && Tuned(tuning) && |doc| == |better|
    requires TermCount(doc, term) <= TermCount(better, term)
    ensures var low, high := TermScore(term, doc, stats, tuning), TermScore(term, better, stats, tuning);
            && low.Some? && high.Some? && low.value <= high.value
            && (low.value < high.value <==> TermCount(doc, term) < TermCount(better, term))
  {
    TermScoreSign(term, doc, stats, tuning);
    TermScoreSign(term, better, stats, tuning);
    TermCountIsPositive(doc, term);
    TermCountIsPositive(better, term);
    if 0 < TermCount(doc, term) < TermCount(better, term) {
      IdfIsPositive(stats, term, tuning.log);
      NormIsPositive(|doc|, stats, tuning.b);
      WeightRises(Idf(stats, term, tuning.log).value, TermCount(doc, term), TermCount(better, term), tuning.k1,
                  Norm(|doc|, stats, tuning.b));
    }
  }

  ghost predicate Richer(query: seq<string>, doc: seq<string>, better: seq<string>) {
    exists term :: term in query && TermCount(doc, term) < TermCount(better, term)
  }

  lemma {:induction false} TermScoresRise(query: seq<string>, doc: seq<string>, better: seq<string>, stats: CorpusStats,
                                          tuning: Tuning)
    requires Sound(stats) && Tuned(tuning) && |doc| == |better|
    requires forall term :: term in query ==> TermCount(doc, term) <= TermCount(better, term)
    ensures var low, high := TermScores(query, doc, stats, tuning), TermScores(query, better, stats, tuning);
            && low.Some? && high.Some? && low.value <= high.value
            && (low.value < high.value <==> Richer(query, doc, better))
  {
    if query != [] {
      var init, last := query[..|query| - 1], query[|query| - 1];
      assert query == init + [last];
      assert forall term :: term in query <==> term in init || term == last;
      TermScoresRise(init, doc, better, stats, tuning);
      TermScoreRises(last, doc, better, stats, tuning);
    }
  }

  /** Of two documents of one length, the one in which no query term is rarer scores
      no lower, and strictly higher exactly when some query term is more frequent in
      it (and the corpus is not empty). */
  lemma MoreOccurrencesScoreHigher(query: seq<string>, doc: seq<string>, better: seq<string>, stats: CorpusStats,
                                   tuning: Tuning)
    requires Sound(stats) && Tuned(tuning) && |doc| == |better|
    requires forall term :: term in query ==> TermCount(doc, term) <= TermCount(better, term)
    ensures var low, high := Score(query, doc, stats, tuning), Score(query, better, stats, tuning);
            && low.Some? && high.Some? && low.value <= high.value
            && (low.value < high.value <==> stats.docs > 0 && Richer(query, doc, better))
  {
    TermScoresRise(query, doc, better, stats, tuning);
  }
}
