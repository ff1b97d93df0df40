/** What a payload says, told from the answers; and which chunks it is made of,
    told from the files and the attempts. */
module ChunkedEvalPayload {
  import opened Basics
  import opened Reals
  import opened ChunkedEval
  import opened ChunkedEvalTheorems

  // ----- Counting answers --------------------------------------------------------

  function CorrectAt(results: seq<Answer>): set<nat> {
    set i: nat | i < |results| && results[i].correct
  }

  predicate OfType(answer: Answer, kind: string) {
    if answer.questionType == "" then kind == "unknown" else kind == answer.questionType
  }

  function TypeAt(results: seq<Answer>, kind: string): set<nat> {
    set i: nat | i < |results| && OfType(results[i], kind)
  }

  function CorrectTypeAt(results: seq<Answer>, kind: string): set<nat> {
    set i: nat | i < |results| && OfType(results[i], kind) && results[i].correct
  }

  lemma CorrectAtStep(results: seq<Answer>, last: Answer)
    ensures |CorrectAt(results + [last])| == |CorrectAt(results)| + if last.correct then 1 else 0
  {
    assert CorrectAt(results + [last]) == CorrectAt(results) + if last.correct then {|results|} else {};
  }

  lemma TypeAtStep(results: seq<Answer>, last: Answer, kind: string)
    ensures |TypeAt(results + [last], kind)| == |TypeAt(results, kind)| + if OfType(last, kind) then 1 else 0
  {
    assert TypeAt(results + [last], kind)
        == TypeAt(results, kind) + if OfType(last, kind) then {|results|} else {};
  }

  lemma CorrectTypeAtStep(results: seq<Answer>, last: Answer, kind: string)
    ensures |CorrectTypeAt(results + [last], kind)|
         == |CorrectTypeAt(results, kind)| + if OfType(last, kind) && last.correct then 1 else 0
  {
    assert CorrectTypeAt(results + [last], kind)
        == CorrectTypeAt(results, kind) + if OfType(last, kind) && last.correct then {|results|} else {};
  }

  lemma {:induction false} CorrectIsCount(results: seq<Answer>)
    ensures CorrectOf(results) == |CorrectAt(results)|
  {
    if results != [] {
      var init, last := results[..|results| - 1], results[|results| - 1];
      CorrectIsCount(init);
      CorrectAtStep(init, last);
      assert results == init + [last];
    }
  }

  /** The tally of a type counts the answers of the type and the correct ones. */
  ghost predicate TalliedAs(byType: map<string, Tally>, results: seq<Answer>, kind: string) {
    && (kind in byType <==> TypeAt(results, kind) != {})
    && (kind in byType ==> byType[kind] == Tally(|TypeAt(results, kind)|, |CorrectTypeAt(results, kind)|))
  }

  lemma CountedTallies(byType: map<string, Tally>, results: seq<Answer>, last: Answer, kind: string)
    requires TalliedAs(byType, results, kind)
    ensures TalliedAs(Counted(byType, last), results + [last], kind)
  {
    TypeAtStep(results, last, kind);
    CorrectTypeAtStep(results, last, kind);
    if kind !in byType {
      assert CorrectTypeAt(results, kind) <= TypeAt(results, kind);
      assert CorrectTypeAt(results, kind) == {};
    }
    assert OfType(last, kind) ==> |results| in TypeAt(results + [last], kind);
    assert TypeAt(results, kind) <= TypeAt(results + [last], kind);
    if !OfType(last, kind) {
      assert TypeAt(results + [last], kind) == TypeAt(results, kind);
    }
  }

  lemma {:induction false} TalliesAreCounts(results: seq<Answer>, kind: string)
    ensures TalliedAs(ByType(results), results, kind)
  {
    if results == [] {
      assert TypeAt([], kind) == {};
    } else {
      var init, last := results[..|results| - 1], results[|results| - 1];
      TalliesAreCounts(init, kind);
      CountedTallies(ByType(init), init, last, kind);
      assert results == init + [last];
    }
  }

  // ----- Shares -------------------------------------------------------------------

  /** part / whole, as a fraction of the whole. */
  ghost predicate IsShare(share: real, part: int, whole: int) {
    share * whole as real == part as real && 0.0 <= share <= 1.0 && (share == 1.0 <==> part == whole)
  }

  lemma QuotientIsShare(part: int, whole: int)
    requires 0 <= part <= whole && whole > 0
    ensures IsShare(part as real / whole as real, part, whole)
  {
    var p, w := part as real, whole as real;
    QuotientTimes(p, w);
    QuotientOrder(0.0, p, w);
    QuotientOrder(p, w, w);
    assert 0.0 / w == 0.0 && w / w == 1.0;
  }

  lemma {:induction false} CountIsBounded(s: set<nat>, n: nat)
    requires forall i :: i in s ==> i < n
    ensures |s| <= n
    ensures |s| == n <==> forall i: nat :: i < n ==> i in s
  {
    if n > 0 {
      CountIsBounded(s - {n - 1}, n - 1);
      assert n - 1 in s ==> s == s - {n - 1} + {n - 1};
      assert n - 1 !in s ==> s - {n - 1} == s;
    } else {
      assert s == {};
    }
  }

  /** The number of correct answers, and what share of all answers that is. */
  ghost predicate Scored(p: Payload) {
    && p.correct == |CorrectAt(p.results)|
    && IsShare(p.accuracy, p.correct, |p.results|)
    && (p.accuracy == 1.0 <==> forall i :: 0 <= i < |p.results| ==> p.results[i].correct)
  }

  /** Each type of question: its answers, its correct answers, and their share. */
  ghost predicate ScoredByType(p: Payload) {
    && (forall kind :: TalliedAs(p.byType, p.results, kind))
    && p.accuracyByType.Keys == p.byType.Keys
    && forall kind :: kind in p.byType ==>
         IsShare(p.accuracyByType[kind], p.byType[kind].correct, p.byType[kind].total)
  }

  lemma AllAreCorrect(results: seq<Answer>)
    ensures |CorrectAt(results)| <= |results|
    ensures |CorrectAt(results)| == |results| <==> forall i :: 0 <= i < |results| ==> results[i].correct
  {
    CountIsBounded(CorrectAt(results), |results|);
    assert forall i: nat :: i < |results| ==> (i in CorrectAt(results) <==> results[i].correct);
  }

  lemma ScoresAreShares(results: seq<Answer>, p: Payload)
    requires results != [] && p.results == results
    requires p.correct == CorrectOf(results) && p.accuracy == CorrectOf(results) as real / |results| as real
    ensures Scored(p)
  {
    CorrectIsCount(results);
    AllAreCorrect(results);
    QuotientIsShare(CorrectOf(results), |results|);
  }

  lemma TypeScoresAreShares(results: seq<Answer>, p: Payload)
    requires p.results == results && p.byType == ByType(results) && p.accuracyByType == Shares(ByType(results))
    ensures ScoredByType(p)
  {
    forall kind
      ensures TalliedAs(p.byType, results, kind)
      ensures kind in p.byType ==> p.byType[kind].total != 0
      ensures kind in p.byType && kind in p.accuracyByType ==>
                IsShare(p.accuracyByType[kind], p.byType[kind].correct, p.byType[kind].total)
    {
      TalliesAreCounts(results, kind);
      BreakdownAddsUp(results);
      if kind in p.byType {
        QuotientIsShare(p.byType[kind].correct, p.byType[kind].total);
      }
    }
  }

  // ----- Sums over the chunks --------------------------------------------------------

  ghost predicate AllQa(chunks: seq<Wrapper>) {
    forall i :: 0 <= i < |chunks| ==> chunks[i].Qa?
  }

  function ResultsAt(chunks: seq<Wrapper>): nat -> seq<Answer> {
    (k: nat) => if k < |chunks| && chunks[k].Qa? then chunks[k].results else []
  }

  function ProvenanceAt(chunks: seq<Wrapper>): nat -> seq<string> {
    (k: nat) => if k < |chunks| && chunks[k].Qa? then chunks[k].provenance else []
  }

  function TokensAt(chunks: seq<Wrapper>): nat -> int {
    (k: nat) => if k < |chunks| && chunks[k].Qa? then chunks[k].tokens else 0
  }

  function ElapsedAt(chunks: seq<Wrapper>): nat -> real {
    (k: nat) => if k < |chunks| && chunks[k].Qa? then chunks[k].elapsed else 0.0
  }

  lemma {:induction false} ChunksAdd(chunks: seq<Wrapper>, n: nat)
    requires AllQa(chunks) && n <= |chunks|
    ensures AllResults(chunks[..n]) == Flat(ResultsAt(chunks), n)
    ensures ProvenanceOf(chunks[..n]) == Flat(ProvenanceAt(chunks), n)
    ensures TokensOf(chunks[..n]) == SumOver(TokensAt(chunks), n)
    ensures ElapsedOf(chunks[..n]) == SumReals(ElapsedAt(chunks), n)
  {
    if n > 0 {
      ChunksAdd(chunks, n - 1);
      assert chunks[..n][..n - 1] == chunks[..n - 1];
    }
  }

  /** The answers and their provenance one chunk after the other, the tokens added
      up, and the seconds added up to the nearest thousandth. */
  ghost predicate Gathered(p: Payload) {
    var n := |p.evidence|;
    && AllQa(p.evidence)
    && p.results == Flat(ResultsAt(p.evidence), n)
    && p.provenance == Flat(ProvenanceAt(p.evidence), n)
    && p.tokens == SumOver(TokensAt(p.evidence), n)
    && IsNearest(p.elapsed, SumReals(ElapsedAt(p.evidence), n), 1000.0)
  }

  lemma AggregateIsGathered(chunks: seq<Wrapper>, ids: seq<string>, fp: Fingerprint)
    requires AllQa(chunks) && Aggregated(chunks, ids, fp).Success?
    ensures Gathered(Aggregated(chunks, ids, fp).value)
    ensures Scored(Aggregated(chunks, ids, fp).value) && ScoredByType(Aggregated(chunks, ids, fp).value)
  {
    var p := Aggregated(chunks, ids, fp).value;
    assert chunks[..|chunks|] == chunks;
    ChunksAdd(chunks, |chunks|);
    RoundToIsNearest(ElapsedOf(chunks), 1000.0);
    ScoresAreShares(p.results, p);
    TypeScoresAreShares(p.results, p);
  }

  /** A complete answer file for these questions by the judge of the run. */
  predicate Complete(w: Wrapper, ids: seq<string>, fp: Fingerprint) {
    && w.Qa? && w.status == "complete" && w.judgePrimary == "opencode"
    && w.judgeModel == fp.judgeModel && w.judgeEffort == fp.judgeEffort
    && |w.results| == |ids| && forall i :: 0 <= i < |ids| ==> w.results[i].questionId == ids[i]
  }

  lemma ValidIsComplete(w: Wrapper, ids: seq<string>, fp: Fingerprint)
    ensures Valid(w, ids, fp) <==> Complete(w, ids, fp)
  {
    if w.Qa? && |w.results| == |ids| && forall i :: 0 <= i < |ids| ==> w.results[i].questionId == ids[i] {
      assert Ids(w.results) == ids;
    }
  }

  /** What the payload says about the run itself. */
  ghost predicate Labelled(p: Payload, job: Job)
    requires Accepted(job)
  {
    && p.questions == p.requested == |p.results| == |job.ids|
    && (forall i :: 0 <= i < |job.ids| ==> p.results[i].questionId == job.ids[i])
    && p.judgePrimary == "opencode" && p.judgeModel == job.fingerprint.judgeModel
    && p.judgeEffort == job.fingerprint.judgeEffort
    && p.datasetHash == job.fingerprint.dataset && p.retrievalHash == job.fingerprint.retrieval
    && |p.evidence| == ChunkCount(job) > 0 && p.evidence[0].Qa? && p.settings == p.evidence[0].settings
    && forall k :: 0 <= k < |p.evidence| ==> Complete(p.evidence[k], Window(job, k), job.fingerprint)
  }

  /** Every success, from any directory and with any attempts: the payload counts
      its answers, adds up its chunks, and is about the questions of the job. */
  lemma PayloadIsTrueToItsAnswers(disk: Disk, job: Job, attempts: Attempts)
    requires Accepted(job) && Invocation(disk, job, attempts).1.Success?
    ensures var p := Invocation(disk, job, attempts).1.value;
            Gathered(p) && Scored(p) && ScoredByType(p) && Labelled(p, job)
  {
    var n := ChunkCount(job);
    var chunks := ChunksUpTo(disk, job, attempts, n).1.value;
    ChunksAreQa(disk, job, attempts, n);
    assert AllQa(chunks);
    var p := Invocation(disk, job, attempts).1.value;
    assert Aggregated(chunks, job.ids, job.fingerprint) == Success(p);
    AggregateIsGathered(chunks, job.ids, job.fingerprint);
    AggregateIsLabelled(disk, job, attempts, chunks, p);
  }

  lemma AggregateIsLabelled(disk: Disk, job: Job, attempts: Attempts, chunks: seq<Wrapper>, p: Payload)
    requires Accepted(job) && |chunks| == ChunkCount(job) && AllValid(job, chunks) && AllQa(chunks)
    requires Aggregated(chunks, job.ids, job.fingerprint) == Success(p)
    ensures Labelled(p, job)
  {
    WindowsReachTheEnd(job);
    forall k | 0 <= k < |chunks|
      ensures Complete(chunks[k], Window(job, k), job.fingerprint)
    {
      ValidIsComplete(chunks[k], Window(job, k), job.fingerprint);
    }
    forall i | 0 <= i < |job.ids|
      ensures |p.results| == |job.ids| && p.results[i].questionId == job.ids[i]
    {
      assert Ids(p.results)[i] == job.ids[i];
    }
  }

  // ----- Windows ---------------------------------------------------------------------

  function WindowsOf(job: Job): nat -> seq<string>
    requires Accepted(job)
  {
    (k: nat) => Window(job, k)
  }

  lemma {:induction false} WindowsJoin(job: Job, n: nat)
    requires Accepted(job)
    ensures Flat(WindowsOf(job), n) == job.ids[..Upto(job, n)]
  {
    if n > 0 {
      WindowsJoin(job, n - 1);
      WindowStep(job, n - 1);
    }
  }

  lemma WindowSize(job: Job, k: nat)
    requires Accepted(job)
    ensures |Window(job, k)| == Upto(job, k + 1) - Upto(job, k)
  {
    assert Offset(job, k + 1) == Offset(job, k) + job.chunkSize;
  }

  lemma OffsetsInside(job: Job, k: nat)
    requires Accepted(job) && k < ChunkCount(job)
    ensures Offset(job, k) < |job.ids|
    ensures k + 1 < ChunkCount(job) ==> Offset(job, k + 1) < |job.ids|
  {
    var n, s := |job.ids| + job.chunkSize - 1, job.chunkSize;
    assert n == s * (n / s) + n % s;
    Times(k, n / s - 1, s);
    Times(k + 1, n / s - 1, s);
  }

  lemma Times(a: nat, b: int, s: nat)
    ensures a <= b ==> a * s <= b * s
    ensures b * s == s * (b + 1) - s
  {
  }

  /** The windows cut the question ids, in order, into pieces of the chunk size;
      only the last may be shorter, and none is empty. */
  lemma WindowsCutTheIds(job: Job, k: nat)
    requires Accepted(job)
    ensures Flat(WindowsOf(job), ChunkCount(job)) == job.ids
    ensures k < ChunkCount(job) ==> 0 < |Window(job, k)| <= job.chunkSize
    ensures k + 1 < ChunkCount(job) ==> |Window(job, k)| == job.chunkSize
  {
    WindowsReachTheEnd(job);
    WindowsJoin(job, ChunkCount(job));
    assert job.ids[..Upto(job, ChunkCount(job))] == job.ids;
    WindowSize(job, k);
    assert Offset(job, k + 1) == Offset(job, k) + job.chunkSize;
    if k < ChunkCount(job) {
      OffsetsInside(job, k);
    }
  }

  // ----- Attempts ----------------------------------------------------------------------

  /** What attempt j finds in the chunk file once its process is done, when the
      first attempt is number i: the file that was there is moved away after it. */
  function FoundBy(disk: Disk, offset: nat, attempts: Attempts, i: nat, j: nat): Option<Wrapper> {
    var attempt := attempts(offset, j);
    if attempt.written.Some? then attempt.written
    else if j == i && offset in disk.chunks then Some(disk.chunks[offset])
    else None
  }

  predicate Lands(disk: Disk, job: Job, offset: nat, ids: seq<string>, attempts: Attempts, i: nat, j: nat) {
    var attempt, found := attempts(offset, j), FoundBy(disk, offset, attempts, i, j);
    attempt.exitCode == 0 && attempt.inputsWritable && found.Some? && Complete(found.value, ids, job.fingerprint)
  }

  ghost predicate NoneLands(disk: Disk, job: Job, offset: nat, ids: seq<string>, attempts: Attempts, i: nat, to: nat) {
    forall j: nat :: i <= j < to ==> !Lands(disk, job, offset, ids, attempts, i, j)
  }

  lemma HoldsIsLands(disk: Disk, job: Job, offset: nat, ids: seq<string>, attempts: Attempts, i: nat)
    ensures AttemptHolds(disk, offset, ids, job.fingerprint, attempts(offset, i))
       <==> Lands(disk, job, offset, ids, attempts, i, i)
    ensures Lands(disk, job, offset, ids, attempts, i, i) ==>
              Some(AfterProcess(disk, offset, attempts(offset, i)).chunks[offset])
              == FoundBy(disk, offset, attempts, i, i)
  {
    var found := FoundBy(disk, offset, attempts, i, i);
    if found.Some? {
      ValidIsComplete(found.value, ids, job.fingerprint);
    }
  }

  /** Attempt j is the first to land, and leaves this file. */
  ghost predicate LandsFirst(disk: Disk, job: Job, offset: nat, ids: seq<string>, attempts: Attempts, i: nat, j: nat,
                             w: Wrapper) {
    && i <= j < job.maxAttempts && NoneLands(disk, job, offset, ids, attempts, i, j)
    && Lands(disk, job, offset, ids, attempts, i, j) && Some(w) == FoundBy(disk, offset, attempts, i, j)
  }

  lemma LaterAttempts(disk: Disk, next: Disk, job: Job, offset: nat, ids: seq<string>, attempts: Attempts, i: nat,
                      j: nat)
    requires !Lands(disk, job, offset, ids, attempts, i, i) && offset !in next.chunks && i < j
    ensures Lands(disk, job, offset, ids, attempts, i, j) <==> Lands(next, job, offset, ids, attempts, i + 1, j)
    ensures FoundBy(disk, offset, attempts, i, j) == FoundBy(next, offset, attempts, i + 1, j)
    ensures NoneLands(disk, job, offset, ids, attempts, i, j) <==> NoneLands(next, job, offset, ids, attempts, i + 1, j)
  {
    forall k: nat | i < k
      ensures Lands(disk, job, offset, ids, attempts, i, k) <==> Lands(next, job, offset, ids, attempts, i + 1, k)
    {
      assert FoundBy(disk, offset, attempts, i, k) == FoundBy(next, offset, attempts, i + 1, k);
    }
    if NoneLands(next, job, offset, ids, attempts, i + 1, j) {
      forall k: nat | i <= k < j
        ensures !Lands(disk, job, offset, ids, attempts, i, k)
      {
        assert k > i ==> !Lands(next, job, offset, ids, attempts, i + 1, k);
      }
    }
    if NoneLands(disk, job, offset, ids, attempts, i, j) {
      var from := i + 1;
      forall k: nat | from <= k < j
        ensures !Lands(next, job, offset, ids, attempts, from, k)
      {
        assert !Lands(disk, job, offset, ids, attempts, i, k);
      }
    }
  }

  /** A chunk fails exactly when every attempt does: exits with an error, cannot
      write the inputs file, or leaves no complete answer file.  Otherwise it is
      what the first attempt that lands leaves. */
  lemma {:induction false} FirstLandingDecides(disk: Disk, job: Job, offset: nat, ids: seq<string>, attempts: Attempts,
                                               i: nat)
    ensures var r := RunFrom(disk, job, offset, ids, attempts, i).1;
            && (r == Failure(ChunkFailed(offset)) <==> NoneLands(disk, job, offset, ids, attempts, i, job.maxAttempts))
            && (r.Failure? ==> r == Failure(ChunkFailed(offset)))
            && (r.Success? ==> exists j: nat :: LandsFirst(disk, job, offset, ids, attempts, i, j, r.value))
    decreases job.maxAttempts - i
  {
    if i < job.maxAttempts {
      HoldsIsLands(disk, job, offset, ids, attempts, i);
      var r := RunFrom(disk, job, offset, ids, attempts, i).1;
      if Lands(disk, job, offset, ids, attempts, i, i) {
        assert LandsFirst(disk, job, offset, ids, attempts, i, i, r.value);
      } else {
        var after := AfterProcess(disk, offset, attempts(offset, i));
        var next := after.(chunks := after.chunks - {offset});
        FirstLandingDecides(next, job, offset, ids, attempts, i + 1);
        LaterAttempts(disk, next, job, offset, ids, attempts, i, job.maxAttempts);
        if r.Success? {
          var j: nat :| LandsFirst(next, job, offset, ids, attempts, i + 1, j, r.value);
          LaterAttempts(disk, next, job, offset, ids, attempts, i, j);
          assert LandsFirst(disk, job, offset, ids, attempts, i, j, r.value);
        }
      }
    }
  }

  // ----- The outcome of an invocation ------------------------------------------------------

  /** A saved chunk that carries exactly the run's inputs, and is complete. */
  predicate Reusable(disk: Disk, offset: nat, ids: seq<string>, fp: Fingerprint) {
    && offset in disk.inputs && disk.inputs[offset] == fp
    && offset in disk.chunks && Complete(disk.chunks[offset], ids, fp)
  }

  /** Window k is had: from a saved chunk, or from some attempt. */
  ghost predicate Had(disk: Disk, job: Job, attempts: Attempts, k: nat)
    requires Accepted(job)
  {
    || Reusable(disk, Offset(job, k), Window(job, k), job.fingerprint)
    || !NoneLands(disk, job, Offset(job, k), Window(job, k), attempts, 0, job.maxAttempts)
  }

  ghost predicate AllHad(disk: Disk, job: Job, attempts: Attempts, n: nat)
    requires Accepted(job)
  {
    forall k: nat :: k < n ==> Had(disk, job, attempts, k)
  }

  /** The chunk of window k: the saved one if it can be reused, else what the first
      attempt that lands leaves. */
  ghost predicate ChunkOf(disk: Disk, job: Job, attempts: Attempts, k: nat, w: Wrapper)
    requires Accepted(job)
  {
    var offset, ids := Offset(job, k), Window(job, k);
    if Reusable(disk, offset, ids, job.fingerprint) then w == disk.chunks[offset]
    else exists j: nat :: LandsFirst(disk, job, offset, ids, attempts, 0, j, w)
  }

  lemma LoadIsReuse(disk: Disk, offset: nat, ids: seq<string>, fp: Fingerprint)
    ensures Load(disk, offset, ids, fp, true).Success? <==> Reusable(disk, offset, ids, fp)
    ensures Reusable(disk, offset, ids, fp) ==> Load(disk, offset, ids, fp, true).value == disk.chunks[offset]
  {
    if offset in disk.chunks {
      ValidIsComplete(disk.chunks[offset], ids, fp);
    }
  }

  lemma OneChunkTold(disk: Disk, job: Job, attempts: Attempts, k: nat)
    requires Accepted(job)
    ensures var r := OneChunk(disk, job, k, attempts).1;
            && (r.Success? <==> Had(disk, job, attempts, k))
            && (r.Failure? ==> r == Failure(ChunkFailed(Offset(job, k))))
            && (r.Success? ==> ChunkOf(disk, job, attempts, k, r.value))
  {
    LoadIsReuse(disk, Offset(job, k), Window(job, k), job.fingerprint);
    FirstLandingDecides(disk, job, Offset(job, k), Window(job, k), attempts, 0);
  }

  /** What a window needs is in its own files. */
  lemma SameFilesSameChunk(before: Disk, disk: Disk, job: Job, attempts: Attempts, k: nat)
    requires Accepted(job) && SameFrom(before, disk, Offset(job, k))
    ensures Had(before, job, attempts, k) <==> Had(disk, job, attempts, k)
    ensures forall w :: ChunkOf(before, job, attempts, k, w) <==> ChunkOf(disk, job, attempts, k, w)
  {
    var offset, ids := Offset(job, k), Window(job, k);
    forall j: nat
      ensures FoundBy(before, offset, attempts, 0, j) == FoundBy(disk, offset, attempts, 0, j)
      ensures Lands(before, job, offset, ids, attempts, 0, j) <==> Lands(disk, job, offset, ids, attempts, 0, j)
    {
    }
    forall to: nat
      ensures NoneLands(before, job, offset, ids, attempts, 0, to)
         <==> NoneLands(disk, job, offset, ids, attempts, 0, to)
    {
    }
    forall j: nat, w
      ensures LandsFirst(before, job, offset, ids, attempts, 0, j, w)
         <==> LandsFirst(disk, job, offset, ids, attempts, 0, j, w)
    {
    }
  }

  /** One more window, from the files as they were at the start. */
  lemma NextChunkTold(disk: Disk, job: Job, attempts: Attempts, k: nat)
    requires Accepted(job)
    ensures var r := OneChunk(ChunksUpTo(disk, job, attempts, k).0, job, k, attempts).1;
            && (r.Success? <==> Had(disk, job, attempts, k))
            && (r.Failure? ==> r == Failure(ChunkFailed(Offset(job, k))))
            && (r.Success? ==> ChunkOf(disk, job, attempts, k, r.value))
  {
    var before := ChunksUpTo(disk, job, attempts, k).0;
    ChunksTouchEarlier(disk, job, attempts, k);
    OneChunkTold(before, job, attempts, k);
    SameFilesSameChunk(before, disk, job, attempts, k);
  }

  ghost predicate ChunksAreOf(disk: Disk, job: Job, attempts: Attempts, chunks: seq<Wrapper>)
    requires Accepted(job)
  {
    forall k: nat :: k < |chunks| ==> ChunkOf(disk, job, attempts, k, chunks[k])
  }

  /** Whether window k is had is `had(k)`, and its chunk is one of `of(k, _)`. */
  ghost predicate Tells(disk: Disk, job: Job, attempts: Attempts, k: nat, had: nat -> bool, of: (nat, Wrapper) -> bool)
    requires Accepted(job)
  {
    var r := OneChunk(ChunksUpTo(disk, job, attempts, k).0, job, k, attempts).1;
    (r.Success? <==> had(k)) && (r.Success? ==> of(k, r.value))
  }

  ghost predicate FollowTo(r: Result<seq<Wrapper>, RunError>, n: nat, had: nat -> bool, of: (nat, Wrapper) -> bool) {
    && (r.Success? <==> forall k: nat :: k < n ==> had(k))
    && (r.Success? ==> |r.value| == n && forall k: nat :: k < n ==> of(k, r.value[k]))
  }

  lemma FollowStep(before: Result<seq<Wrapper>, RunError>, chunk: Result<Wrapper, RunError>,
                   end: Result<seq<Wrapper>, RunError>, n: nat, had: nat -> bool, of: (nat, Wrapper) -> bool)
    requires FollowTo(before, n, had, of)
    requires (chunk.Success? <==> had(n)) && (chunk.Success? ==> of(n, chunk.value))
    requires end.Success? <==> before.Success? && chunk.Success?
    requires end.Success? ==> end.value == before.value + [chunk.value]
    ensures FollowTo(end, n + 1, had, of)
  {
  }

  /** The windows are had one after the other, until one is not. */
  lemma {:induction false} ChunksFollow(disk: Disk, job: Job, attempts: Attempts, n: nat, had: nat -> bool,
                                        of: (nat, Wrapper) -> bool)
    requires Accepted(job) && forall k: nat :: Tells(disk, job, attempts, k, had, of)
    ensures FollowTo(ChunksUpTo(disk, job, attempts, n).1, n, had, of)
  {
    if n > 0 {
      var before := ChunksUpTo(disk, job, attempts, n - 1);
      ChunksFollow(disk, job, attempts, n - 1, had, of);
      assert Tells(disk, job, attempts, n - 1, had, of);
      ChunksStep(disk, job, attempts, n);
      FollowStep(before.1, OneChunk(before.0, job, n - 1, attempts).1, ChunksUpTo(disk, job, attempts, n).1, n - 1,
                 had, of);
    }
  }

  ghost function HadBy(disk: Disk, job: Job, attempts: Attempts): nat -> bool
    requires Accepted(job)
  {
    (k: nat) => Had(disk, job, attempts, k)
  }

  ghost function ChunksBy(disk: Disk, job: Job, attempts: Attempts): (nat, Wrapper) -> bool
    requires Accepted(job)
  {
    (k: nat, w: Wrapper) => ChunkOf(disk, job, attempts, k, w)
  }

  lemma ChunksTold(disk: Disk, job: Job, attempts: Attempts, n: nat)
    requires Accepted(job)
    ensures var r := ChunksUpTo(disk, job, attempts, n).1;
            && (r.Success? <==> AllHad(disk, job, attempts, n))
            && (r.Success? ==> |r.value| == n && ChunksAreOf(disk, job, attempts, r.value))
  {
    var had, of := HadBy(disk, job, attempts), ChunksBy(disk, job, attempts);
    forall k: nat
      ensures Tells(disk, job, attempts, k, had, of)
    {
      NextChunkTold(disk, job, attempts, k);
    }
    ChunksFollow(disk, job, attempts, n, had, of);
    assert forall k: nat :: had(k) <==> Had(disk, job, attempts, k);
    assert forall k: nat, w :: of(k, w) <==> ChunkOf(disk, job, attempts, k, w);
  }

  lemma LaterFailure(disk: Disk, job: Job, attempts: Attempts, n: nat, error: RunError)
    requires Accepted(job) && FailsAt(disk, job, attempts, n, error)
    ensures FailsAt(disk, job, attempts, n + 1, error)
  {
  }

  lemma NewFailure(disk: Disk, job: Job, attempts: Attempts, n: nat)
    requires Accepted(job) && AllHad(disk, job, attempts, n) && !Had(disk, job, attempts, n)
    ensures FailsAt(disk, job, attempts, n + 1, ChunkFailed(Offset(job, n)))
  {
    assert IsFirstLost(disk, job, attempts, n);
  }

  lemma {:induction false} LostChunkTold(disk: Disk, job: Job, attempts: Attempts, n: nat)
    requires Accepted(job) && ChunksUpTo(disk, job, attempts, n).1.Failure?
    ensures FailsAt(disk, job, attempts, n, ChunksUpTo(disk, job, attempts, n).1.error)
  {
    var k := n - 1;
    if ChunksUpTo(disk, job, attempts, k).1.Failure? {
      LostChunkTold(disk, job, attempts, k);
      LaterFailure(disk, job, attempts, k, ChunksUpTo(disk, job, attempts, k).1.error);
    } else {
      ChunksTold(disk, job, attempts, k);
      NextChunkTold(disk, job, attempts, k);
      NewFailure(disk, job, attempts, k);
    }
  }

  ghost predicate IsFirstLost(disk: Disk, job: Job, attempts: Attempts, k: nat)
    requires Accepted(job)
  {
    AllHad(disk, job, attempts, k) && !Had(disk, job, attempts, k)
  }

  ghost predicate FailsAt(disk: Disk, job: Job, attempts: Attempts, n: nat, error: RunError)
    requires Accepted(job)
  {
    exists k: nat :: k < n && IsFirstLost(disk, job, attempts, k) && error == ChunkFailed(Offset(job, k))
  }

  ghost predicate AllDistinct(ids: seq<string>) {
    forall i, j :: 0 <= i < j < |ids| ==> ids[i] != ids[j]
  }

  /** An invocation succeeds exactly when there are questions, no two with one id,
      and every window is had; it then reports the chunks that were had.  The first
      window that is not had fails it. */
  lemma OutcomeIsTold(disk: Disk, job: Job, attempts: Attempts)
    requires Accepted(job)
    ensures var r, n := Invocation(disk, job, attempts).1, ChunkCount(job);
            && (r == Failure(DuplicateIds) <==> !AllDistinct(job.ids))
            && (r == Failure(NoChunks) <==> job.ids == [])
            && (r.Success? <==> AllDistinct(job.ids) && job.ids != [] && AllHad(disk, job, attempts, n))
            && (r.Success? ==> |r.value.evidence| == n && ChunksAreOf(disk, job, attempts, r.value.evidence))
            && (AllDistinct(job.ids) && job.ids != [] && !AllHad(disk, job, attempts, n) ==>
                  r.Failure? && FailsAt(disk, job, attempts, n, r.error))
  {
    AggregationNeverMismatches(disk, job, attempts);
    SuccessKeepsItsChunks(disk, job, attempts);
    ChunksTold(disk, job, attempts, ChunkCount(job));
    if ChunksUpTo(disk, job, attempts, ChunkCount(job)).1.Failure? {
      LostChunkTold(disk, job, attempts, ChunkCount(job));
    }
  }

  // ----- A second invocation ------------------------------------------------------------------

  ghost predicate SameElsewhere(a: Disk, b: Disk, offset: nat) {
    forall o: nat :: o != offset ==>
      && (o in a.chunks <==> o in b.chunks) && (o in a.inputs <==> o in b.inputs)
      && (o in a.chunks ==> a.chunks[o] == b.chunks[o]) && (o in a.inputs ==> a.inputs[o] == b.inputs[o])
  }

  ghost predicate Recorded(disk: Disk, job: Job, k: nat, w: Wrapper)
    requires Accepted(job)
  {
    Load(disk, Offset(job, k), Window(job, k), job.fingerprint, true) == Success(w)
  }

  lemma {:induction false} RunRecords(disk: Disk, job: Job, offset: nat, ids: seq<string>, attempts: Attempts, i: nat)
    ensures var (after, r) := RunFrom(disk, job, offset, ids, attempts, i);
            && SameElsewhere(after, disk, offset)
            && (r.Failure? && i < job.maxAttempts ==> offset !in after.chunks && after.inputs == disk.inputs)
            && (r.Success? ==> Load(after, offset, ids, job.fingerprint, true) == Success(r.value))
    decreases job.maxAttempts - i
  {
    if i < job.maxAttempts {
      var attempt := attempts(offset, i);
      var after := AfterProcess(disk, offset, attempt);
      if !AttemptHolds(disk, offset, ids, job.fingerprint, attempt) {
        RunRecords(after.(chunks := after.chunks - {offset}), job, offset, ids, attempts, i + 1);
      }
    }
  }

  /** A window touches its own files only; when it is had, they are left so that it
      can be reused, and when it is not, no answer file is left there. */
  lemma ChunkIsRecorded(disk: Disk, job: Job, k: nat, attempts: Attempts)
    requires Accepted(job)
    ensures var (after, r) := OneChunk(disk, job, k, attempts);
            && SameElsewhere(after, disk, Offset(job, k)) && (r.Success? ==> Recorded(after, job, k, r.value))
            && (r.Failure? ==> Offset(job, k) !in after.chunks && after.inputs == disk.inputs)
  {
    RunRecords(disk, job, Offset(job, k), Window(job, k), attempts, 0);
  }

  lemma OffsetsDiffer(job: Job, j: nat, k: nat)
    requires Accepted(job) && j < k
    ensures Offset(job, j) < Offset(job, k)
  {
    Times(j + 1, k, job.chunkSize);
    OffsetStep(job, j);
  }

  lemma StaysRecorded(before: Disk, after: Disk, job: Job, j: nat, k: nat, w: Wrapper)
    requires Accepted(job) && j < k && Recorded(before, job, j, w) && SameElsewhere(after, before, Offset(job, k))
    ensures Recorded(after, job, j, w)
  {
    OffsetsDiffer(job, j, k);
  }

  ghost predicate AllRecorded(disk: Disk, job: Job, chunks: seq<Wrapper>)
    requires Accepted(job)
  {
    forall k: nat :: k < |chunks| ==> Recorded(disk, job, k, chunks[k])
  }

  lemma OneMoreRecorded(before: Disk, after: Disk, job: Job, chunks: seq<Wrapper>, chunk: Wrapper)
    requires Accepted(job) && AllRecorded(before, job, chunks)
    requires SameElsewhere(after, before, Offset(job, |chunks|)) && Recorded(after, job, |chunks|, chunk)
    ensures AllRecorded(after, job, chunks + [chunk])
  {
    forall k: nat | k < |chunks|
      ensures Recorded(after, job, k, chunks[k])
    {
      StaysRecorded(before, after, job, k, |chunks|, chunks[k]);
    }
  }

  ghost predicate RecordsAll(job: Job, n: nat, end: (Disk, Result<seq<Wrapper>, RunError>))
    requires Accepted(job)
  {
    end.1.Success? ==> |end.1.value| == n && AllRecorded(end.0, job, end.1.value)
  }

  lemma RecordsStep(job: Job, n: nat, before: (Disk, Result<seq<Wrapper>, RunError>),
                    chunk: (Disk, Result<Wrapper, RunError>), end: (Disk, Result<seq<Wrapper>, RunError>))
    requires Accepted(job) && RecordsAll(job, n, before)
    requires SameElsewhere(chunk.0, before.0, Offset(job, n))
    requires chunk.1.Success? ==> Recorded(chunk.0, job, n, chunk.1.value)
    requires end.1.Success? ==> before.1.Success? && chunk.1.Success? && end.0 == chunk.0
    requires end.1.Success? ==> end.1.value == before.1.value + [chunk.1.value]
    ensures RecordsAll(job, n + 1, end)
  {
    if end.1.Success? {
      OneMoreRecorded(before.0, chunk.0, job, before.1.value, chunk.1.value);
    }
  }

  lemma {:induction false} ChunksAreRecorded(disk: Disk, job: Job, attempts: Attempts, n: nat)
    requires Accepted(job)
    ensures RecordsAll(job, n, ChunksUpTo(disk, job, attempts, n))
  {
    if n > 0 {
      var before := ChunksUpTo(disk, job, attempts, n - 1);
      ChunksAreRecorded(disk, job, attempts, n - 1);
      ChunkIsRecorded(before.0, job, n - 1, attempts);
      ChunksStep(disk, job, attempts, n);
      RecordsStep(job, n - 1, before, OneChunk(before.0, job, n - 1, attempts), ChunksUpTo(disk, job, attempts, n));
    }
  }

  lemma OneMoreReused(chunks: seq<Wrapper>, n: nat, disk: Disk, end: (Disk, Result<seq<Wrapper>, RunError>))
    requires n < |chunks| && end.1.Success? && end.1.value == chunks[..n] + [chunks[n]] && end.0 == disk
    ensures end == (disk, Success(chunks[..n + 1]))
  {
    assert chunks[..n + 1] == chunks[..n] + [chunks[n]];
  }

  lemma RecordedChunkIsReused(disk: Disk, job: Job, attempts: Attempts, k: nat, w: Wrapper)
    requires Accepted(job) && Recorded(disk, job, k, w)
    ensures OneChunk(disk, job, k, attempts) == (disk, Success(w))
  {
  }

  lemma {:induction false} RecordedIsReused(disk: Disk, job: Job, attempts: Attempts, chunks: seq<Wrapper>, n: nat)
    requires Accepted(job) && n <= |chunks| && AllRecorded(disk, job, chunks)
    ensures ChunksUpTo(disk, job, attempts, n) == (disk, Success(chunks[..n]))
  {
    if n > 0 {
      RecordedIsReused(disk, job, attempts, chunks, n - 1);
      assert Recorded(disk, job, n - 1, chunks[n - 1]);
      RecordedChunkIsReused(disk, job, attempts, n - 1, chunks[n - 1]);
      ChunksStep(disk, job, attempts, n);
      OneMoreReused(chunks, n - 1, disk, ChunksUpTo(disk, job, attempts, n));
    }
  }

  /** After a success, the same job reports the same payload and changes no file,
      whatever its benchmark processes would do. */
  lemma RerunIsFree(disk: Disk, job: Job, attempts: Attempts, again: Attempts)
    requires Accepted(job) && Invocation(disk, job, attempts).1.Success?
    ensures var after := Invocation(disk, job, attempts).0;
            Invocation(after, job, again) == (after, Invocation(disk, job, attempts).1)
  {
    var n := ChunkCount(job);
    ChunksAreRecorded(disk, job, attempts, n);
    var (after, r) := ChunksUpTo(disk, job, attempts, n);
    RecordedIsReused(after, job, again, r.value, n);
    assert r.value[..n] == r.value;
  }
}
