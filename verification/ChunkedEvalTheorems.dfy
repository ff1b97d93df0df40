/** Resuming never changes a result: whatever earlier invocations left in the
    chunks directory, a payload is the one that a fresh directory gives. */
module ChunkedEvalTheorems {
  import opened Basics
  import opened ChunkedEval

  /** What the benchmark answers, given its inputs and a window of question ids. */
  type Benchmark = (Fingerprint, seq<string>) -> Wrapper

  /** A process that exits with 0 and writes a valid file has written the
      benchmark's answers.  One that fails may leave anything, and one that exits
      with 0 need not have written at all. */
  ghost predicate TruthfulAt(attempts: Attempts, offset: nat, ids: seq<string>, fp: Fingerprint, bench: Benchmark) {
    forall i: nat ::
      var a := attempts(offset, i);
      a.exitCode == 0 && a.written.Some? && Valid(a.written.value, ids, fp) ==> a.written.value == bench(fp, ids)
  }

  ghost predicate Truthful(job: Job, attempts: Attempts, bench: Benchmark)
    requires Accepted(job)
  {
    forall k: nat :: k < ChunkCount(job) ==>
      TruthfulAt(attempts, Offset(job, k), Window(job, k), job.fingerprint, bench)
  }

  /** Moreover, a process that exits with 0 has written its file. */
  ghost predicate FaithfulAt(attempts: Attempts, offset: nat, ids: seq<string>, fp: Fingerprint, bench: Benchmark) {
    && TruthfulAt(attempts, offset, ids, fp, bench)
    && forall i: nat :: attempts(offset, i).exitCode == 0 ==> attempts(offset, i).written.Some?
  }

  ghost predicate Faithful(job: Job, attempts: Attempts, bench: Benchmark)
    requires Accepted(job)
  {
    forall k: nat :: k < ChunkCount(job) ==>
      FaithfulAt(attempts, Offset(job, k), Window(job, k), job.fingerprint, bench)
  }

  /** Every chunk file that would pass the check of its recorded inputs holds the
      benchmark's answers for those inputs. */
  ghost predicate Provenance(disk: Disk, bench: Benchmark) {
    forall offset, ids :: offset in disk.chunks && offset in disk.inputs
                          && Valid(disk.chunks[offset], ids, disk.inputs[offset]) ==>
      disk.chunks[offset] == bench(disk.inputs[offset], ids)
  }

  // ----- One chunk ----------------------------------------------------------------

  lemma {:induction false} RunKeepsProvenance(disk: Disk, job: Job, offset: nat, ids: seq<string>, attempts: Attempts,
                                              i: nat, bench: Benchmark)
    requires Provenance(disk, bench) && FaithfulAt(attempts, offset, ids, job.fingerprint, bench)
    ensures var (after, r) := RunFrom(disk, job, offset, ids, attempts, i);
            Provenance(after, bench) && (r.Success? ==> r.value == bench(job.fingerprint, ids))
    decreases job.maxAttempts - i
  {
    if i < job.maxAttempts {
      var attempt := attempts(offset, i);
      var written := AfterProcess(disk, offset, attempt);
      if AttemptHolds(disk, offset, ids, job.fingerprint, attempt) {
        var after := written.(inputs := written.inputs[offset := job.fingerprint]);
        assert written.chunks[offset] == bench(job.fingerprint, ids);
        forall o, x | o in after.chunks && o in after.inputs && Valid(after.chunks[o], x, after.inputs[o])
          ensures after.chunks[o] == bench(after.inputs[o], x)
        {
          if o == offset {
            assert x == Ids(after.chunks[o].results) == ids;
          }
        }
      } else {
        var archived := written.(chunks := written.chunks - {offset});
        assert Provenance(archived, bench) by {
          forall o, x | o in archived.chunks && o in archived.inputs && Valid(archived.chunks[o], x, archived.inputs[o])
            ensures archived.chunks[o] == bench(archived.inputs[o], x)
          {
            assert o in disk.chunks && archived.chunks[o] == disk.chunks[o];
          }
        }
        RunKeepsProvenance(archived, job, offset, ids, attempts, i + 1, bench);
      }
    }
  }

  lemma ChunkIsBenchmark(disk: Disk, job: Job, k: nat, attempts: Attempts, bench: Benchmark)
    requires Accepted(job) && Provenance(disk, bench)
    requires FaithfulAt(attempts, Offset(job, k), Window(job, k), job.fingerprint, bench)
    ensures var (after, r) := OneChunk(disk, job, k, attempts);
            Provenance(after, bench) && (r.Success? ==> r.value == bench(job.fingerprint, Window(job, k)))
  {
    RunKeepsProvenance(disk, job, Offset(job, k), Window(job, k), attempts, 0, bench);
  }

  // ----- One invocation ---------------------------------------------------------------

  /** The chunks of a run that reuses nothing. */
  function FreshChunks(job: Job, bench: Benchmark, n: nat): seq<Wrapper>
    requires Accepted(job)
  {
    if n == 0 then [] else FreshChunks(job, bench, n - 1) + [bench(job.fingerprint, Window(job, n - 1))]
  }

  lemma {:induction false} ChunksAreBenchmarks(disk: Disk, job: Job, attempts: Attempts, bench: Benchmark, n: nat)
    requires Accepted(job) && Provenance(disk, bench) && Faithful(job, attempts, bench) && n <= ChunkCount(job)
    ensures var (after, r) := ChunksUpTo(disk, job, attempts, n);
            Provenance(after, bench) && (r.Success? ==> r.value == FreshChunks(job, bench, n))
  {
    if n > 0 {
      ChunksAreBenchmarks(disk, job, attempts, bench, n - 1);
      var (before, wrappers) := ChunksUpTo(disk, job, attempts, n - 1);
      if wrappers.Success? {
        assert FaithfulAt(attempts, Offset(job, n - 1), Window(job, n - 1), job.fingerprint, bench);
        ChunkIsBenchmark(before, job, n - 1, attempts, bench);
        var chunk := OneChunk(before, job, n - 1, attempts).1;
        if chunk.Success? {
          assert ChunksUpTo(disk, job, attempts, n).1 == Success(wrappers.value + [chunk.value]);
        }
      }
    }
  }

  /** A successful invocation gives what the benchmark's own chunks aggregate to,
      and every invocation leaves a directory fit for the next. */
  lemma InvocationIsFresh(disk: Disk, job: Job, attempts: Attempts, bench: Benchmark)
    requires Accepted(job) && Provenance(disk, bench) && Faithful(job, attempts, bench)
    ensures var (after, r) := Invocation(disk, job, attempts);
            var expected := FreshChunks(job, bench, ChunkCount(job));
            && Provenance(after, bench)
            && (r.Success? ==>
                  && (forall i :: 0 <= i < |expected| ==> expected[i].Qa?)
                  && r == Aggregated(expected, job.ids, job.fingerprint))
  {
    var n := ChunkCount(job);
    ChunksAreBenchmarks(disk, job, attempts, bench, n);
    ChunksAreQa(disk, job, attempts, n);
    if Invocation(disk, job, attempts).1.Success? {
      var chunks := ChunksUpTo(disk, job, attempts, n).1.value;
      assert chunks == FreshChunks(job, bench, n);
      assert AllValid(job, chunks);
    }
  }

  // ----- Any history ---------------------------------------------------------------------

  datatype Past = Past(job: Job, attempts: Attempts)

  ghost predicate Plausible(history: seq<Past>, bench: Benchmark) {
    forall i :: 0 <= i < |history| ==>
      Accepted(history[i].job) && Faithful(history[i].job, history[i].attempts, bench)
  }

  /** The directory after a history of invocations with any inputs, finished or
      failed, starting from an empty one. */
  function DiskAfter(history: seq<Past>): Disk
    requires forall i :: 0 <= i < |history| ==> history[i].job.chunkSize > 0 && history[i].job.maxAttempts > 0
  {
    if history == [] then EMPTY
    else
      var last := history[|history| - 1];
      Invocation(DiskAfter(history[..|history| - 1]), last.job, last.attempts).0
  }

  lemma {:induction false} HistoryKeepsProvenance(history: seq<Past>, bench: Benchmark)
    requires Plausible(history, bench)
    ensures Provenance(DiskAfter(history), bench)
  {
    if history != [] {
      var init, last := history[..|history| - 1], history[|history| - 1];
      HistoryKeepsProvenance(init, bench);
      assert Accepted(last.job) && Faithful(last.job, last.attempts, bench);
      InvocationIsFresh(DiskAfter(init), last.job, last.attempts, bench);
    }
  }

  /** Resume equals fresh: two successful invocations of the same job give the
      same payload, whatever happened before either of them. */
  lemma ResumeEqualsFresh(history1: seq<Past>, history2: seq<Past>, job: Job, attempts1: Attempts, attempts2: Attempts,
                          bench: Benchmark)
    requires Plausible(history1, bench) && Plausible(history2, bench)
    requires Accepted(job) && Faithful(job, attempts1, bench) && Faithful(job, attempts2, bench)
    ensures var r1 := Invocation(DiskAfter(history1), job, attempts1).1;
            var r2 := Invocation(DiskAfter(history2), job, attempts2).1;
            r1.Success? && r2.Success? ==> r1 == r2
  {
    HistoryKeepsProvenance(history1, bench);
    HistoryKeepsProvenance(history2, bench);
    InvocationIsFresh(DiskAfter(history1), job, attempts1, bench);
    InvocationIsFresh(DiskAfter(history2), job, attempts2, bench);
  }

  // ----- The windows make up the dataset -----------------------------------------------------

  function Upto(job: Job, n: nat): nat {
    if Offset(job, n) <= |job.ids| then Offset(job, n) else |job.ids|
  }

  lemma WindowStep(job: Job, n: nat)
    requires Accepted(job)
    ensures Upto(job, n) <= Upto(job, n + 1)
    ensures job.ids[..Upto(job, n + 1)] == job.ids[..Upto(job, n)] + Window(job, n)
  {
    assert Offset(job, n + 1) == Offset(job, n) + job.chunkSize;
  }

  lemma IdsConcat(a: seq<Answer>, b: seq<Answer>)
    ensures Ids(a + b) == Ids(a) + Ids(b)
  {
  }

  lemma {:induction false} ResultsFollowWindows(job: Job, chunks: seq<Wrapper>)
    requires Accepted(job) && AllValid(job, chunks)
    ensures Ids(AllResults(chunks)) == job.ids[..Upto(job, |chunks|)]
  {
    if chunks != [] {
      var init, last := chunks[..|chunks| - 1], chunks[|chunks| - 1];
      ResultsFollowWindows(job, init);
      WindowStep(job, |init|);
      IdsConcat(AllResults(init), last.results);
      assert Valid(last, Window(job, |init|), job.fingerprint);
    }
  }

  lemma WindowsReachTheEnd(job: Job)
    requires Accepted(job)
    ensures Offset(job, ChunkCount(job)) >= |job.ids|
    ensures ChunkCount(job) == 0 <==> job.ids == []
  {
    var n, s := |job.ids| + job.chunkSize - 1, job.chunkSize;
    assert n == s * (n / s) + n % s;
  }

  /** From any directory: the id check of the aggregation never fires, and with
      a dataset that is not empty neither does the empty-list error. */
  lemma AggregationNeverMismatches(disk: Disk, job: Job, attempts: Attempts)
    requires Accepted(job)
    ensures Invocation(disk, job, attempts).1 != Failure(IdsMismatch)
    ensures Invocation(disk, job, attempts).1 == Failure(NoChunks) <==> job.ids == []
    ensures Invocation(disk, job, attempts).1.Success? ==>
              Ids(Invocation(disk, job, attempts).1.value.results) == job.ids
  {
    var n := ChunkCount(job);
    ChunksAreQa(disk, job, attempts, n);
    WindowsReachTheEnd(job);
    var wrappers := ChunksUpTo(disk, job, attempts, n).1;
    if wrappers.Success? {
      ResultsFollowWindows(job, wrappers.value);
      assert job.ids[..Upto(job, n)] == job.ids;
      assert |AllResults(wrappers.value)| == |job.ids|;
    } else {
      ChunkFailureIsNamed(disk, job, attempts, n);
    }
  }

  lemma {:induction false} RunFailureIsNamed(disk: Disk, job: Job, offset: nat, ids: seq<string>, attempts: Attempts,
                                             i: nat)
    ensures var r := RunFrom(disk, job, offset, ids, attempts, i).1;
            r.Failure? ==> r.error == ChunkFailed(offset)
    decreases job.maxAttempts - i
  {
    if i < job.maxAttempts {
      var after := AfterProcess(disk, offset, attempts(offset, i));
      RunFailureIsNamed(after.(chunks := after.chunks - {offset}), job, offset, ids, attempts, i + 1);
    }
  }

  lemma {:induction false} ChunkFailureIsNamed(disk: Disk, job: Job, attempts: Attempts, n: nat)
    requires Accepted(job)
    ensures var r := ChunksUpTo(disk, job, attempts, n).1;
            r.Failure? ==> r.error.ChunkFailed?
    ensures n == 0 ==> ChunksUpTo(disk, job, attempts, n).1.Success?
  {
    if n > 0 {
      ChunkFailureIsNamed(disk, job, attempts, n - 1);
      var before := ChunksUpTo(disk, job, attempts, n - 1).0;
      RunFailureIsNamed(before, job, Offset(job, n - 1), Window(job, n - 1), attempts, 0);
    }
  }

  // ----- The breakdown adds up -----------------------------------------------------------------

  ghost function Totals(byType: map<string, Tally>): map<string, int> {
    map k | k in byType :: byType[k].total
  }

  ghost function Corrects(byType: map<string, Tally>): map<string, int> {
    map k | k in byType :: byType[k].correct
  }

  lemma CountedAddsOne(byType: map<string, Tally>, answer: Answer)
    ensures Total(Totals(Counted(byType, answer))) == Total(Totals(byType)) + 1
    ensures Total(Corrects(Counted(byType, answer))) == Total(Corrects(byType)) + if answer.correct then 1 else 0
  {
    var kind, after := OrElse(answer.questionType, "unknown"), Counted(byType, answer);
    assert Totals(after) == Totals(byType)[kind := after[kind].total];
    assert Corrects(after) == Corrects(byType)[kind := after[kind].correct];
    if kind in byType {
      TotalUpdate(Totals(byType), kind, after[kind].total);
      TotalUpdate(Corrects(byType), kind, after[kind].correct);
    } else {
      TotalInsert(Totals(byType), kind, after[kind].total);
      TotalInsert(Corrects(byType), kind, after[kind].correct);
    }
  }

  /** Per-type counts and corrects sum to the totals; no type is empty, and none
      has more correct answers than answers. */
  lemma {:induction false} BreakdownAddsUp(results: seq<Answer>)
    ensures Total(Totals(ByType(results))) == |results|
    ensures Total(Corrects(ByType(results))) == CorrectOf(results)
    ensures forall kind :: kind in ByType(results) ==>
              0 <= ByType(results)[kind].correct <= ByType(results)[kind].total && ByType(results)[kind].total > 0
  {
    if results != [] {
      BreakdownAddsUp(results[..|results| - 1]);
      CountedAddsOne(ByType(results[..|results| - 1]), results[|results| - 1]);
    }
  }

  // ----- Without the assumption that a silent process does not exit with 0 -----------------

  /** A file at this offset that would pass for the window holds the benchmark's
      answers: this can be checked before the run. */
  ghost predicate Safe(disk: Disk, offset: nat, ids: seq<string>, fp: Fingerprint, bench: Benchmark) {
    offset in disk.chunks && Valid(disk.chunks[offset], ids, fp) ==> disk.chunks[offset] == bench(fp, ids)
  }

  ghost predicate OnDisk(disk: Disk, offset: nat, ids: seq<string>, fp: Fingerprint, w: Wrapper) {
    offset in disk.chunks && w == disk.chunks[offset] && Valid(w, ids, fp)
  }

  /** A chunk comes from the benchmark or was there before. */
  ghost predicate Sourced(disk: Disk, offset: nat, ids: seq<string>, fp: Fingerprint, bench: Benchmark, w: Wrapper) {
    Valid(w, ids, fp) && (w == bench(fp, ids) || OnDisk(disk, offset, ids, fp, w))
  }

  lemma {:induction false} RunIsSourced(disk: Disk, job: Job, offset: nat, ids: seq<string>, attempts: Attempts, i: nat,
                                        bench: Benchmark)
    requires TruthfulAt(attempts, offset, ids, job.fingerprint, bench)
    ensures var r := RunFrom(disk, job, offset, ids, attempts, i).1;
            r.Success? ==> Sourced(disk, offset, ids, job.fingerprint, bench, r.value)
    decreases job.maxAttempts - i
  {
    if i < job.maxAttempts {
      var attempt := attempts(offset, i);
      var after := AfterProcess(disk, offset, attempt);
      if !AttemptHolds(disk, offset, ids, job.fingerprint, attempt) {
        RunIsSourced(after.(chunks := after.chunks - {offset}), job, offset, ids, attempts, i + 1, bench);
      }
    }
  }

  /** Whatever the processes do short of writing untruths with exit code 0, the
      chunk is the benchmark's, if and only if no stale file would pass for it. */
  lemma ChunkIsTrueIffSafe(disk: Disk, job: Job, offset: nat, ids: seq<string>, bench: Benchmark)
    requires job.maxAttempts > 0
    ensures (forall attempts | TruthfulAt(attempts, offset, ids, job.fingerprint, bench) ::
               var r := RunFrom(disk, job, offset, ids, attempts, 0).1;
               r.Success? ==> r.value == bench(job.fingerprint, ids))
       <==> Safe(disk, offset, ids, job.fingerprint, bench)
  {
    if Safe(disk, offset, ids, job.fingerprint, bench) {
      forall attempts | TruthfulAt(attempts, offset, ids, job.fingerprint, bench)
        ensures var r := RunFrom(disk, job, offset, ids, attempts, 0).1;
                r.Success? ==> r.value == bench(job.fingerprint, ids)
      {
        RunIsSourced(disk, job, offset, ids, attempts, 0, bench);
      }
    } else {
      assert TruthfulAt(Silent(), offset, ids, job.fingerprint, bench);
      assert RunFrom(disk, job, offset, ids, Silent(), 0).1 == Success(disk.chunks[offset]);
    }
  }

  // Over the chunks of an invocation: a chunk only touches its own files.

  ghost predicate SameFrom(a: Disk, b: Disk, offset: nat) {
    forall o :: o >= offset ==>
      && (o in a.chunks <==> o in b.chunks) && (o in a.inputs <==> o in b.inputs)
      && (o in a.chunks ==> a.chunks[o] == b.chunks[o]) && (o in a.inputs ==> a.inputs[o] == b.inputs[o])
  }

  lemma {:induction false} RunTouchesItsOwn(disk: Disk, job: Job, offset: nat, ids: seq<string>, attempts: Attempts,
                                            i: nat)
    ensures SameFrom(RunFrom(disk, job, offset, ids, attempts, i).0, disk, offset + 1)
    decreases job.maxAttempts - i
  {
    if i < job.maxAttempts {
      var attempt := attempts(offset, i);
      var after := AfterProcess(disk, offset, attempt);
      if !AttemptHolds(disk, offset, ids, job.fingerprint, attempt) {
        RunTouchesItsOwn(after.(chunks := after.chunks - {offset}), job, offset, ids, attempts, i + 1);
      }
    }
  }

  lemma ChunkTouchesItsOwn(disk: Disk, job: Job, k: nat, attempts: Attempts)
    requires Accepted(job)
    ensures SameFrom(OneChunk(disk, job, k, attempts).0, disk, Offset(job, k) + 1)
  {
    RunTouchesItsOwn(disk, job, Offset(job, k), Window(job, k), attempts, 0);
  }

  lemma OffsetStep(job: Job, n: nat)
    ensures Offset(job, n + 1) == Offset(job, n) + job.chunkSize
  {
  }

  lemma {:induction false} ChunksTouchEarlier(disk: Disk, job: Job, attempts: Attempts, n: nat)
    requires Accepted(job)
    ensures SameFrom(ChunksUpTo(disk, job, attempts, n).0, disk, Offset(job, n))
  {
    if n > 0 {
      ChunksTouchEarlier(disk, job, attempts, n - 1);
      OffsetStep(job, n - 1);
      ChunksStep(disk, job, attempts, n);
      ChunkTouchesItsOwn(ChunksUpTo(disk, job, attempts, n - 1).0, job, n - 1, attempts);
    }
  }

  ghost predicate AllSourced(disk: Disk, job: Job, bench: Benchmark, chunks: seq<Wrapper>)
    requires Accepted(job)
  {
    forall k :: 0 <= k < |chunks| ==>
      Sourced(disk, Offset(job, k), Window(job, k), job.fingerprint, bench, chunks[k])
  }

  lemma ChunkIsSourced(disk: Disk, before: Disk, job: Job, k: nat, attempts: Attempts, bench: Benchmark)
    requires Accepted(job) && SameFrom(before, disk, Offset(job, k))
    requires TruthfulAt(attempts, Offset(job, k), Window(job, k), job.fingerprint, bench)
    ensures var r := OneChunk(before, job, k, attempts).1;
            r.Success? ==> Sourced(disk, Offset(job, k), Window(job, k), job.fingerprint, bench, r.value)
  {
    RunIsSourced(before, job, Offset(job, k), Window(job, k), attempts, 0, bench);
  }

  lemma MoreSourced(disk: Disk, job: Job, bench: Benchmark, chunks: seq<Wrapper>, chunk: Wrapper)
    requires Accepted(job) && AllSourced(disk, job, bench, chunks)
    requires Sourced(disk, Offset(job, |chunks|), Window(job, |chunks|), job.fingerprint, bench, chunk)
    ensures AllSourced(disk, job, bench, chunks + [chunk])
  {
  }

  lemma {:induction false} ChunksAreSourced(disk: Disk, job: Job, attempts: Attempts, bench: Benchmark, n: nat)
    requires Accepted(job) && Truthful(job, attempts, bench) && n <= ChunkCount(job)
    ensures var r := ChunksUpTo(disk, job, attempts, n).1;
            r.Success? ==> |r.value| == n && AllSourced(disk, job, bench, r.value)
  {
    if n > 0 {
      ChunksAreSourced(disk, job, attempts, bench, n - 1);
      ChunksTouchEarlier(disk, job, attempts, n - 1);
      ChunksStep(disk, job, attempts, n);
      assert TruthfulAt(attempts, Offset(job, n - 1), Window(job, n - 1), job.fingerprint, bench);
      var before := ChunksUpTo(disk, job, attempts, n - 1);
      ChunkIsSourced(disk, before.0, job, n - 1, attempts, bench);
      if ChunksUpTo(disk, job, attempts, n).1.Success? {
        MoreSourced(disk, job, bench, before.1.value, OneChunk(before.0, job, n - 1, attempts).1.value);
      }
    }
  }

  /** There is some chunk to be had for the window: a true one or a stale one. */
  ghost predicate Obtainable(disk: Disk, offset: nat, ids: seq<string>, fp: Fingerprint, bench: Benchmark) {
    Valid(bench(fp, ids), ids, fp) || (offset in disk.chunks && Valid(disk.chunks[offset], ids, fp))
  }

  /** No stale file would pass for any window of the job, unless the job cannot
      finish anyway. */
  ghost predicate SafeFor(disk: Disk, job: Job, bench: Benchmark)
    requires Accepted(job)
  {
    (forall k :: 0 <= k < ChunkCount(job) ==>
       Obtainable(disk, Offset(job, k), Window(job, k), job.fingerprint, bench))
    ==>
    (forall k :: 0 <= k < ChunkCount(job) ==> Safe(disk, Offset(job, k), Window(job, k), job.fingerprint, bench))
  }

  /** Processes that write only where no file would pass already. */
  function Lazy(disk: Disk, job: Job, bench: Benchmark): Attempts {
    (offset: nat, i: nat) =>
      var ids := WindowAt(job, offset);
      if offset in disk.chunks && Valid(disk.chunks[offset], ids, job.fingerprint) then Attempt(0, None, true)
      else Attempt(0, Some(bench(job.fingerprint, ids)), true)
  }

  function WindowAt(job: Job, offset: nat): seq<string> {
    if offset >= |job.ids| then []
    else job.ids[offset..if offset + job.chunkSize <= |job.ids| then offset + job.chunkSize else |job.ids|]
  }

  lemma WindowIsAtOffset(job: Job, k: nat)
    requires Accepted(job)
    ensures WindowAt(job, Offset(job, k)) == Window(job, k)
  {
    OffsetStep(job, k);
  }

  lemma LazyIsTruthful(disk: Disk, job: Job, bench: Benchmark)
    requires Accepted(job)
    ensures Truthful(job, Lazy(disk, job, bench), bench)
  {
    forall k: nat | k < ChunkCount(job)
      ensures TruthfulAt(Lazy(disk, job, bench), Offset(job, k), Window(job, k), job.fingerprint, bench)
    {
      WindowIsAtOffset(job, k);
    }
  }

  /** What is on the disk if it passes, else what the benchmark writes. */
  ghost function LazyChunk(disk: Disk, job: Job, bench: Benchmark, k: nat): Wrapper
    requires Accepted(job)
  {
    var offset, ids := Offset(job, k), Window(job, k);
    if offset in disk.chunks && Valid(disk.chunks[offset], ids, job.fingerprint) then disk.chunks[offset]
    else bench(job.fingerprint, ids)
  }

  lemma LazyRunSucceeds(disk: Disk, before: Disk, job: Job, bench: Benchmark, k: nat)
    requires Accepted(job) && SameFrom(before, disk, Offset(job, k))
    requires Obtainable(disk, Offset(job, k), Window(job, k), job.fingerprint, bench)
    ensures OneChunk(before, job, k, Lazy(disk, job, bench)).1 == Success(LazyChunk(disk, job, bench, k))
  {
    var offset, ids := Offset(job, k), Window(job, k);
    WindowIsAtOffset(job, k);
    assert Valid(LazyChunk(disk, job, bench, k), ids, job.fingerprint);
    var attempt := Lazy(disk, job, bench)(offset, 0);
    var after := AfterProcess(before, offset, attempt);
    assert offset in after.chunks && after.chunks[offset] == LazyChunk(disk, job, bench, k);
    assert AttemptHolds(before, offset, ids, job.fingerprint, attempt);
  }

  /** From files that differ from the disk's before its own offset at most, each
      chunk comes out as wanted. */
  ghost predicate Gives(disk: Disk, job: Job, attempts: Attempts, n: nat, want: nat -> Wrapper)
    requires Accepted(job)
  {
    forall before, k: nat | k < n && SameFrom(before, disk, Offset(job, k)) ::
      OneChunk(before, job, k, attempts).1 == Success(want(k))
  }

  function FirstOf(want: nat -> Wrapper, n: nat): seq<Wrapper> {
    if n == 0 then [] else FirstOf(want, n - 1) + [want(n - 1)]
  }

  lemma {:induction false} FirstOfAt(want: nat -> Wrapper, n: nat)
    ensures |FirstOf(want, n)| == n && forall k :: 0 <= k < n ==> FirstOf(want, n)[k] == want(k)
  {
    if n > 0 {
      FirstOfAt(want, n - 1);
    }
  }

  lemma {:induction false} GivenSucceeds(disk: Disk, job: Job, attempts: Attempts, all: nat, want: nat -> Wrapper,
                                         n: nat)
    requires Accepted(job) && Gives(disk, job, attempts, all, want) && n <= all
    ensures ChunksUpTo(disk, job, attempts, n).1 == Success(FirstOf(want, n))
  {
    if n > 0 {
      GivenSucceeds(disk, job, attempts, all, want, n - 1);
      ChunksTouchEarlier(disk, job, attempts, n - 1);
      ChunksStep(disk, job, attempts, n);
      var before := ChunksUpTo(disk, job, attempts, n - 1);
      assert before.1 == Success(FirstOf(want, n - 1));
      assert OneChunk(before.0, job, n - 1, attempts).1 == Success(want(n - 1));
      assert ChunksUpTo(disk, job, attempts, n).1 == Success(FirstOf(want, n - 1) + [want(n - 1)]);
    }
  }

  lemma LazySucceeds(disk: Disk, job: Job, bench: Benchmark, n: nat)
    requires Accepted(job)
    requires forall k :: 0 <= k < n ==> Obtainable(disk, Offset(job, k), Window(job, k), job.fingerprint, bench)
    ensures var r := ChunksUpTo(disk, job, Lazy(disk, job, bench), n).1;
            r.Success? && |r.value| == n && forall k :: 0 <= k < n ==> r.value[k] == LazyChunk(disk, job, bench, k)
  {
    ghost var want := (k: nat) => LazyChunk(disk, job, bench, k);
    forall before, k: nat | k < n && SameFrom(before, disk, Offset(job, k))
      ensures OneChunk(before, job, k, Lazy(disk, job, bench)).1 == Success(want(k))
    {
      LazyRunSucceeds(disk, before, job, bench, k);
    }
    GivenSucceeds(disk, job, Lazy(disk, job, bench), n, want, n);
    FirstOfAt(want, n);
  }

  lemma {:induction false} FreshChunkAt(job: Job, bench: Benchmark, n: nat, k: nat)
    requires Accepted(job) && k < n
    ensures |FreshChunks(job, bench, n)| == n && FreshChunks(job, bench, n)[k] == bench(job.fingerprint, Window(job, k))
    decreases n
  {
    if k < n - 1 {
      FreshChunkAt(job, bench, n - 1, k);
    } else {
      FreshLength(job, bench, n);
    }
  }

  lemma {:induction false} FreshLength(job: Job, bench: Benchmark, n: nat)
    requires Accepted(job)
    ensures |FreshChunks(job, bench, n)| == n
  {
    if n > 0 {
      FreshLength(job, bench, n - 1);
    }
  }

  /** Every success collects the benchmark's chunks. */
  ghost predicate AlwaysFresh(disk: Disk, job: Job, bench: Benchmark)
    requires Accepted(job)
  {
    forall attempts | Truthful(job, attempts, bench) ::
      var r := ChunksUpTo(disk, job, attempts, ChunkCount(job)).1;
      r.Success? ==> r.value == FreshChunks(job, bench, ChunkCount(job))
  }

  lemma SafeMakesFresh(disk: Disk, job: Job, bench: Benchmark, attempts: Attempts)
    requires Accepted(job) && SafeFor(disk, job, bench) && Truthful(job, attempts, bench)
    ensures var r := ChunksUpTo(disk, job, attempts, ChunkCount(job)).1;
            r.Success? ==> r.value == FreshChunks(job, bench, ChunkCount(job))
  {
    var n := ChunkCount(job);
    ChunksAreSourced(disk, job, attempts, bench, n);
    FreshLength(job, bench, n);
    var r := ChunksUpTo(disk, job, attempts, n).1;
    if r.Success? {
      forall k | 0 <= k < n
        ensures Obtainable(disk, Offset(job, k), Window(job, k), job.fingerprint, bench)
      {
        assert Sourced(disk, Offset(job, k), Window(job, k), job.fingerprint, bench, r.value[k]);
      }
      forall k | 0 <= k < n
        ensures r.value[k] == FreshChunks(job, bench, n)[k]
      {
        FreshChunkAt(job, bench, n, k);
        assert Sourced(disk, Offset(job, k), Window(job, k), job.fingerprint, bench, r.value[k]);
        assert Safe(disk, Offset(job, k), Window(job, k), job.fingerprint, bench);
      }
    }
  }

  /** Resume equals fresh without any assumption on silent processes, if and only if
      no file in the directory would pass for a window of the job with other
      answers than the benchmark's (or the job cannot finish at all). */
  lemma FreshIffSafe(disk: Disk, job: Job, bench: Benchmark)
    requires Accepted(job)
    ensures AlwaysFresh(disk, job, bench) <==> SafeFor(disk, job, bench)
  {
    if SafeFor(disk, job, bench) {
      forall attempts | Truthful(job, attempts, bench)
        ensures var r := ChunksUpTo(disk, job, attempts, ChunkCount(job)).1;
                r.Success? ==> r.value == FreshChunks(job, bench, ChunkCount(job))
      {
        SafeMakesFresh(disk, job, bench, attempts);
      }
    } else {
      var n := ChunkCount(job);
      LazyIsTruthful(disk, job, bench);
      LazySucceeds(disk, job, bench, n);
      var k :| 0 <= k < n && !Safe(disk, Offset(job, k), Window(job, k), job.fingerprint, bench);
      FreshChunkAt(job, bench, n, k);
      assert ChunksUpTo(disk, job, Lazy(disk, job, bench), n).1.value[k] != FreshChunks(job, bench, n)[k];
    }
  }

  /** From a safe directory, a success reports what the benchmark's own chunks
      aggregate to, silent processes included. */
  lemma SafeInvocationIsFresh(disk: Disk, job: Job, bench: Benchmark, attempts: Attempts)
    requires Accepted(job) && SafeFor(disk, job, bench) && Truthful(job, attempts, bench)
    ensures var r := Invocation(disk, job, attempts).1;
            var expected := FreshChunks(job, bench, ChunkCount(job));
            r.Success? ==>
              && (forall i :: 0 <= i < |expected| ==> expected[i].Qa?)
              && r == Aggregated(expected, job.ids, job.fingerprint)
  {
    SafeMakesFresh(disk, job, bench, attempts);
    ChunksAreQa(disk, job, attempts, ChunkCount(job));
    if Invocation(disk, job, attempts).1.Success? {
      assert AllValid(job, ChunksUpTo(disk, job, attempts, ChunkCount(job)).1.value);
    }
  }

  lemma SuccessKeepsItsChunks(disk: Disk, job: Job, attempts: Attempts)
    requires Accepted(job)
    ensures var r, chunks := Invocation(disk, job, attempts).1, ChunksUpTo(disk, job, attempts, ChunkCount(job)).1;
            && (r.Success? <==> !HasDuplicates(job.ids) && job.ids != [] && chunks.Success?)
            && (r.Success? ==> r.value.evidence == chunks.value)
  {
    AggregationNeverMismatches(disk, job, attempts);
    ChunksAreQa(disk, job, attempts, ChunkCount(job));
  }

  /** Every payload of the job holds the benchmark's chunks. */
  ghost predicate AlwaysReportsFresh(disk: Disk, job: Job, bench: Benchmark)
    requires Accepted(job)
  {
    forall attempts | Truthful(job, attempts, bench) ::
      var r := Invocation(disk, job, attempts).1;
      r.Success? ==> r.value.evidence == FreshChunks(job, bench, ChunkCount(job))
  }

  /** The same for the payloads of whole invocations: a job with a repeated question
      id reports nothing at all, and for any other the directory decides. */
  lemma ReportsFreshIffSafe(disk: Disk, job: Job, bench: Benchmark)
    requires Accepted(job)
    ensures AlwaysReportsFresh(disk, job, bench) <==> HasDuplicates(job.ids) || SafeFor(disk, job, bench)
  {
    FreshIffSafe(disk, job, bench);
    WindowsReachTheEnd(job);
    forall attempts | Truthful(job, attempts, bench)
      ensures var r, chunks := Invocation(disk, job, attempts).1, ChunksUpTo(disk, job, attempts, ChunkCount(job)).1;
              && (r.Success? <==> !HasDuplicates(job.ids) && job.ids != [] && chunks.Success?)
              && (r.Success? ==> r.value.evidence == chunks.value)
    {
      SuccessKeepsItsChunks(disk, job, attempts);
    }
    if AlwaysReportsFresh(disk, job, bench) && !HasDuplicates(job.ids) && job.ids != [] {
      forall attempts | Truthful(job, attempts, bench)
        ensures var r := ChunksUpTo(disk, job, attempts, ChunkCount(job)).1;
                r.Success? ==> r.value == FreshChunks(job, bench, ChunkCount(job))
      {
        SuccessKeepsItsChunks(disk, job, attempts);
        var r := Invocation(disk, job, attempts).1;
        assert r.Success? ==> r.value.evidence == FreshChunks(job, bench, ChunkCount(job));
      }
    }
  }

  // ----- Such a stale file -------------------------------------------------------------------

  function Verdict(correct: bool): Wrapper {
    Qa("complete", "opencode", "model", "effort", Settings("dataset", "mode", "model", "", ""),
       [Answer("q", "type", correct)], [], 0, 0.0)
  }

  function JobAt(revision: string): Job {
    Job(Fingerprint("dataset", "retrieval", "benchmark", "model", "effort", revision), ["q"], 1, 1)
  }

  function Writes(correct: bool): Attempts {
    (offset: nat, i: nat) => Attempt(0, Some(Verdict(correct)), true)
  }

  function Silent(): Attempts {
    (offset: nat, i: nat) => Attempt(0, None, true)
  }

  lemma OneQuestion(disk: Disk, revision: string, attempts: Attempts)
    requires 0 in disk.inputs ==> disk.inputs[0] != JobAt(revision).fingerprint
    ensures Invocation(disk, JobAt(revision), attempts).0
         == RunFrom(disk, JobAt(revision), 0, ["q"], attempts, 0).0
    ensures var r := RunFrom(disk, JobAt(revision), 0, ["q"], attempts, 0).1;
            r.Success? ==>
              && r.value.Qa?
              && Invocation(disk, JobAt(revision), attempts).1
                 == Aggregated([r.value], ["q"], JobAt(revision).fingerprint)
  {
    var job := JobAt(revision);
    assert Window(job, 0) == ["q"] && ChunkCount(job) == 1 && Offset(job, 0) == 0;
    RunFromIsValid(disk, job, 0, ["q"], attempts, 0);
    assert ChunksUpTo(disk, job, attempts, 0) == (disk, Success([]));
    var r := RunFrom(disk, job, 0, ["q"], attempts, 0).1;
    if r.Success? {
      assert [] + [r.value] == [r.value];
      assert ChunksUpTo(disk, job, attempts, 1).1 == Success([r.value]);
    }
  }

  lemma OneVerdict(correct: bool, fp: Fingerprint)
    ensures Aggregated([Verdict(correct)], ["q"], fp).Success?
    ensures Aggregated([Verdict(correct)], ["q"], fp).value.correct == if correct then 1 else 0
  {
    var w := Verdict(correct);
    assert [w][..0] == [] && AllResults([w][..0]) == [];
    assert AllResults([w]) == w.results;
    assert w.results[..0] == [] && CorrectOf(w.results[..0]) == 0;
    assert Ids(w.results) == ["q"];
  }

  const FIRST := Disk(map[0 := Verdict(true)], map[0 := JobAt("first").fingerprint])

  lemma FirstRevision()
    ensures Invocation(EMPTY, JobAt("first"), Writes(true)).0 == FIRST
  {
    OneQuestion(EMPTY, "first", Writes(true));
    assert Ids(Verdict(true).results) == ["q"];
  }

  lemma SecondRevision()
    ensures Invocation(FIRST, JobAt("second"), Silent()).1
         == Aggregated([Verdict(true)], ["q"], JobAt("second").fingerprint)
  {
    assert "first"[0] != "second"[0];
    assert RunFrom(FIRST, JobAt("second"), 0, ["q"], Silent(), 0).1 == Success(Verdict(true)) by {
      assert Ids(Verdict(true).results) == ["q"];
    }
    OneQuestion(FIRST, "second", Silent());
  }

  lemma CleanRevision()
    ensures Invocation(EMPTY, JobAt("second"), Writes(false)).1
         == Aggregated([Verdict(false)], ["q"], JobAt("second").fingerprint)
  {
    assert RunFrom(EMPTY, JobAt("second"), 0, ["q"], Writes(false), 0).1 == Success(Verdict(false)) by {
      assert Ids(Verdict(false).results) == ["q"];
    }
    OneQuestion(EMPTY, "second", Writes(false));
  }

  /** A stale file in two runs: a benchmark process that exits with 0 without
      writing its file lets the next revision adopt, and record as its own, the
      answers of the one before.  Here the second revision would have answered
      wrongly, and is reported right. */
  lemma SilentSuccessAdoptsStaleAnswers()
    ensures var disk := Invocation(EMPTY, JobAt("first"), Writes(true)).0;
            var stale := Invocation(disk, JobAt("second"), Silent()).1;
            var clean := Invocation(EMPTY, JobAt("second"), Writes(false)).1;
            stale.Success? && clean.Success? && stale.value.correct == 1 && clean.value.correct == 0
  {
    FirstRevision();
    SecondRevision();
    CleanRevision();
    OneVerdict(true, JobAt("second").fingerprint);
    OneVerdict(false, JobAt("second").fingerprint);
  }
}
