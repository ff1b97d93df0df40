/** Resumable chunked evaluation: `scripts/autoresearch_longmemeval_qa.py`.

    A run cuts the question ids of its dataset into windows, reuses the chunk
    file of a window when its recorded inputs match, runs the benchmark
    otherwise, and aggregates.  Chunk files are keyed by their offset. */
module ChunkedEval {
  import opened Basics
  import opened Reals

  datatype Fingerprint = Fingerprint(
    dataset: string, retrieval: string, benchmark: string, judgeModel: string, judgeEffort: string, revision: string)

  datatype Answer = Answer(questionId: string, questionType: string, correct: bool)

  /** What `_aggregate` copies from the first chunk without looking at it. */
  datatype Settings = Settings(dataset: string, mode: string, judgeName: string, retryPolicy: string, pacing: string)

  datatype Wrapper =
    | NotQa
    | Qa(status: string, judgePrimary: string, judgeModel: string, judgeEffort: string, settings: Settings,
         results: seq<Answer>, provenance: seq<string>, tokens: int, elapsed: real)

  datatype LoadError =
    NoFingerprint | InputsChanged | NoChunk | NotAResult | NotComplete | WrongWindow | WrongJudge | WrongJudgeConfig

  datatype RunError = DuplicateIds | ChunkFailed(offset: nat) | IdsMismatch | NoChunks

  /** What a benchmark process does: its exit code, what it leaves in the chunk
      file if it writes it at all, and whether the inputs file can be written. */
  datatype Attempt = Attempt(exitCode: int, written: Option<Wrapper>, inputsWritable: bool)

  /** The files of a chunks directory. */
  datatype Disk = Disk(chunks: map<nat, Wrapper>, inputs: map<nat, Fingerprint>)

  const EMPTY := Disk(map[], map[])

  /** One invocation: its inputs, its question ids and its chunk size. */
  datatype Job = Job(fingerprint: Fingerprint, ids: seq<string>, chunkSize: nat, maxAttempts: nat)

  /** The script refuses chunk sizes and attempt limits below one. */
  ghost predicate Accepted(job: Job) {
    job.chunkSize > 0 && job.maxAttempts > 0
  }

  type Attempts = (nat, nat) -> Attempt

  function Ids(results: seq<Answer>): seq<string> {
    seq(|results|, i requires 0 <= i < |results| => results[i].questionId)
  }

  // ----- Loading a chunk -------------------------------------------------------

  function FirstFault(w: Wrapper, ids: seq<string>, fp: Fingerprint): Option<LoadError> {
    if w.NotQa? then Some(NotAResult)
    else if w.status != "complete" then Some(NotComplete)
    else if Ids(w.results) != ids then Some(WrongWindow)
    else if w.judgePrimary != "opencode" then Some(WrongJudge)
    else if w.judgeModel != fp.judgeModel || w.judgeEffort != fp.judgeEffort then Some(WrongJudgeConfig)
    else None
  }

  predicate Valid(w: Wrapper, ids: seq<string>, fp: Fingerprint) {
    FirstFault(w, ids, fp) == None
  }

  /** `_load_valid_chunk`, with and without the check of the recorded inputs. */
  function Load(disk: Disk, offset: nat, ids: seq<string>, fp: Fingerprint,
                checkInputs: bool): Result<Wrapper, LoadError> {
    if checkInputs && offset !in disk.inputs then Failure(NoFingerprint)
    else if checkInputs && disk.inputs[offset] != fp then Failure(InputsChanged)
    else if offset !in disk.chunks then Failure(NoChunk)
    else
      match FirstFault(disk.chunks[offset], ids, fp)
      case Some(e) => Failure(e)
      case None => Success(disk.chunks[offset])
  }

  // ----- Running a chunk -------------------------------------------------------

  function AfterProcess(disk: Disk, offset: nat, attempt: Attempt): Disk {
    if attempt.written.Some? then disk.(chunks := disk.chunks[offset := attempt.written.value]) else disk
  }

  predicate AttemptHolds(disk: Disk, offset: nat, ids: seq<string>, fp: Fingerprint, attempt: Attempt) {
    && attempt.exitCode == 0
    && Load(AfterProcess(disk, offset, attempt), offset, ids, fp, false).Success?
    && attempt.inputsWritable
  }

  /** The attempts from number `i` on; a failed one moves the chunk file away. */
  function RunFrom(disk: Disk, job: Job, offset: nat, ids: seq<string>, attempts: Attempts, i: nat)
    : (Disk, Result<Wrapper, RunError>)
    decreases job.maxAttempts - i
  {
    if i >= job.maxAttempts then (disk, Failure(ChunkFailed(offset)))
    else
      var attempt := attempts(offset, i);
      var after := AfterProcess(disk, offset, attempt);
      if AttemptHolds(disk, offset, ids, job.fingerprint, attempt) then
        (after.(inputs := after.inputs[offset := job.fingerprint]), Success(after.chunks[offset]))
      else RunFrom(after.(chunks := after.chunks - {offset}), job, offset, ids, attempts, i + 1)
  }

  // ----- The chunk loop ----------------------------------------------------------

  /** Where window `k` begins; its chunk file is named by this offset. */
  function Offset(job: Job, k: nat): nat {
    k * job.chunkSize
  }

  function Window(job: Job, k: nat): seq<string>
    requires Accepted(job)
  {
    var from, to := Offset(job, k), Offset(job, k + 1);
    if from >= |job.ids| then [] else job.ids[from..if to <= |job.ids| then to else |job.ids|]
  }

  /** The number of chunks: `len(range(0, len(ids), chunk_size))`. */
  function ChunkCount(job: Job): nat
    requires Accepted(job)
  {
    (|job.ids| + job.chunkSize - 1) / job.chunkSize
  }

  function OneChunk(disk: Disk, job: Job, k: nat, attempts: Attempts): (Disk, Result<Wrapper, RunError>)
    requires Accepted(job)
  {
    var offset, ids := Offset(job, k), Window(job, k);
    var loaded := Load(disk, offset, ids, job.fingerprint, true);
    if loaded.Success? then (disk, Success(loaded.value)) else RunFrom(disk, job, offset, ids, attempts, 0)
  }

  function ChunksUpTo(disk: Disk, job: Job, attempts: Attempts, n: nat): (Disk, Result<seq<Wrapper>, RunError>)
    requires Accepted(job)
  {
    if n == 0 then (disk, Success([]))
    else
      var (before, wrappers) := ChunksUpTo(disk, job, attempts, n - 1);
      if wrappers.Failure? then (before, wrappers)
      else
        var (after, chunk) := OneChunk(before, job, n - 1, attempts);
        if chunk.Failure? then (after, Failure(chunk.error)) else (after, Success(wrappers.value + [chunk.value]))
  }

  // ----- Aggregation ---------------------------------------------------------------

  datatype Tally = Tally(total: int, correct: int)

  /** The settings are those of the first chunk; `elapsed` has three digits;
      `evidence` is the chunks themselves, where the script keeps their hashes; the
      hashes of the two input files are those of the fingerprint. */
  datatype Payload = Payload(
    judgePrimary: string, judgeModel: string, judgeEffort: string, settings: Settings, datasetHash: string,
    retrievalHash: string, results: seq<Answer>, correct: int, questions: int, requested: int, accuracy: real,
    provenance: seq<string>, evidence: seq<Wrapper>, tokens: int, elapsed: real,
    byType: map<string, Tally>, accuracyByType: map<string, real>)

  function AllResults(wrappers: seq<Wrapper>): seq<Answer>
    requires forall i :: 0 <= i < |wrappers| ==> wrappers[i].Qa?
  {
    if wrappers == [] then [] else AllResults(wrappers[..|wrappers| - 1]) + wrappers[|wrappers| - 1].results
  }

  function TokensOf(wrappers: seq<Wrapper>): int
    requires forall i :: 0 <= i < |wrappers| ==> wrappers[i].Qa?
  {
    if wrappers == [] then 0 else TokensOf(wrappers[..|wrappers| - 1]) + wrappers[|wrappers| - 1].tokens
  }

  function ProvenanceOf(wrappers: seq<Wrapper>): seq<string>
    requires forall i :: 0 <= i < |wrappers| ==> wrappers[i].Qa?
  {
    if wrappers == [] then [] else ProvenanceOf(wrappers[..|wrappers| - 1]) + wrappers[|wrappers| - 1].provenance
  }

  function ElapsedOf(wrappers: seq<Wrapper>): real
    requires forall i :: 0 <= i < |wrappers| ==> wrappers[i].Qa?
  {
    if wrappers == [] then 0.0 else ElapsedOf(wrappers[..|wrappers| - 1]) + wrappers[|wrappers| - 1].elapsed
  }

  function CorrectOf(results: seq<Answer>): nat {
    if results == [] then 0
    else CorrectOf(results[..|results| - 1]) + if results[|results| - 1].correct then 1 else 0
  }

  function Counted(byType: map<string, Tally>, answer: Answer): map<string, Tally> {
    var kind := OrElse(answer.questionType, "unknown");
    var tally := if kind in byType then byType[kind] else Tally(0, 0);
    byType[kind := Tally(tally.total + 1, tally.correct + if answer.correct then 1 else 0)]
  }

  function ByType(results: seq<Answer>): map<string, Tally> {
    if results == [] then map[] else Counted(ByType(results[..|results| - 1]), results[|results| - 1])
  }

  /** The accuracy of each type. */
  function Shares(byType: map<string, Tally>): map<string, real> {
    map kind | kind in byType && byType[kind].total != 0 ::
      byType[kind].correct as real / byType[kind].total as real
  }

  function Aggregated(wrappers: seq<Wrapper>, ids: seq<string>, fp: Fingerprint): Result<Payload, RunError>
    requires forall i :: 0 <= i < |wrappers| ==> wrappers[i].Qa?
  {
    var results := AllResults(wrappers);
    if Ids(results) != ids then Failure(IdsMismatch)
    else if results == [] then Failure(NoChunks)
    else
      var first := wrappers[0];
      Success(Payload(first.judgePrimary, first.judgeModel, first.judgeEffort, first.settings, fp.dataset, fp.retrieval,
                      results, CorrectOf(results), |results|, |ids|, CorrectOf(results) as real / |results| as real,
                      ProvenanceOf(wrappers), wrappers, TokensOf(wrappers), RoundTo(ElapsedOf(wrappers), 1000.0),
                      ByType(results), Shares(ByType(results))))
  }

  predicate HasDuplicates(ids: seq<string>) {
    exists i, j | 0 <= i < j < |ids| :: ids[i] == ids[j]
  }

  /** A whole invocation: the files it leaves, and its payload or its error. */
  function Invocation(disk: Disk, job: Job, attempts: Attempts): (Disk, Result<Payload, RunError>)
    requires Accepted(job)
  {
    if HasDuplicates(job.ids) then (disk, Failure(DuplicateIds))
    else
      var (after, wrappers) := ChunksUpTo(disk, job, attempts, ChunkCount(job));
      if wrappers.Failure? then (after, Failure(wrappers.error))
      else
        ChunksAreQa(disk, job, attempts, ChunkCount(job));
        (after, Aggregated(wrappers.value, job.ids, job.fingerprint))
  }

  lemma {:induction false} RunFromIsValid(disk: Disk, job: Job, offset: nat, ids: seq<string>, attempts: Attempts,
                                          i: nat)
    ensures var r := RunFrom(disk, job, offset, ids, attempts, i).1;
            r.Success? ==> Valid(r.value, ids, job.fingerprint)
    decreases job.maxAttempts - i
  {
    if i < job.maxAttempts {
      var after := AfterProcess(disk, offset, attempts(offset, i));
      if !AttemptHolds(disk, offset, ids, job.fingerprint, attempts(offset, i)) {
        RunFromIsValid(after.(chunks := after.chunks - {offset}), job, offset, ids, attempts, i + 1);
      }
    }
  }

  lemma OneChunkIsValid(disk: Disk, job: Job, k: nat, attempts: Attempts)
    requires Accepted(job)
    ensures var r := OneChunk(disk, job, k, attempts).1;
            r.Success? ==> Valid(r.value, Window(job, k), job.fingerprint)
  {
    RunFromIsValid(disk, job, Offset(job, k), Window(job, k), attempts, 0);
  }

  ghost predicate AllValid(job: Job, chunks: seq<Wrapper>)
    requires Accepted(job)
  {
    forall k :: 0 <= k < |chunks| ==> chunks[k].Qa? && Valid(chunks[k], Window(job, k), job.fingerprint)
  }

  lemma AllValidAppend(job: Job, chunks: seq<Wrapper>, chunk: Wrapper)
    requires Accepted(job) && AllValid(job, chunks) && Valid(chunk, Window(job, |chunks|), job.fingerprint)
    ensures AllValid(job, chunks + [chunk])
  {
  }

  lemma ChunksStep(disk: Disk, job: Job, attempts: Attempts, n: nat)
    requires Accepted(job) && n > 0
    ensures var before, r := ChunksUpTo(disk, job, attempts, n - 1), ChunksUpTo(disk, job, attempts, n);
            var chunk := OneChunk(before.0, job, n - 1, attempts);
            && (r.1.Success? <==> before.1.Success? && chunk.1.Success?)
            && (r.1.Success? ==> r.1.value == before.1.value + [chunk.1.value])
            && r.0 == if before.1.Success? then chunk.0 else before.0
  {
    var before := ChunksUpTo(disk, job, attempts, n - 1);
    var chunk := OneChunk(before.0, job, n - 1, attempts);
    if before.1.Success? && chunk.1.Failure? {
      assert ChunksUpTo(disk, job, attempts, n) == (chunk.0, Failure(chunk.1.error));
    }
  }

  /** Every chunk that the loop appends is valid for its own window. */
  lemma {:induction false} ChunksAreQa(disk: Disk, job: Job, attempts: Attempts, n: nat)
    requires Accepted(job)
    ensures var r := ChunksUpTo(disk, job, attempts, n).1;
            r.Success? ==> |r.value| == n && AllValid(job, r.value)
  {
    if n > 0 {
      ChunksAreQa(disk, job, attempts, n - 1);
      ChunksStep(disk, job, attempts, n);
      var before, r := ChunksUpTo(disk, job, attempts, n - 1), ChunksUpTo(disk, job, attempts, n).1;
      var chunk := OneChunk(before.0, job, n - 1, attempts).1;
      assert chunk.Success? ==> Valid(chunk.value, Window(job, n - 1), job.fingerprint) by {
        OneChunkIsValid(before.0, job, n - 1, attempts);
      }
      if r.Success? {
        assert r.value == before.1.value + [chunk.value];
        AllValidAppend(job, before.1.value, chunk.value);
      }
    }
  }

  // ----- The script ------------------------------------------------------------------

  /** The chunks directory. */
  class ChunkStore {
    var chunks: map<nat, Wrapper>
    var inputs: map<nat, Fingerprint>

    constructor ()
      ensures Files() == EMPTY
    {
      chunks, inputs := map[], map[];
    }

    ghost function Files(): Disk
      reads this
    {
      Disk(chunks, inputs)
    }

    method LoadValidChunk(offset: nat, ids: seq<string>, fp: Fingerprint, checkInputs: bool)
      returns (r: Result<Wrapper, LoadError>)
      ensures r == Load(Files(), offset, ids, fp, checkInputs)
      ensures r.Success? <==>
                && (checkInputs ==> offset in inputs && inputs[offset] == fp)
                && offset in chunks && chunks[offset].Qa? && chunks[offset].status == "complete"
                && Ids(chunks[offset].results) == ids
                && chunks[offset].judgePrimary == "opencode" && chunks[offset].judgeModel == fp.judgeModel
                && chunks[offset].judgeEffort == fp.judgeEffort
      ensures r.Success? ==> r.value == chunks[offset]
      ensures r.Failure? && checkInputs && offset in inputs && inputs[offset] != fp ==> r.error == InputsChanged
    {
      if checkInputs {
        if offset !in inputs {
          return Failure(NoFingerprint);
        }
        if inputs[offset] != fp {
          return Failure(InputsChanged);
        }
      }
      if offset !in chunks {
        return Failure(NoChunk);
      }
      var wrapper := chunks[offset];
      var fault := FirstFault(wrapper, ids, fp);
      r := if fault.Some? then Failure(fault.value) else Success(wrapper);
    }

    method ArchiveFailedChunk(offset: nat)
      modifies this
      ensures Files() == old(Files()).(chunks := old(chunks) - {offset})
    {
      chunks := chunks - {offset};
    }

    method RunChunk(job: Job, offset: nat, ids: seq<string>, attempts: Attempts) returns (r: Result<Wrapper, RunError>)
      modifies this
      ensures (Files(), r) == RunFrom(old(Files()), job, offset, ids, attempts, 0)
    {
      for i := 0 to job.maxAttempts
        invariant RunFrom(Files(), job, offset, ids, attempts, i)
               == RunFrom(old(Files()), job, offset, ids, attempts, 0)
      {
        var attempt := attempts(offset, i);
        if attempt.written.Some? {
          chunks := chunks[offset := attempt.written.value];
        }
        var loaded := LoadValidChunk(offset, ids, job.fingerprint, false);
        if attempt.exitCode == 0 && loaded.Success? && attempt.inputsWritable {
          inputs := inputs[offset := job.fingerprint];
          return Success(loaded.value);
        }
        ArchiveFailedChunk(offset);
      }
      r := Failure(ChunkFailed(offset));
    }

    method RunAllChunks(job: Job, attempts: Attempts) returns (r: Result<seq<Wrapper>, RunError>)
      requires Accepted(job)
      modifies this
      ensures (Files(), r) == ChunksUpTo(old(Files()), job, attempts, ChunkCount(job))
    {
      var wrappers: seq<Wrapper> := [];
      for k := 0 to ChunkCount(job)
        invariant (Files(), Success(wrappers)) == ChunksUpTo(old(Files()), job, attempts, k)
      {
        var offset, ids := Offset(job, k), Window(job, k);
        var loaded := LoadValidChunk(offset, ids, job.fingerprint, true);
        if loaded.Success? {
          wrappers := wrappers + [loaded.value];
        } else {
          var chunk := RunChunk(job, offset, ids, attempts);
          if chunk.Failure? {
            FailureStays(old(Files()), job, attempts, k + 1, ChunkCount(job));
            return Failure(chunk.error);
          }
          wrappers := wrappers + [chunk.value];
        }
      }
      r := Success(wrappers);
    }

    /** `main`, from the parsed dataset on. */
    method Evaluate(job: Job, attempts: Attempts) returns (r: Result<Payload, RunError>)
      requires Accepted(job)
      modifies this
      ensures (Files(), r) == Invocation(old(Files()), job, attempts)
    {
      if HasDuplicates(job.ids) {
        return Failure(DuplicateIds);
      }
      var wrappers := RunAllChunks(job, attempts);
      if wrappers.Failure? {
        return Failure(wrappers.error);
      }
      ChunksAreQa(old(Files()), job, attempts, ChunkCount(job));
      r := Aggregate(wrappers.value, job.ids, job.fingerprint);
    }
  }

  lemma {:induction false} FailureStays(disk: Disk, job: Job, attempts: Attempts, m: nat, n: nat)
    requires Accepted(job) && m <= n && ChunksUpTo(disk, job, attempts, m).1.Failure?
    ensures ChunksUpTo(disk, job, attempts, n) == ChunksUpTo(disk, job, attempts, m)
  {
    if m < n {
      FailureStays(disk, job, attempts, m, n - 1);
    }
  }

  method CountByType(results: seq<Answer>) returns (byType: map<string, Tally>)
    ensures byType == ByType(results)
  {
    byType := map[];
    for i := 0 to |results|
      invariant byType == ByType(results[..i])
    {
      assert results[..i + 1][..i] == results[..i];
      var kind := OrElse(results[i].questionType, "unknown");
      if kind !in byType {
        byType := byType[kind := Tally(0, 0)];
      }
      byType := byType[kind := byType[kind].(total := byType[kind].total + 1)];
      byType := byType[kind := byType[kind].(correct := byType[kind].correct + if results[i].correct then 1 else 0)];
      assert byType == Counted(ByType(results[..i]), results[i]);
    }
    assert results[..|results|] == results;
  }

  method CountCorrect(results: seq<Answer>) returns (correct: nat)
    ensures correct == CorrectOf(results)
  {
    correct := 0;
    for i := 0 to |results|
      invariant correct == CorrectOf(results[..i])
    {
      assert results[..i + 1][..i] == results[..i];
      correct := correct + if results[i].correct then 1 else 0;
    }
    assert results[..|results|] == results;
  }

  /** The loop of `_aggregate` over the chunks. */
  method CollectChunks(wrappers: seq<Wrapper>)
    returns (results: seq<Answer>, provenance: seq<string>, evidence: seq<Wrapper>, tokens: int, elapsed: real)
    requires forall i :: 0 <= i < |wrappers| ==> wrappers[i].Qa?
    ensures results == AllResults(wrappers) && provenance == ProvenanceOf(wrappers) && evidence == wrappers
    ensures tokens == TokensOf(wrappers) && elapsed == ElapsedOf(wrappers)
  {
    results, provenance, evidence, tokens, elapsed := [], [], [], 0, 0.0;
    for i := 0 to |wrappers|
      invariant results == AllResults(wrappers[..i]) && provenance == ProvenanceOf(wrappers[..i])
      invariant evidence == wrappers[..i]
      invariant tokens == TokensOf(wrappers[..i]) && elapsed == ElapsedOf(wrappers[..i])
    {
      assert wrappers[..i + 1][..i] == wrappers[..i];
      results := results + wrappers[i].results;
      provenance := provenance + wrappers[i].provenance;
      evidence := evidence + [wrappers[i]];
      tokens := tokens + wrappers[i].tokens;
      elapsed := elapsed + wrappers[i].elapsed;
    }
    assert wrappers[..|wrappers|] == wrappers;
  }

  /** `_aggregate`. */
  method Aggregate(wrappers: seq<Wrapper>, ids: seq<string>, fp: Fingerprint) returns (r: Result<Payload, RunError>)
    requires forall i :: 0 <= i < |wrappers| ==> wrappers[i].Qa?
    ensures r == Aggregated(wrappers, ids, fp)
  {
    var results, provenance, evidence, tokens, elapsed := CollectChunks(wrappers);
    if Ids(results) != ids {
      return Failure(IdsMismatch);
    }
    if results == [] {
      return Failure(NoChunks);
    }
    var byType := CountByType(results);
    var correct := CountCorrect(results);
    var first := wrappers[0];
    r := Success(Payload(first.judgePrimary, first.judgeModel, first.judgeEffort, first.settings, fp.dataset,
                         fp.retrieval, results, correct, |results|, |ids|, correct as real / |results| as real,
                         provenance, evidence, tokens, RoundTo(elapsed, 1000.0), byType, Shares(byType)));
  }
}
