/** The bounded drain of the capture queue: `scripts/drain_capture_queue.py`.

    The loop calls collaborators that are injected; here each one is the
    sequence of its answers, and the method counts its calls. */
module Drain {
  import opened Basics
  import opened Reals

  datatype QueueState = QueueState(waiting: int, oldestAgeH: Option<real>)

  /** What a batch returns; an absent count is 0, an absent text "", an absent ok true. */
  datatype BatchResult = BatchResult(
    ok: bool, reason: string, breaker: string, extracted: int, consolidated: int, applied: int, errors: int,
    deferredExtract: int, deferredConsolidate: int)

  datatype Outcome = Raised(kind: string) | Returned(result: BatchResult)

  /** The answers of the collaborators: the k-th call to each gets the k-th. */
  datatype World = World(
    state: nat -> QueueState, batch: nat -> Outcome, guard: nat -> string, clock: nat -> real)

  datatype Limits = Limits(stopBelow: int, maxAgeH: real, maxBatches: int, maxMinutes: real)

  datatype StopReason =
    | UnderThreshold | MaxBatches | MaxMinutes | LatencyGuardSkip | RunRaised(kind: string)
    | WorkerBusy | BreakerOpen | RunFailed | DailyBudget | NoProgress

  datatype Totals = Totals(extracted: int, consolidated: int, applied: int, errors: int)

  datatype Report = Report(
    stopReason: StopReason, batches: nat, totals: Totals, before: QueueState, after: QueueState, minutes: real)

  const SOFT_BREAKER := "TimeoutExpired"
  const MAX_SOFT_BREAKER_BATCHES := 2

  // ----- Decisions --------------------------------------------------------------

  predicate Under(state: QueueState, limits: Limits) {
    state.waiting <= limits.stopBelow && (state.oldestAgeH.None? || state.oldestAgeH.value <= limits.maxAgeH)
  }

  function Max(a: int, b: int): int {
    if a >= b then a else b
  }

  predicate Hard(reason: StopReason) {
    reason.WorkerBusy? || reason.BreakerOpen? || reason.RunFailed?
  }

  /** `_batch_stop`. */
  function BatchStop(r: BatchResult, softBreakers: int): Option<StopReason> {
    if r.reason == "worker_busy" then Some(WorkerBusy)
    else if r.breaker == SOFT_BREAKER && softBreakers < MAX_SOFT_BREAKER_BATCHES then None
    else if r.breaker != "" then Some(BreakerOpen)
    else
      var progress := Max(r.extracted, Max(r.consolidated, r.applied));
      if !r.ok || r.errors > progress then Some(RunFailed)
      else if r.deferredExtract != 0 || r.deferredConsolidate != 0 then Some(DailyBudget)
      else if progress == 0 then Some(NoProgress)
      else None
  }

  // ----- What one run is, without the loop ------------------------------------------

  predicate Soft(w: World, k: nat) {
    w.batch(k).Returned? && w.batch(k).result.breaker == SOFT_BREAKER
  }

  /** Soft breakers in a row, up to and including batch k - 1. */
  function SoftRow(w: World, k: nat): nat {
    if k == 0 || !Soft(w, k - 1) then 0 else SoftRow(w, k - 1) + 1
  }

  function Minutes(from: real, to: real): real {
    (to - from) / 60.0
  }

  /** The minutes of the report, to one digit. */
  function Reported(from: real, to: real): real {
    RoundTo(Minutes(from, to), 10.0)
  }

  function Elapsed(w: World, call: nat): real {
    Minutes(w.clock(0), w.clock(call))
  }

  function ReportedAt(w: World, call: nat): real {
    Reported(w.clock(0), w.clock(call))
  }

  /** Why no batch is started after `k` batches, if so. */
  function StopBefore(w: World, limits: Limits, k: nat): Option<StopReason> {
    if Under(w.state(k), limits) then Some(UnderThreshold)
    else if k >= limits.maxBatches then Some(MaxBatches)
    else if Elapsed(w, k + 1) >= limits.maxMinutes then Some(MaxMinutes)
    else if w.guard(k) == "skip" then Some(LatencyGuardSkip)
    else None
  }

  /** What batch `k` itself says, and what that makes of the run. */
  function OwnStop(w: World, k: nat): Option<StopReason>
    requires w.batch(k).Returned?
  {
    BatchStop(w.batch(k).result, SoftRow(w, k + 1))
  }

  function StopAfter(w: World, limits: Limits, k: nat): Option<StopReason>
    requires w.batch(k).Returned?
  {
    var own := OwnStop(w, k);
    if own.Some? && Hard(own.value) then own
    else if Under(w.state(k + 1), limits) then Some(UnderThreshold)
    else own
  }

  function Plus(t: Totals, r: BatchResult): Totals {
    Totals(t.extracted + r.extracted, t.consolidated + r.consolidated, t.applied + r.applied, t.errors + r.errors)
  }

  function SumOf(w: World, n: nat): Totals
    requires forall k: nat :: k < n ==> w.batch(k).Returned?
  {
    if n == 0 then Totals(0, 0, 0, 0)
    else
      Plus(SumOf(w, n - 1), w.batch(n - 1).result)
  }

  /** `n` batches ran, one after the other, and none before the last stopped. */
  ghost predicate Ran(w: World, limits: Limits, n: nat) {
    && (forall k: nat :: k < n ==> w.batch(k).Returned? && StopBefore(w, limits, k) == None)
    && (forall k: nat :: k + 1 < n ==> StopAfter(w, limits, k) == None)
  }

  /** The run ends right after its last batch. */
  ghost predicate EndsAfterBatch(w: World, limits: Limits, n: nat, reason: StopReason) {
    n > 0 && w.batch(n - 1).Returned? && StopAfter(w, limits, n - 1) == Some(reason)
  }

  ghost predicate GoesOn(w: World, limits: Limits, n: nat) {
    n > 0 ==> w.batch(n - 1).Returned? && StopAfter(w, limits, n - 1) == None
  }

  /** The run ends at the checks before a batch, or in a batch that raises. */
  ghost predicate EndsBeforeBatch(w: World, limits: Limits, n: nat, reason: StopReason) {
    && GoesOn(w, limits, n)
    && (StopBefore(w, limits, n) == Some(reason)
        || (StopBefore(w, limits, n) == None && w.batch(n).Raised? && reason == RunRaised(w.batch(n).kind)))
  }

  /** How often the clock was read before the last reading. */
  function ClockCalls(n: nat, reason: StopReason, afterBatch: bool): nat {
    if !afterBatch && (reason.MaxMinutes? || reason.LatencyGuardSkip? || reason.RunRaised?) then n + 2 else n + 1
  }

  /** The report of a run, as a fact about the answers of the collaborators. */
  ghost predicate IsReport(w: World, limits: Limits, r: Report) {
    && Ran(w, limits, r.batches)
    && r.totals == SumOf(w, r.batches)
    && r.before == w.state(0) && r.after == w.state(r.batches)
    && (EndsAfterBatch(w, limits, r.batches, r.stopReason) || EndsBeforeBatch(w, limits, r.batches, r.stopReason))
    && var afterBatch := EndsAfterBatch(w, limits, r.batches, r.stopReason);
       r.minutes == ReportedAt(w, ClockCalls(r.batches, r.stopReason, afterBatch))
  }

  // ----- The loop ---------------------------------------------------------------------

  /** The checks before a batch, each collaborator asked only when it is reached. */
  method CheckBefore(w: World, limits: Limits, batches: nat, current: QueueState, started: real, clockCalls: nat,
                     guardCalls: nat)
    returns (reason: Option<StopReason>, clockCalls': nat, guardCalls': nat)
    requires current == w.state(batches) && started == w.clock(0)
    requires clockCalls == batches + 1 && guardCalls == batches
    ensures reason == StopBefore(w, limits, batches)
    ensures clockCalls'
         == if reason == Some(UnderThreshold) || reason == Some(MaxBatches) then batches + 1 else batches + 2
    ensures reason == None ==> guardCalls' == batches + 1
  {
    reason, clockCalls', guardCalls' := None, clockCalls, guardCalls;
    if Under(current, limits) {
      reason := Some(UnderThreshold);
    } else if batches >= limits.maxBatches {
      reason := Some(MaxBatches);
    } else {
      var now := w.clock(clockCalls);
      clockCalls' := clockCalls + 1;
      if Minutes(started, now) >= limits.maxMinutes {
        reason := Some(MaxMinutes);
      } else {
        var verdict := w.guard(guardCalls);
        guardCalls' := guardCalls + 1;
        if verdict == "skip" {
          reason := Some(LatencyGuardSkip);
        }
      }
    }
  }

  /** The loop variables after n batches. */
  ghost predicate Looping(w: World, limits: Limits, n: nat, totals: Totals, current: QueueState, softBreakers: nat) {
    Ran(w, limits, n) && totals == SumOf(w, n) && current == w.state(n) && softBreakers == SoftRow(w, n)
  }

  lemma LoopStep(w: World, limits: Limits, n: nat, totals: Totals, current: QueueState, softBreakers: nat)
    requires Looping(w, limits, n, totals, current, softBreakers) && GoesOn(w, limits, n)
    requires StopBefore(w, limits, n) == None && w.batch(n).Returned?
    ensures Looping(w, limits, n + 1, Plus(totals, w.batch(n).result), w.state(n + 1),
                    if Soft(w, n) then softBreakers + 1 else 0)
  {
  }

  /** The loop is left: after its last batch, or at the checks before the next. */
  ghost predicate Left(w: World, limits: Limits, n: nat, reason: StopReason, clockCalls: nat) {
    || (EndsAfterBatch(w, limits, n, reason) && clockCalls == n + 1)
    || (EndsBeforeBatch(w, limits, n, reason) && clockCalls == ClockCalls(n, reason, false))
  }

  lemma ReportIsRight(w: World, limits: Limits, r: Report, softBreakers: nat, clockCalls: nat)
    requires Looping(w, limits, r.batches, r.totals, r.after, softBreakers) && r.before == w.state(0)
    requires Left(w, limits, r.batches, r.stopReason, clockCalls) && r.minutes == ReportedAt(w, clockCalls)
    ensures IsReport(w, limits, r)
  {
  }

  /** `drain`. */
  method RunDrain(w: World, limits: Limits) returns (report: Report)
    ensures IsReport(w, limits, report)
  {
    var clockCalls, stateCalls, guardCalls := 1, 1, 0;
    var started, before := w.clock(0), w.state(0);
    var totals := Totals(0, 0, 0, 0);
    var batches, softBreakers: nat := 0, 0;
    var current := before;
    var reason: Option<StopReason> := None;
    while reason.None?
      invariant Looping(w, limits, batches, totals, current, softBreakers) && stateCalls == batches + 1
      invariant reason.None? ==> clockCalls == batches + 1 && guardCalls == batches && GoesOn(w, limits, batches)
      invariant reason.Some? ==> Left(w, limits, batches, reason.value, clockCalls)
      decreases limits.maxBatches - batches, reason.None?
    {
      reason, clockCalls, guardCalls := CheckBefore(w, limits, batches, current, started, clockCalls, guardCalls);
      if reason.Some? {
        break;
      }
      var outcome := w.batch(batches);
      if outcome.Raised? {
        reason := Some(RunRaised(outcome.kind));
        break;
      }
      LoopStep(w, limits, batches, totals, current, softBreakers);
      batches := batches + 1;
      totals := Plus(totals, outcome.result);
      current := w.state(stateCalls);
      stateCalls := stateCalls + 1;
      softBreakers := if outcome.result.breaker == SOFT_BREAKER then softBreakers + 1 else 0;
      reason := CheckAfter(w, limits, batches - 1, outcome.result, softBreakers, current);
    }
    report := Report(reason.value, batches, totals, before, current, Reported(started, w.clock(clockCalls)));
    ReportIsRight(w, limits, report, softBreakers, clockCalls);
  }

  /** The checks after batch `k`: a hard stop is never hidden by reaching the goal. */
  method CheckAfter(ghost w: World, limits: Limits, ghost k: nat, result: BatchResult, softBreakers: nat,
                    current: QueueState)
    returns (reason: Option<StopReason>)
    requires w.batch(k) == Returned(result) && softBreakers == SoftRow(w, k + 1) && current == w.state(k + 1)
    ensures reason == StopAfter(w, limits, k)
  {
    reason := BatchStop(result, softBreakers);
    if (reason.None? || !Hard(reason.value)) && Under(current, limits) {
      reason := Some(UnderThreshold);
    }
  }

  // ----- What every run is like ----------------------------------------------------------

  function Extracted(r: BatchResult): int { r.extracted }

  function Consolidated(r: BatchResult): int { r.consolidated }

  function Applied(r: BatchResult): int { r.applied }

  function Errors(r: BatchResult): int { r.errors }

  /** A count summed over the first n batches. */
  function SumBy(w: World, n: nat, count: BatchResult -> int): int
    requires forall k: nat :: k < n ==> w.batch(k).Returned?
  {
    if n == 0 then 0 else SumBy(w, n - 1, count) + count(w.batch(n - 1).result)
  }

  /** The totals of a report are the sums over the batches that completed, each
      count by itself; a batch that raised adds nothing. */
  lemma {:induction false} TotalsAreSums(w: World, n: nat)
    requires forall k: nat :: k < n ==> w.batch(k).Returned?
    ensures SumOf(w, n).extracted == SumBy(w, n, Extracted)
    ensures SumOf(w, n).consolidated == SumBy(w, n, Consolidated)
    ensures SumOf(w, n).applied == SumBy(w, n, Applied)
    ensures SumOf(w, n).errors == SumBy(w, n, Errors)
  {
    if n > 0 {
      TotalsAreSums(w, n - 1);
    }
  }

  lemma RanLonger(w: World, limits: Limits, short: nat, long: nat, reason: StopReason)
    requires short < long && Ran(w, limits, long)
    ensures !EndsAfterBatch(w, limits, short, reason) && !EndsBeforeBatch(w, limits, short, reason)
  {
    assert w.batch(short).Returned? && StopBefore(w, limits, short) == None;
    if short > 0 {
      assert StopAfter(w, limits, short - 1) == None;
    }
  }

  /** The answers of the collaborators determine the report. */
  lemma OneReport(w: World, limits: Limits, r1: Report, r2: Report)
    requires IsReport(w, limits, r1) && IsReport(w, limits, r2)
    ensures r1 == r2
  {
    if r1.batches < r2.batches {
      RanLonger(w, limits, r1.batches, r2.batches, r1.stopReason);
    } else if r2.batches < r1.batches {
      RanLonger(w, limits, r2.batches, r1.batches, r2.stopReason);
    }
  }

  /** At most `max_batches` batches; every batch but the last left the queue over
      its limits, without a stop of its own. */
  lemma RunIsBounded(w: World, limits: Limits, r: Report, k: nat)
    requires IsReport(w, limits, r)
    ensures r.batches <= Max(0, limits.maxBatches)
    ensures k < r.batches ==> !Under(w.state(k), limits) && w.guard(k) != "skip"
    ensures k + 1 < r.batches ==> !Under(w.state(k + 1), limits) && OwnStop(w, k) == None
    ensures r.stopReason == MaxBatches ==> r.batches == Max(0, limits.maxBatches) && !Under(r.after, limits)
  {
    if r.batches > 0 {
      assert StopBefore(w, limits, r.batches - 1) == None;
    }
    if k < r.batches {
      assert StopBefore(w, limits, k) == None;
    }
    if k + 1 < r.batches {
      assert StopAfter(w, limits, k) == None;
    }
  }

  /** The last batch said that the system is unhealthy. */
  ghost predicate EndedHard(w: World, r: Report) {
    r.batches > 0 && w.batch(r.batches - 1).Returned? && OwnStop(w, r.batches - 1).Some?
    && Hard(OwnStop(w, r.batches - 1).value)
  }

  /** "under_threshold" is reported exactly when the last state seen is under both
      limits and the last batch was not a hard stop; and a hard stop is reported
      exactly when the last batch was one, whatever else holds. */
  lemma UnderThresholdIff(w: World, limits: Limits, r: Report)
    requires IsReport(w, limits, r)
    ensures r.stopReason == UnderThreshold <==> Under(r.after, limits) && !EndedHard(w, r)
    ensures Hard(r.stopReason) <==> EndedHard(w, r)
    ensures EndedHard(w, r) ==> Some(r.stopReason) == OwnStop(w, r.batches - 1)
  {
    assert r.batches > 0 ==> w.batch(r.batches - 1).Returned?;
  }

  lemma SecondTimeoutStops(w: World, k: nat)
    requires Soft(w, k) && Soft(w, k + 1)
    ensures OwnStop(w, k + 1).Some?
  {
    assert SoftRow(w, k + 2) == SoftRow(w, k) + 2;
  }

  lemma LoneTimeoutOpensNothing(w: World, k: nat)
    requires Soft(w, k) && (k == 0 || !Soft(w, k - 1))
    ensures OwnStop(w, k) != Some(BreakerOpen)
  {
    assert SoftRow(w, k) == 0 && SoftRow(w, k + 1) == 1;
  }

  /** Two soft timeouts in a row end the run; one alone never opens the breaker. */
  lemma SoftBreakers(w: World, limits: Limits, r: Report, k: nat)
    requires IsReport(w, limits, r)
    ensures k + 1 < r.batches && Soft(w, k) && Soft(w, k + 1) ==> k + 2 == r.batches
    ensures r.stopReason == BreakerOpen && Soft(w, r.batches - 1) ==> r.batches >= 2 && Soft(w, r.batches - 2)
  {
    if k + 1 < r.batches && Soft(w, k) && Soft(w, k + 1) {
      SecondTimeoutStops(w, k);
      RunIsBounded(w, limits, r, k + 1);
    }
    UnderThresholdIff(w, limits, r);
    if r.stopReason == BreakerOpen && Soft(w, r.batches - 1) && (r.batches == 1 || !Soft(w, r.batches - 2)) {
      LoneTimeoutOpensNothing(w, r.batches - 1);
    }
  }
}
