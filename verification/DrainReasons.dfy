/** Which reason a drain reports, told from the fields of its last batch, the queue
    and the clock, in the precedence that the script documents. */
module DrainReasons {
  import opened Basics
  import opened Reals
  import opened Drain

  // ----- What a batch says -----------------------------------------------------------

  predicate Busy(r: BatchResult) {
    r.reason == "worker_busy"
  }

  /** A breaker opened; a timeout counts only if the batch before had one too. */
  predicate Breaks(r: BatchResult, timedOutBefore: bool) {
    r.breaker != "" && (r.breaker == "TimeoutExpired" ==> timedOutBefore)
  }

  /** Not ok, or more errors than captures at any one stage. */
  predicate Fails(r: BatchResult) {
    !r.ok || (r.errors > r.extracted && r.errors > r.consolidated && r.errors > r.applied)
  }

  predicate Defers(r: BatchResult) {
    r.deferredExtract != 0 || r.deferredConsolidate != 0
  }

  predicate Idles(r: BatchResult) {
    && r.extracted <= 0 && r.consolidated <= 0 && r.applied <= 0
    && (r.extracted == 0 || r.consolidated == 0 || r.applied == 0)
  }

  predicate UnderLimits(q: QueueState, limits: Limits) {
    q.waiting <= limits.stopBelow && match q.oldestAgeH case None => true case Some(age) => age <= limits.maxAgeH
  }

  /** The batch before batch k opened a timeout breaker. */
  predicate TimedOutBefore(w: World, k: nat) {
    k > 0 && w.batch(k - 1).Returned? && w.batch(k - 1).result.breaker == "TimeoutExpired"
  }

  /** The batch says that the system is unhealthy. */
  predicate Unhealthy(r: BatchResult, timedOutBefore: bool) {
    Busy(r) || Breaks(r, timedOutBefore) || (r.breaker == "" && Fails(r))
  }

  /** A batch lets the run go on: it is healthy and the queue is over its limits;
      and either it is a first timeout, or nothing was deferred and something done. */
  predicate LetsGoOn(r: BatchResult, timedOutBefore: bool, after: QueueState, limits: Limits) {
    && !Unhealthy(r, timedOutBefore) && !UnderLimits(after, limits)
    && (r.breaker != "" || (!Defers(r) && !Idles(r)))
  }

  // ----- The decisions say so -----------------------------------------------------------

  lemma SoftTwice(w: World, k: nat)
    requires Soft(w, k)
    ensures SoftRow(w, k + 1) >= 2 <==> TimedOutBefore(w, k)
  {
    if k > 0 {
      assert SoftRow(w, k) >= 1 <==> Soft(w, k - 1);
    }
  }

  lemma OwnStopReads(w: World, k: nat)
    requires w.batch(k).Returned?
    ensures var r, again := w.batch(k).result, TimedOutBefore(w, k);
            && (OwnStop(w, k) == Some(WorkerBusy) <==> Busy(r))
            && (OwnStop(w, k) == Some(BreakerOpen) <==> !Busy(r) && Breaks(r, again))
            && (OwnStop(w, k) == Some(RunFailed) <==> !Busy(r) && r.breaker == "" && Fails(r))
            && (OwnStop(w, k) == Some(DailyBudget) <==> !Busy(r) && r.breaker == "" && !Fails(r) && Defers(r))
            && (OwnStop(w, k) == Some(NoProgress) <==>
                  !Busy(r) && r.breaker == "" && !Fails(r) && !Defers(r) && Idles(r))
            && (OwnStop(w, k).Some? && !Hard(OwnStop(w, k).value) ==>
                  OwnStop(w, k) == Some(DailyBudget) || OwnStop(w, k) == Some(NoProgress))
  {
    if Soft(w, k) {
      SoftTwice(w, k);
    }
  }

  lemma StopAfterReads(w: World, limits: Limits, k: nat)
    requires w.batch(k).Returned?
    ensures var r, again, after := w.batch(k).result, TimedOutBefore(w, k), w.state(k + 1);
            var told := StopAfter(w, limits, k);
            && (told == Some(WorkerBusy) <==> Busy(r))
            && (told == Some(BreakerOpen) <==> !Busy(r) && Breaks(r, again))
            && (told == Some(RunFailed) <==> !Busy(r) && r.breaker == "" && Fails(r))
            && (told == Some(UnderThreshold) <==> !Unhealthy(r, again) && UnderLimits(after, limits))
            && (told == Some(DailyBudget) <==>
                  !Unhealthy(r, again) && !UnderLimits(after, limits) && r.breaker == "" && Defers(r))
            && (told == Some(NoProgress) <==>
                  !Unhealthy(r, again) && !UnderLimits(after, limits) && r.breaker == "" && !Defers(r) && Idles(r))
            && (told == None <==> LetsGoOn(r, again, after, limits))
  {
    OwnStopReads(w, k);
  }

  // ----- The report ------------------------------------------------------------------------

  /** The run got past its last completed batch, if there was one. */
  predicate PastLast(w: World, limits: Limits, n: nat) {
    && !UnderLimits(w.state(n), limits)
    && (n > 0 ==> w.batch(n - 1).Returned?
                  && LetsGoOn(w.batch(n - 1).result, TimedOutBefore(w, n - 1), w.state(n), limits))
  }

  predicate InTime(w: World, limits: Limits, n: nat) {
    n < limits.maxBatches && w.clock(n + 1) - w.clock(0) < 60.0 * limits.maxMinutes
  }

  lemma LongEnough(from: real, to: real, limit: real)
    ensures Minutes(from, to) >= limit <==> to - from >= 60.0 * limit
  {
  }

  lemma StopBeforeReads(w: World, limits: Limits, n: nat)
    requires !UnderLimits(w.state(n), limits)
    ensures var told := StopBefore(w, limits, n);
            && (told == Some(MaxBatches) <==> n >= limits.maxBatches)
            && (told == Some(MaxMinutes) <==>
                  n < limits.maxBatches && w.clock(n + 1) - w.clock(0) >= 60.0 * limits.maxMinutes)
            && (told == Some(LatencyGuardSkip) <==> InTime(w, limits, n) && w.guard(n) == "skip")
            && (told == None <==> InTime(w, limits, n) && w.guard(n) != "skip")
            && (told.Some? ==> told.value.MaxBatches? || told.value.MaxMinutes? || told.value.LatencyGuardSkip?)
  {
    LongEnough(w.clock(0), w.clock(n + 1), limits.maxMinutes);
  }

  /** A run that ended with its last batch, and the reasons that only a batch gives. */
  lemma BatchReasons(w: World, limits: Limits, r: Report)
    requires IsReport(w, limits, r)
    ensures var n := r.batches;
            var last := n > 0 && w.batch(n - 1).Returned?;
            && (n > 0 ==> last)
            && (r.stopReason == WorkerBusy <==> last && Busy(w.batch(n - 1).result))
            && (r.stopReason == BreakerOpen <==>
                  last && !Busy(w.batch(n - 1).result) && Breaks(w.batch(n - 1).result, TimedOutBefore(w, n - 1)))
            && (r.stopReason == RunFailed <==>
                  last && !Busy(w.batch(n - 1).result) && w.batch(n - 1).result.breaker == ""
                  && Fails(w.batch(n - 1).result))
  {
    var n := r.batches;
    if n > 0 {
      StopAfterReads(w, limits, n - 1);
    }
  }

  /** A deferral is reported exactly when nothing before it in the precedence holds
      and the queue is still over its limits; idling when nothing was deferred
      either. */
  lemma HealthyReasons(w: World, limits: Limits, r: Report)
    requires IsReport(w, limits, r)
    ensures var n := r.batches;
            var last := n > 0 && w.batch(n - 1).Returned?;
            && (r.stopReason == DailyBudget <==>
                  && last && !Unhealthy(w.batch(n - 1).result, TimedOutBefore(w, n - 1))
                  && w.batch(n - 1).result.breaker == "" && Defers(w.batch(n - 1).result)
                  && !UnderLimits(r.after, limits))
            && (r.stopReason == NoProgress <==>
                  && last && !Unhealthy(w.batch(n - 1).result, TimedOutBefore(w, n - 1))
                  && w.batch(n - 1).result.breaker == "" && !Defers(w.batch(n - 1).result)
                  && Idles(w.batch(n - 1).result) && !UnderLimits(r.after, limits))
            && (r.stopReason == UnderThreshold <==>
                  && UnderLimits(r.after, limits)
                  && (last ==> !Unhealthy(w.batch(n - 1).result, TimedOutBefore(w, n - 1))))
  {
    var n := r.batches;
    if n > 0 {
      StopAfterReads(w, limits, n - 1);
    }
  }

  predicate OfBounds(reason: StopReason) {
    reason.MaxBatches? || reason.MaxMinutes? || reason.LatencyGuardSkip? || reason.RunRaised?
  }

  lemma EndsPastLast(w: World, limits: Limits, r: Report)
    requires IsReport(w, limits, r)
    ensures PastLast(w, limits, r.batches) ==> EndsBeforeBatch(w, limits, r.batches, r.stopReason)
    ensures OfBounds(r.stopReason) ==> PastLast(w, limits, r.batches)
  {
    var n := r.batches;
    if n > 0 {
      StopAfterReads(w, limits, n - 1);
    }
  }

  /** The bounds of the invocation, the latency guard and a batch that raises: each
      is reported exactly when the run got past its last batch and nothing checked
      before it holds. */
  lemma BoundReasons(w: World, limits: Limits, r: Report, kind: string)
    requires IsReport(w, limits, r)
    ensures var n := r.batches;
            var past := PastLast(w, limits, n);
            && (r.stopReason == MaxBatches <==> past && n >= limits.maxBatches)
            && (r.stopReason == MaxMinutes <==>
                  past && n < limits.maxBatches && w.clock(n + 1) - w.clock(0) >= 60.0 * limits.maxMinutes)
            && (r.stopReason == LatencyGuardSkip <==> past && InTime(w, limits, n) && w.guard(n) == "skip")
            && (r.stopReason == RunRaised(kind) <==>
                  past && InTime(w, limits, n) && w.guard(n) != "skip" && w.batch(n) == Raised(kind))
  {
    EndsPastLast(w, limits, r);
    if PastLast(w, limits, r.batches) {
      StopBeforeReads(w, limits, r.batches);
    }
  }

  /** Every batch before the last let the run go on, in time and past the guard. */
  lemma EarlierBatchesGoOn(w: World, limits: Limits, r: Report, k: nat)
    requires IsReport(w, limits, r) && k < r.batches
    ensures w.batch(k).Returned? && !UnderLimits(w.state(k), limits) && InTime(w, limits, k) && w.guard(k) != "skip"
    ensures k + 1 < r.batches ==> LetsGoOn(w.batch(k).result, TimedOutBefore(w, k), w.state(k + 1), limits)
  {
    assert w.batch(k).Returned? && StopBefore(w, limits, k) == None;
    assert !UnderLimits(w.state(k), limits);
    StopBeforeReads(w, limits, k);
    if k + 1 < r.batches {
      assert StopAfter(w, limits, k) == None;
      StopAfterReads(w, limits, k);
    }
  }

  /** The minutes are those from the first reading of the clock to the last, to the
      nearest tenth; the clock is read once before the loop, once for each check of
      the time, and once at the end. */
  lemma MinutesAreNearest(w: World, limits: Limits, r: Report)
    requires IsReport(w, limits, r)
    ensures var n := r.batches;
            var late := r.stopReason.MaxMinutes? || r.stopReason.LatencyGuardSkip? || r.stopReason.RunRaised?;
            var seconds := w.clock(if late then n + 2 else n + 1) - w.clock(0);
            IsNearest(r.minutes, seconds / 60.0, 10.0)
  {
    var n := r.batches;
    if n > 0 {
      StopAfterReads(w, limits, n - 1);
    }
    var late := r.stopReason.MaxMinutes? || r.stopReason.LatencyGuardSkip? || r.stopReason.RunRaised?;
    var call := if late then n + 2 else n + 1;
    assert r.minutes == ReportedAt(w, call);
    RoundToIsNearest(Elapsed(w, call), 10.0);
  }
}
