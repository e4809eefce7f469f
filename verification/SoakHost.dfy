/**
 * One soak tick against a host that keeps its runs: the clock only goes
 * forward, any port call may fail before or after it took effect, and a tick
 * that fails starts again from the checkpoint that was last saved.
 */
module SoakHost {
  import opened Options
  import opened Soak
  import opened SoakSize

  /** Dates end here, in milliseconds. */
  const LAST_DATE := 8_640_000_000_000_000

  /**
   * How a saved checkpoint and the server's runs belong together: one run per
   * sequence number, every completed one recorded, and at most one more, which
   * exists only behind a saved intent.
   */
  ghost predicate Consistent(cp: Checkpoint, runs: map<int, RunId>, nextRun: RunId, now: int) {
    WellFormed(cp) && LastAt(cp) <= now && TimesConsistent(cp) && PendingConsistent(cp, now) && RunsConsistent(cp, runs, nextRun)
  }

  /** Only a complete checkpoint was observed after its end, and none later than the horizon. */
  predicate TimesConsistent(cp: Checkpoint) {
    Horizon(cp) <= MAX_SAFE_INTEGER && LastAt(cp) <= Horizon(cp) && (!cp.complete ==> LastAt(cp) < cp.endAt)
  }

  ghost predicate PendingConsistent(cp: Checkpoint, now: int) {
    cp.pending.Some? ==>
      Slot(cp, |cp.completed|) <= cp.pending.value.submittedAt <= now &&
      CompletedBefore(cp, |cp.completed|) <= cp.pending.value.submittedAt
  }

  ghost predicate RunsConsistent(cp: Checkpoint, runs: map<int, RunId>, nextRun: RunId) {
    (forall k <- runs :: 1 <= k <= |cp.completed| + 1 && runs[k] < nextRun) &&
    (forall j, k :: j in runs && k in runs && j != k ==> runs[j] != runs[k]) &&
    (forall i :: 0 <= i < |cp.completed| ==> RecordedRun(cp.completed[i], runs, i + 1)) &&
    (cp.pending.None? ==> |cp.completed| + 1 !in runs) &&
    (cp.pending.Some? && cp.pending.value.runId.Some? ==>
       |cp.completed| + 1 in runs && runs[|cp.completed| + 1] == cp.pending.value.runId.value)
  }

  /** The completed entry names the server's run under its own key. */
  ghost predicate RecordedRun(entry: Completion, runs: map<int, RunId>, key: int) {
    key in runs && runs[key] == entry.runId
  }

  ghost predicate RunsGrow(before: map<int, RunId>, after: map<int, RunId>) {
    forall k <- before :: k in after && after[k] == before[k]
  }

  /** What the host answers during one tick. */
  datatype Answers = Answers(
    resident: Resident, completesAt: int, ledgerDigest: Digest, markerDigest: Digest, resource: Resource)

  datatype Saved = Written | SaveFailed | Rejected | Early

  datatype Progress =
    | Finished
    | Waiting(nextAt: int)
    | Advanced(tick: Tick, complete: bool, nextAt: int)
    | Failed
    | EndedEarly         // the end of the budget passed before every run was submitted
    | SaveRejected       // the validator refused a checkpoint the tick was about to save

  /** The observed process is the one of the first sample, and within its limits. */
  predicate Acceptable(cp: Checkpoint, answers: Answers) {
    ResourceOk(answers.resource) && answers.resource.resident == answers.resident &&
    (cp.samples != [] ==>
       answers.resident == cp.samples[0].resource.resident &&
       SameClock(cp.samples[|cp.samples| - 1].resource, answers.resource)) &&
    answers.resource.residentRssBytes <= MAX_RSS_BYTES &&
    answers.resource.diskAvailableBytes >= MIN_DISK_BYTES &&
    answers.resource.stateBytes <= MAX_STATE_BYTES &&
    answers.resource.userJournalBytes <= MAX_JOURNAL_BYTES
  }

  predicate SameClock(previous: Resource, next: Resource) {
    next.residentCpuTicks >= previous.residentCpuTicks && next.clockTicksPerSecond == previous.clockTicksPerSecond
  }

  /** All samples of a valid checkpoint observed one process. */
  lemma {:induction false} OneResident(cp: Checkpoint, i: nat)
    requires WellFormed(cp) && i < |cp.samples|
    ensures cp.samples[i].resource.resident == cp.samples[0].resource.resident
  {
    if i > 0 {
      assert SampleOk(cp, i);
      OneResident(cp, i - 1);
    }
  }

  lemma {:induction false} TimesAreOrdered(cp: Checkpoint)
    requires WellFormed(cp) && !cp.complete
    ensures CompletedBefore(cp, |cp.completed|) <= LastAt(cp)
    ensures cp.startedAt <= LastAt(cp)
  {
    if cp.samples != [] {
      assert SampleOk(cp, |cp.samples| - 1);
      ObservedSinceStart(cp, |cp.samples|);
    }
  }

  lemma {:induction false} ObservedSinceStart(cp: Checkpoint, i: nat)
    requires WellFormed(cp) && i <= |cp.samples|
    ensures cp.startedAt <= ObservedBefore(cp, i)
  {
    if i > 0 {
      assert SampleOk(cp, i - 1);
      ObservedSinceStart(cp, i - 1);
    }
  }

  /** The checkpoint with its next intent recorded. */
  function WithIntent(cp: Checkpoint, submittedAt: int): Checkpoint {
    cp.(pending := Some(Pending(|cp.completed| + 1, None, submittedAt)))
  }

  lemma IntentIsConsistent(cp: Checkpoint, runs: map<int, RunId>, nextRun: RunId, startedAt: int, now: int)
    requires Consistent(cp, runs, nextRun, startedAt) && Assess(cp, startedAt) == Due && cp.pending.None?
    requires |cp.completed| < ExpectedRuns(cp) && startedAt <= now < startedAt + TICK_BUDGET_MS
    ensures Consistent(WithIntent(cp, now), runs, nextRun, now) && Extends(cp, WithIntent(cp, now))
  {
    TimesAreOrdered(cp);
    var next := WithIntent(cp, now);
    assert forall i :: 0 <= i < |cp.completed| ==> CompletionOk(cp, i) ==> CompletionOk(next, i);
    assert forall i :: 0 <= i < |cp.samples| ==> SampleOk(cp, i) ==> SampleOk(next, i);
  }

  function WithRun(cp: Checkpoint, runId: RunId): Checkpoint
    requires cp.pending.Some?
  {
    cp.(pending := Some(cp.pending.value.(runId := Some(runId))))
  }

  lemma RunIsConsistent(cp: Checkpoint, runs: map<int, RunId>, nextRun: RunId, now: int)
    requires Consistent(cp, runs, nextRun, now) && cp.pending.Some? && cp.pending.value.sequence in runs
    ensures var next := WithRun(cp, runs[cp.pending.value.sequence]);
      Consistent(next, runs, nextRun, now) && Extends(cp, next)
  {
    var next := WithRun(cp, runs[cp.pending.value.sequence]);
    assert forall i :: 0 <= i < |cp.completed| ==> CompletionOk(cp, i) ==> CompletionOk(next, i);
    assert forall i :: 0 <= i < |cp.samples| ==> SampleOk(cp, i) ==> SampleOk(next, i);
    forall entry <- cp.completed
      ensures entry.runId != next.pending.value.runId.value
    {
      var i :| 0 <= i < |cp.completed| && cp.completed[i] == entry;
      assert RecordedRun(entry, runs, i + 1);
    }
  }

  /** A tick that may finish: it started when due, and its readings and answers are in order. */
  ghost predicate Finishing(cp: Checkpoint, tick: Tick, answers: Answers) {
    WellFormed(cp) && TimesConsistent(cp) && LastAt(cp) <= tick.startedAt && PendingConsistent(cp, tick.completedAt) &&
    Assess(cp, tick.startedAt) == Due && InBudget(tick) &&
    Acceptable(cp, answers) && tick.resource == answers.resource &&
    (|cp.completed| < ExpectedRuns(cp) ==>
       cp.pending.Some? && cp.pending.value.runId == Some(tick.runId) && tick.submittedAt == cp.pending.value.submittedAt)
  }

  lemma CompletionsStayOk(cp: Checkpoint, tick: Tick, answers: Answers)
    requires Finishing(cp, tick, answers)
    ensures forall i :: 0 <= i < |After(cp, tick).completed| ==> CompletionOk(After(cp, tick), i)
  {
    var next := After(cp, tick);
    forall i | 0 <= i < |next.completed|
      ensures CompletionOk(next, i)
    {
      if i < |cp.completed| {
        assert CompletionOk(cp, i);
      }
    }
  }

  lemma SamplesStayOk(cp: Checkpoint, tick: Tick, answers: Answers)
    requires Finishing(cp, tick, answers)
    ensures forall i :: 0 <= i < |After(cp, tick).samples| ==> SampleOk(After(cp, tick), i)
  {
    var next := After(cp, tick);
    forall i | 0 <= i < |next.samples|
      ensures SampleOk(next, i)
    {
      if i < |cp.samples| {
        assert SampleOk(cp, i);
      } else if i > 0 {
        OneResident(cp, i - 1);
      }
    }
  }

  lemma RunsStayDistinct(cp: Checkpoint, tick: Tick, answers: Answers)
    requires Finishing(cp, tick, answers)
    ensures RunsDistinct(After(cp, tick).completed)
  {
    var next := After(cp, tick);
    assert forall i :: 0 <= i < |cp.completed| ==> next.completed[i] == cp.completed[i] && cp.completed[i] in cp.completed;
  }

  /** Completion and sample together leave a checkpoint whose contents the validator accepts. */
  lemma AfterIsWellFormed(cp: Checkpoint, tick: Tick, answers: Answers)
    requires Finishing(cp, tick, answers)
    ensures WellFormed(After(cp, tick)) && TimesConsistent(After(cp, tick)) && Extends(cp, After(cp, tick))
    ensures After(cp, tick).complete <==> |cp.completed| == ExpectedRuns(cp)
  {
    CompletionsStayOk(cp, tick, answers);
    SamplesStayOk(cp, tick, answers);
    RunsStayDistinct(cp, tick, answers);
    assert |cp.completed| == ExpectedRuns(cp) ==> cp.pending.None?;
  }

  lemma RunsStayConsistent(cp: Checkpoint, runs: map<int, RunId>, nextRun: RunId, tick: Tick, answers: Answers)
    requires Finishing(cp, tick, answers) && RunsConsistent(cp, runs, nextRun)
    ensures RunsConsistent(After(cp, tick), runs, nextRun)
  {
    var next, n := After(cp, tick), |cp.completed|;
    forall i | 0 <= i < |next.completed|
      ensures RecordedRun(next.completed[i], runs, i + 1)
    {
      if i < n {
        assert RecordedRun(cp.completed[i], runs, i + 1);
      }
    }
  }

  lemma AfterIsConsistent(
    cp: Checkpoint, runs: map<int, RunId>, nextRun: RunId, tick: Tick, answers: Answers, now: int)
    requires Finishing(cp, tick, answers) && RunsConsistent(cp, runs, nextRun) && tick.observedAt <= now
    ensures Consistent(After(cp, tick), runs, nextRun, now) && Extends(cp, After(cp, tick))
  {
    AfterIsWellFormed(cp, tick, answers);
    RunsStayConsistent(cp, runs, nextRun, tick, answers);
  }

  /** Time alone disturbs nothing. */
  lemma LaterIsConsistent(cp: Checkpoint, runs: map<int, RunId>, nextRun: RunId, now: int, later: int)
    requires Consistent(cp, runs, nextRun, now) && now <= later
    ensures Consistent(cp, runs, nextRun, later)
  {
  }

  /** A checkpoint without an intent is consistent from its last observation on. */
  lemma ConsistentAt(cp: Checkpoint, runs: map<int, RunId>, nextRun: RunId, earlier: int, now: int)
    requires Consistent(cp, runs, nextRun, now) && cp.pending.None? && LastAt(cp) <= earlier <= now
    ensures Consistent(cp, runs, nextRun, earlier)
  {
  }

  /** While a due tick is inside its budget, both readings of the clock agree about the end. */
  lemma EndsOnTime(cp: Checkpoint, startedAt: int, observedAt: int, terminal: int)
    requires WellFormed(cp) && Assess(cp, startedAt) == Due
    requires startedAt <= observedAt <= terminal < startedAt + TICK_BUDGET_MS
    ensures terminal >= cp.endAt <==> observedAt >= cp.endAt
    ensures terminal >= cp.endAt ==> |cp.completed| == ExpectedRuns(cp) == |cp.samples|
  {
  }

  /** The idempotent start of a run keeps the books in order behind a recorded intent. */
  lemma StartIsConsistent(cp: Checkpoint, runs: map<int, RunId>, nextRun: RunId, now: int)
    requires Consistent(cp, runs, nextRun, now) && cp.pending.Some? && cp.pending.value.sequence !in runs
    ensures Consistent(cp, runs[cp.pending.value.sequence := nextRun], nextRun + 1, now)
  {
    var grown := runs[cp.pending.value.sequence := nextRun];
    forall i | 0 <= i < |cp.completed|
      ensures RecordedRun(cp.completed[i], grown, i + 1)
    {
      assert RecordedRun(cp.completed[i], runs, i + 1);
    }
  }

  class SoakWorld {
    var disk: Checkpoint
    var runs: map<int, RunId>
    var nextRun: RunId
    var now: int
    /** How far the clock moves between two readings of it. */
    var pace: seq<nat>
    /** Which of the next port calls fail; a failing start or save may already have taken effect. */
    var faults: seq<bool>

    constructor (disk: Checkpoint, now: int, pace: seq<nat>, faults: seq<bool>)
      requires Valid(disk) && disk.completed == [] && disk.samples == [] && disk.pending.None? && !disk.complete
      requires disk.startedAt <= now <= LAST_DATE
      ensures this.disk == disk && this.now == now && this.pace == pace && this.faults == faults && runs == map[]
      ensures Sound() && Fits(this.disk)
    {
      this.disk, this.now, this.pace, this.faults := disk, now, pace, faults;
      this.runs, this.nextRun := map[], 0;
    }

    /** What was saved is in agreement with the server. */
    ghost predicate Sound()
      reads this
    {
      Consistent(disk, runs, nextRun, now)
    }

    method Now() returns (t: int)
      requires Sound()
      modifies this`now, this`pace
      ensures Sound() && t == now >= old(now)
      ensures old(pace) == [] ==> pace == [] && now == old(now)
    {
      if pace != [] {
        LaterIsConsistent(disk, runs, nextRun, now, now + pace[0]);
        now, pace := now + pace[0], pace[1..];
      }
      t := now;
    }

    method Faulty() returns (fault: bool)
      modifies this`faults
      ensures old(faults) == [] ==> faults == [] && !fault
    {
      fault := false;
      if faults != [] {
        fault, faults := faults[0], faults[1..];
      }
    }

    /** One awaited port call, followed by the tick's own deadline check. */
    method Port(deadline: int) returns (ok: bool)
      requires Sound()
      modifies this`now, this`pace, this`faults
      ensures Sound() && now >= old(now) && (ok ==> now < deadline)
      ensures Still(old(pace), old(faults)) ==> Still(pace, faults) && now == old(now) && (ok <==> now < deadline)
    {
      var fault := Faulty();
      var t := Now();
      ok := !fault && t < deadline;
    }

    method Wait(deadline: int)
      requires Sound()
      modifies this`now
      ensures Sound() && now > old(now)
    {
      var rest := if deadline - now > 1 then deadline - now else 1;
      var later := now + (if rest < 1000 then rest else 1000);
      LaterIsConsistent(disk, runs, nextRun, now, later);
      now := later;
    }

    /** The server answers one key with one run, whether or not the answer arrives. */
    method StartRun() returns (runId: RunId)
      requires Sound() && disk.pending.Some?
      modifies this`runs, this`nextRun
      ensures Sound() && RunsGrow(old(runs), runs)
      ensures disk.pending.value.sequence in runs && runId == runs[disk.pending.value.sequence]
    {
      var key := disk.pending.value.sequence;
      if key !in runs {
        StartIsConsistent(disk, runs, nextRun, now);
        runs, nextRun := runs[key := nextRun], nextRun + 1;
      }
      runId := runs[key];
    }

    /**
     * Check the deadline, validate, and save; the save may be lost, or only its
     * answer.  The validator refuses exactly what is too long.
     */
    method Save(cp: Checkpoint, deadline: int) returns (saved: Saved)
      requires Sound() && Extends(disk, cp)
      requires now < deadline ==> Consistent(cp, runs, nextRun, now)
      modifies this`disk, this`now, this`pace, this`faults
      ensures Sound() && now >= old(now) && (old(Fits(disk)) ==> Fits(disk))
      ensures disk == old(disk) || disk == cp
      ensures saved == Rejected <==> now < deadline && !Fits(cp)
      ensures saved == Rejected ==> disk == old(disk)
      ensures saved == Written ==> disk == cp && now < deadline
      ensures saved != Early
      ensures Still(old(pace), old(faults)) ==>
                now == old(now) && (now < deadline && Fits(cp) ==> saved == Written && Still(pace, faults))
    {
      var t := Now();
      if t >= deadline {
        return SaveFailed;
      }
      LaterIsConsistent(cp, runs, nextRun, old(now), now);
      var valid := Validate(cp);
      if !valid {
        return Rejected;
      }
      saved := Write(cp, deadline);
    }

    /** Write a checkpoint that passed the validator. */
    method Write(cp: Checkpoint, deadline: int) returns (saved: Saved)
      requires Sound() && Consistent(cp, runs, nextRun, now) && Fits(cp) && now < deadline
      modifies this`disk, this`now, this`pace, this`faults
      ensures Sound() && now >= old(now) && (old(Fits(disk)) ==> Fits(disk))
      ensures disk == old(disk) || disk == cp
      ensures saved == SaveFailed || (saved == Written && disk == cp && now < deadline)
      ensures Still(old(pace), old(faults)) ==> Still(pace, faults) && now == old(now) && saved == Written
    {
      var lost := Faulty();
      if lost {
        return SaveFailed;
      }
      disk := cp;
      var ok := Port(deadline);
      saved := if ok then Written else SaveFailed;
    }

    /** Retain the intent before anything is started, unless an earlier tick already did. */
    method RecordIntent(startedAt: int, ghost width: nat) returns (saved: Saved)
      requires Sound() && startedAt <= now && LastAt(disk) <= startedAt
      requires Assess(disk, startedAt) == Due && |disk.completed| < ExpectedRuns(disk)
      modifies this`disk, this`now, this`pace, this`faults
      ensures Sound() && now >= old(now) && (old(Fits(disk)) ==> Fits(disk))
      ensures OnlyPendingChanged(old(disk), disk)
      ensures saved == Rejected ==> !Spacious(old(disk), width)
      ensures saved == Written ==> disk.pending.Some?
      ensures old(disk).pending.Some? ==> disk == old(disk)
      ensures saved == Written && old(disk).pending.None? ==> startedAt <= disk.pending.value.submittedAt <= now
      ensures saved != Early
      ensures Still(old(pace), old(faults)) && old(now) == startedAt ==>
                now == old(now) && (saved == Rejected || (saved == Written && Still(pace, faults)))
    {
      var t := Now();
      if t >= disk.endAt {
        return SaveFailed;
      }
      if disk.pending.Some? {
        return Written;
      }
      saved := SaveIntent(startedAt, width);
    }

    method SaveIntent(startedAt: int, ghost width: nat) returns (saved: Saved)
      requires Sound() && startedAt <= now && LastAt(disk) <= startedAt
      requires Assess(disk, startedAt) == Due && |disk.completed| < ExpectedRuns(disk) && disk.pending.None?
      modifies this`disk, this`now, this`pace, this`faults
      ensures Sound() && now >= old(now) && (old(Fits(disk)) ==> Fits(disk))
      ensures disk == old(disk) || (saved != Rejected && Intended(old(disk), disk) && startedAt <= disk.pending.value.submittedAt <= now)
      ensures saved == Written ==> disk.pending.Some?
      ensures saved == Rejected ==> !Spacious(old(disk), width)
      ensures saved != Early
      ensures Still(old(pace), old(faults)) && old(now) == startedAt ==>
                now == old(now) && (saved == Rejected || (saved == Written && Still(pace, faults)))
    {
      var submittedAt := Now();
      if now < startedAt + TICK_BUDGET_MS {
        ConsistentAt(disk, runs, nextRun, startedAt, now);
        IntentIsReady(disk, runs, nextRun, startedAt, submittedAt, width);
      }
      saved := Save(WithIntent(disk, submittedAt), startedAt + TICK_BUDGET_MS);
    }

    /** Poll the run until it is completed or the tick runs out of time. */
    method Follow(completesAt: int, deadline: int) returns (ok: bool)
      requires Sound()
      modifies this`now, this`pace, this`faults
      ensures Sound() && now >= old(now) && (ok ==> completesAt <= now < deadline)
      ensures Still(old(pace), old(faults)) && completesAt <= old(now) < deadline ==>
                Still(pace, faults) && now == old(now) && ok
    {
      ok := Port(deadline);
      while ok && now < completesAt
        invariant Sound() && now >= old(now) && (ok ==> now < deadline)
        invariant Still(old(pace), old(faults)) && completesAt <= old(now) < deadline ==>
                    Still(pace, faults) && now == old(now) && ok
        decreases deadline - now, ok
      {
        Wait(deadline);
        ok := Port(deadline);
      }
    }

    /** Start the pending run and retain its ID. */
    method StartPending(startedAt: int, ghost width: nat) returns (done: Saved)
      requires Sound() && disk.pending.Some?
      modifies this
      ensures Sound() && now >= old(now) && (old(Fits(disk)) ==> Fits(disk))
      ensures OnlyPendingChanged(old(disk), disk) && RunsGrow(old(runs), runs)
      ensures disk.pending.Some? && disk.pending.value.submittedAt == old(disk).pending.value.submittedAt
      ensures done == Rejected ==> !Spacious(old(disk), width)
      ensures done == Written ==> disk.pending.value.runId.Some? && now < startedAt + TICK_BUDGET_MS
      ensures done != Early
      ensures Still(old(pace), old(faults)) && old(now) == startedAt ==>
                now == old(now) && (done == Rejected || (done == Written && Still(pace, faults)))
    {
      var deadline := startedAt + TICK_BUDGET_MS;
      done := SaveFailed;
      var ok := Port(deadline);
      if !ok {
        return;
      }
      var runId := StartRun();
      ok := Port(deadline);
      if !ok || (disk.pending.value.runId.Some? && disk.pending.value.runId.value != runId) {
        return;  // an idempotent server never gives the second reason
      }
      RunIsReady(disk, runs, nextRun, now, width);
      done := Save(WithRun(disk, runId), deadline);
    }

    /** Start the pending run, retain its ID, and follow it to its end. */
    method Workflow(startedAt: int, answers: Answers, ghost width: nat) returns (done: Saved)
      requires Sound() && disk.pending.Some?
      modifies this
      ensures Sound() && now >= old(now) && (old(Fits(disk)) ==> Fits(disk))
      ensures OnlyPendingChanged(old(disk), disk) && RunsGrow(old(runs), runs)
      ensures disk.pending.Some? && disk.pending.value.submittedAt == old(disk).pending.value.submittedAt
      ensures done == Rejected ==> !Spacious(old(disk), width)
      ensures done == Written ==> disk.pending.value.runId.Some? && answers.completesAt <= now < startedAt + TICK_BUDGET_MS
      ensures done != Early
      ensures Still(old(pace), old(faults)) && old(now) == startedAt && answers.completesAt <= startedAt ==>
                now == old(now) && (done == Rejected || (done == Written && Still(pace, faults)))
    {
      var deadline := startedAt + TICK_BUDGET_MS;
      done := StartPending(startedAt, width);
      if done != Written {
        return;
      }
      done := SaveFailed;
      var ok := Follow(answers.completesAt, deadline);
      if !ok {
        return;
      }
      ok := Port(deadline);
      if ok {
        done := Written;
      }
    }

    /** Observe the resources and decide whether this is the end; the clock is read twice. */
    method Conclude(startedAt: int, submittedAt: int, completedAt: int, answers: Answers)
      returns (ready: Saved, tick: Tick, complete: bool)
      requires Sound() && startedAt <= completedAt <= now
      requires LastAt(disk) <= startedAt && Assess(disk, startedAt) == Due && Acceptable(disk, answers)
      requires PendingConsistent(disk, completedAt)
      requires |disk.completed| < ExpectedRuns(disk) ==>
        disk.pending.Some? && disk.pending.value.runId.Some? && submittedAt == disk.pending.value.submittedAt
      modifies this`now, this`pace, this`faults
      ensures Sound() && now >= old(now) && (ready == Written || ready == SaveFailed || ready == Early)
      ensures ready == Written ==> Finishing(disk, tick, answers) && now < startedAt + TICK_BUDGET_MS && tick.observedAt <= now
      ensures ready == Written ==> complete == After(disk, tick).complete
      ensures ReadBy(tick, startedAt, submittedAt, completedAt, answers)
      ensures |old(disk).completed| < ExpectedRuns(old(disk)) ==> old(disk) == Submitted(old(disk), tick)
      ensures ready == Early ==> now >= startedAt + TICK_BUDGET_MS
      ensures Still(old(pace), old(faults)) && old(now) == startedAt ==>
                Still(pace, faults) && now == old(now) == tick.observedAt && ready == Written
    {
      var deadline := startedAt + TICK_BUDGET_MS;
      var observedAt := Now();
      tick := Tick(startedAt, submittedAt,
                   if disk.pending.Some? && disk.pending.value.runId.Some? then disk.pending.value.runId.value else 0,
                   completedAt, answers.ledgerDigest, answers.markerDigest, observedAt, answers.resource);
      ready := Written;
      var terminal := Now();
      if terminal < deadline {
        EndsOnTime(disk, startedAt, observedAt, terminal);
      }
      complete := terminal >= disk.endAt;
      if complete {
        if |CompletedBy(disk, tick)| != ExpectedRuns(disk) || |disk.samples| + 1 != ExpectedRuns(disk) + 1 {
          return Early, tick, complete;
        }
        var ok := Port(deadline);
        if !ok {
          return SaveFailed, tick, complete;
        }
      }
      if now >= deadline {
        ready := SaveFailed;
      }
    }

    /** Commit the completion together with its sample. */
    method Commit(startedAt: int, submittedAt: int, completedAt: int, answers: Answers, ghost width: nat)
      returns (saved: Saved, tick: Tick)
      requires Sound() && startedAt <= completedAt <= now
      requires LastAt(disk) <= startedAt && Assess(disk, startedAt) == Due && Acceptable(disk, answers)
      requires PendingConsistent(disk, completedAt)
      requires |disk.completed| < ExpectedRuns(disk) ==>
        disk.pending.Some? && disk.pending.value.runId.Some? && submittedAt == disk.pending.value.submittedAt
      modifies this`disk, this`now, this`pace, this`faults
      ensures Sound() && now >= old(now) && (old(Fits(disk)) ==> Fits(disk))
      ensures disk == old(disk) || (saved != Rejected && disk == After(old(disk), tick) && Extends(old(disk), disk))
      ensures saved == Rejected ==> !(Spacious(old(disk), width) && ResourceBytes(answers.resource) <= width)
      ensures saved == Written ==> disk == After(old(disk), tick) && InBudget(tick)
      ensures ReadBy(tick, startedAt, submittedAt, completedAt, answers)
      ensures |old(disk).completed| < ExpectedRuns(old(disk)) ==> old(disk) == Submitted(old(disk), tick)
      ensures saved == Early ==> now >= startedAt + TICK_BUDGET_MS
      ensures Still(old(pace), old(faults)) && old(now) == startedAt ==>
                now == old(now) == tick.observedAt && (saved == Rejected || (saved == Written && Still(pace, faults)))
    {
      var complete;
      saved, tick, complete := Conclude(startedAt, submittedAt, completedAt, answers);
      if saved == Written {
        saved := SaveAfter(tick, complete, answers, width);
      }
    }

    method SaveAfter(tick: Tick, complete: bool, answers: Answers, ghost width: nat) returns (saved: Saved)
      requires Sound() && Finishing(disk, tick, answers) && tick.observedAt <= now < tick.startedAt + TICK_BUDGET_MS
      requires complete == After(disk, tick).complete
      modifies this`disk, this`now, this`pace, this`faults
      ensures Sound() && now >= old(now) && (old(Fits(disk)) ==> Fits(disk))
      ensures disk == old(disk) || (saved != Rejected && disk == After(old(disk), tick) && Extends(old(disk), disk))
      ensures saved == Rejected ==> !(Spacious(old(disk), width) && ResourceBytes(tick.resource) <= width)
      ensures saved == Written ==> disk == After(old(disk), tick)
      ensures saved != Early
      ensures Still(old(pace), old(faults)) ==>
                now == old(now) && (saved == Rejected || (saved == Written && Still(pace, faults)))
    {
      var next := After(disk, tick).(complete := complete);
      assert next == After(disk, tick);
      AfterIsReady(disk, runs, nextRun, tick, answers, now, width);
      saved := Save(next, tick.startedAt + TICK_BUDGET_MS);
    }

    /** Bring the next scheduled run, if there is one, to its end. */
    method Submit(startedAt: int, answers: Answers, ghost width: nat) returns (done: Saved)
      requires Sound() && startedAt <= now && LastAt(disk) <= startedAt
      requires Assess(disk, startedAt) == Due
      modifies this
      ensures Sound() && now >= old(now) && (old(Fits(disk)) ==> Fits(disk))
      ensures OnlyPendingChanged(old(disk), disk) && RunsGrow(old(runs), runs) && done != Early
      ensures done == Rejected ==> !Spacious(old(disk), width)
      ensures done == Written && |disk.completed| < ExpectedRuns(disk) ==>
                disk.pending.Some? && disk.pending.value.runId.Some? && answers.completesAt <= now &&
                (old(disk).pending.None? ==> startedAt <= disk.pending.value.submittedAt <= now)
      ensures |disk.completed| >= ExpectedRuns(disk) ==> disk == old(disk)
      ensures Still(old(pace), old(faults)) && old(now) == startedAt && answers.completesAt <= startedAt ==>
                now == old(now) && (done == Rejected || (done == Written && Still(pace, faults)))
    {
      done := Written;
      if |disk.completed| < ExpectedRuns(disk) {
        ghost var before := disk;
        done := RecordIntent(startedAt, width);
        if done == Written {
          SpaciousStays(before, disk, width);
          done := Workflow(startedAt, answers, width);
        }
      }
    }

    /** Observe the host again, and commit. */
    method Settle(startedAt: int, answers: Answers, ghost width: nat) returns (r: Progress, ghost tick: Tick)
      requires Sound() && startedAt <= now && LastAt(disk) <= startedAt && Assess(disk, startedAt) == Due
      requires |disk.completed| < ExpectedRuns(disk) ==>
        disk.pending.Some? && disk.pending.value.runId.Some? && answers.completesAt <= now
      modifies this`disk, this`now, this`pace, this`faults
      ensures Sound() && now >= old(now) && (old(Fits(disk)) ==> Fits(disk))
      ensures r.Advanced? || r.Failed? || r.EndedEarly? || r.SaveRejected?
      ensures Leaves(old(disk), disk, tick, answers)
      ensures r.Advanced? ==>
                Reports(old(disk), disk, r, tick, startedAt, answers) && old(now) <= tick.completedAt && tick.observedAt <= now
      ensures r.Advanced? && |old(disk).completed| < ExpectedRuns(old(disk)) ==> old(disk) == Submitted(old(disk), tick)
      ensures r.SaveRejected? ==> !(Spacious(old(disk), width) && ResourceBytes(answers.resource) <= width)
      ensures r == EndedEarly ==> now >= startedAt + TICK_BUDGET_MS
      ensures Still(old(pace), old(faults)) && old(now) == startedAt && Acceptable(old(disk), answers) ==>
                now == old(now) && (r.SaveRejected? || (r.Advanced? && Still(pace, faults)))
    {
      r, tick := Failed, *;
      var submittedAt := if disk.pending.Some? then disk.pending.value.submittedAt else 0;
      var ok, completedAt := LookAgain(startedAt, answers);
      if ok {
        ghost var before := disk;
        var saved, read := Commit(startedAt, submittedAt, completedAt, answers, width);
        r, tick := Reported(saved, read, disk), read;
        ReportOf(before, disk, saved, read, startedAt, submittedAt, completedAt, answers, r);
      }
    }

    /** The resources, once the run is over, have to be acceptable. */
    method LookAgain(startedAt: int, answers: Answers) returns (ok: bool, completedAt: int)
      requires Sound() && startedAt <= now
      modifies this`now, this`pace, this`faults
      ensures Sound() && old(now) <= completedAt <= now && (ok ==> Acceptable(disk, answers))
      ensures Still(old(pace), old(faults)) && old(now) == startedAt ==>
                Still(pace, faults) && now == old(now) && (ok <==> Acceptable(disk, answers))
    {
      completedAt := Now();
      ok := Port(startedAt + TICK_BUDGET_MS);
      var acceptable := Accepts(answers);
      ok := ok && acceptable;
    }

    /** The tests of one observation against the history and the limits. */
    method Accepts(answers: Answers) returns (ok: bool)
      requires Sound()
      ensures ok <==> Acceptable(disk, answers)
    {
      var resource := answers.resource;
      if !ResourceOk(resource) || resource.resident != answers.resident {
        return false;
      }
      if disk.samples != [] {
        var first, previous := disk.samples[0].resource, disk.samples[|disk.samples| - 1].resource;
        if answers.resident != first.resident || resource.residentCpuTicks < previous.residentCpuTicks ||
           resource.clockTicksPerSecond != previous.clockTicksPerSecond {
          return false;
        }
      }
      return resource.residentRssBytes <= MAX_RSS_BYTES && resource.diskAvailableBytes >= MIN_DISK_BYTES &&
             resource.stateBytes <= MAX_STATE_BYTES && resource.userJournalBytes <= MAX_JOURNAL_BYTES;
    }

    /** The part of a tick that follows its first look at the host. */
    method Observe(startedAt: int, answers: Answers, ghost width: nat) returns (r: Progress)
      requires Sound() && startedAt <= now && LastAt(disk) <= startedAt
      requires Assess(disk, startedAt) == Due
      modifies this
      ensures Sound() && now >= old(now) && (old(Fits(disk)) ==> Fits(disk))
      ensures RunsGrow(old(runs), runs) && Grown(old(disk), disk, answers, width)
      ensures r.Advanced? || r.Failed? || r.EndedEarly? || r.SaveRejected?
      ensures r.Advanced? ==> Progressed(old(disk), disk, r, answers) && r.tick.startedAt == startedAt && r.tick.observedAt <= now
      ensures r.Advanced? && old(Fits(disk)) && |old(disk).completed| < ExpectedRuns(old(disk)) ==> Fits(Submitted(old(disk), r.tick))
      ensures r.SaveRejected? ==> !(Spacious(old(disk), width) && ResourceBytes(answers.resource) <= width)
      ensures r == EndedEarly ==> now >= startedAt + TICK_BUDGET_MS
      ensures Still(old(pace), old(faults)) && old(now) == startedAt && Prompt(old(disk), startedAt, answers) ==>
                now == old(now) && (r.SaveRejected? || (r.Advanced? && Still(pace, faults)))
    {
      ghost var before := disk;
      var done := Submit(startedAt, answers, width);
      if done != Written {
        PendingGrown(before, disk, answers, width);
        return if done == Rejected then SaveRejected else Failed;
      }
      ghost var submitted := disk;
      ghost var submittedBy := now;
      StillDue(before, disk, startedAt);
      ghost var tick;
      r, tick := Settle(startedAt, answers, width);
      SettledGrown(before, submitted, disk, tick, startedAt, submittedBy, r, answers, width);
    }

    /** A due tick: a first look at the host, which has to be the one of the first sample. */
    method Begin(startedAt: int, answers: Answers, ghost width: nat) returns (r: Progress)
      requires Sound() && startedAt <= now && LastAt(disk) <= startedAt
      requires Assess(disk, startedAt) == Due
      modifies this
      ensures Sound() && now >= old(now) && (old(Fits(disk)) ==> Fits(disk))
      ensures RunsGrow(old(runs), runs) && Grown(old(disk), disk, answers, width)
      ensures r.Advanced? || r.Failed? || r.EndedEarly? || r.SaveRejected?
      ensures r.Advanced? ==> Progressed(old(disk), disk, r, answers) && r.tick.startedAt == startedAt && r.tick.observedAt <= now
      ensures r.Advanced? && old(Fits(disk)) && |old(disk).completed| < ExpectedRuns(old(disk)) ==> Fits(Submitted(old(disk), r.tick))
      ensures r.SaveRejected? ==> !(Spacious(old(disk), width) && ResourceBytes(answers.resource) <= width)
      ensures r == EndedEarly ==> now >= startedAt + TICK_BUDGET_MS
      ensures Still(old(pace), old(faults)) && old(now) == startedAt && Prompt(old(disk), startedAt, answers) ==>
                now == old(now) && (r.SaveRejected? || (r.Advanced? && Still(pace, faults)))
    {
      GrownBySelf(disk, answers, width);
      var ok := Port(startedAt + TICK_BUDGET_MS);
      if !ok || (disk.samples != [] && answers.resident != disk.samples[0].resource.resident) {
        return Failed;
      }
      r := Observe(startedAt, answers, width);
    }

    /**
     * Advance at most one periodic run, from the checkpoint that was last saved.
     * A save is refused only if the budget has no room for resources of the given
     * width, or a wider one was observed.
     */
    method Advance(answers: Answers, ghost width: nat) returns (r: Progress)
      requires Sound()
      modifies this
      ensures Sound() && now >= old(now) && (old(Fits(disk)) ==> Fits(disk))
      ensures RunsGrow(old(runs), runs) && Grown(old(disk), disk, answers, width)
      ensures r.SaveRejected? ==> !(Spacious(old(disk), width) && ResourceBytes(answers.resource) <= width)
      ensures r == EndedEarly ==> now >= old(now) + TICK_BUDGET_MS
      ensures old(Fits(disk)) && Still(old(pace), old(faults)) && Prompt(old(disk), old(now), answers) ==>
                now == old(now) && (r.SaveRejected? || (r.Advanced? && r.tick.startedAt == now && Still(pace, faults)))
      ensures old(Fits(disk)) ==> (old(disk).complete <==> r.Finished?)
      ensures r.Finished? || r.Waiting? ==> disk == old(disk) && runs == old(runs)
      ensures r.Waiting? ==> r == Waiting(NextAt(old(disk))) && old(disk).pending.None? && old(now) < NextAt(old(disk))
      ensures old(Fits(disk)) && Still(old(pace), old(faults)) && Assess(old(disk), old(now)) != Due ==>
                disk == old(disk) && runs == old(runs) && TellsWhy(r, Assess(old(disk), old(now)), old(disk))
      ensures r.Advanced? ==> Progressed(old(disk), disk, r, answers) && r.tick.observedAt <= now
      ensures r.Advanced? && old(Fits(disk)) && |old(disk).completed| < ExpectedRuns(old(disk)) ==> Fits(Submitted(old(disk), r.tick))
    {
      GrownBySelf(disk, answers, width);
      var usable := Validate(disk);
      if !usable || disk.complete {
        return if usable then Finished else Failed;
      }
      var startedAt := Now();
      var readiness := Assess(disk, startedAt);
      if readiness != Due {
        return if readiness == NotDue then Waiting(NextAt(disk)) else Failed;
      }
      r := Begin(startedAt, answers, width);
    }

    /**
     * Any number of ticks, whatever fails in them: history only grows, completion
     * and sample are always saved together, the server's runs stay the recorded
     * ones and at most one more, and with room for the widest resource no save is
     * ever refused.
     */
    method AdvanceAll(answers: seq<Answers>, ghost width: nat) returns (outcomes: seq<Progress>)
      requires Sound()
      modifies this
      ensures Sound() && (old(Fits(disk)) ==> Fits(disk)) && Extends(old(disk), disk) && RunsGrow(old(runs), runs)
      ensures |outcomes| == |answers|
      ensures Spacious(old(disk), width) && AllWithin(answers, width) ==> SaveRejected !in outcomes
      ensures |disk.samples| == |disk.completed| + (if disk.complete then 1 else 0)
      ensures |runs| <= |disk.completed| + 1
      ensures disk.complete ==> ExactRuns(disk, runs)
    {
      outcomes := [];
      ghost var spacious := Spacious(disk, width) && AllWithin(answers, width);
      for n := 0 to |answers|
        invariant Sound() && (old(Fits(disk)) ==> Fits(disk)) && Extends(old(disk), disk) && RunsGrow(old(runs), runs)
        invariant |outcomes| == n && (spacious ==> SamplesWithin(disk, width) && SaveRejected !in outcomes)
      {
        ghost var before := disk;
        var progress := Advance(answers[n], width);
        LongerGrown(old(disk), before, disk, answers[n], width, spacious);
        outcomes := outcomes + [progress];
      }
      BooksAgree(disk, runs, nextRun, now);
    }
  }

  /** A due tick whose host is in order and whose run completes at once. */
  predicate Prompt(cp: Checkpoint, now: int, answers: Answers) {
    Assess(cp, now) == Due && Acceptable(cp, answers) && answers.completesAt <= now
  }

  /** What a tick answers that is not due. */
  predicate TellsWhy(r: Progress, readiness: Readiness, cp: Checkpoint) {
    match readiness
    case Done => r == Finished
    case NotDue => r == Waiting(NextAt(cp))
    case _ => r == Failed
  }

  /** The clock stands still and no port call fails. */
  predicate Still(pace: seq<nat>, faults: seq<bool>) {
    pace == [] && faults == []
  }

  /** The tick carries the evidence that was observed. */
  predicate Bears(tick: Tick, answers: Answers) {
    tick.ledgerDigest == answers.ledgerDigest && tick.markerDigest == answers.markerDigest && tick.resource == answers.resource
  }

  /**
   * What was added to the history is what this tick observed: an acceptable
   * resource, and with a completion the digests of its own run, once it was over.
   */
  predicate Retained(before: Checkpoint, after: Checkpoint, answers: Answers) {
    (|after.samples| > |before.samples| ==>
       Acceptable(before, answers) && after.samples[|after.samples| - 1].resource == answers.resource) &&
    (|after.completed| > |before.completed| ==>
       |after.samples| > |before.samples| &&
       after.completed[|after.completed| - 1].ledgerDigest == answers.ledgerDigest &&
       after.completed[|after.completed| - 1].markerDigest == answers.markerDigest &&
       after.completed[|after.completed| - 1].completedAt >= answers.completesAt)
  }

  /** The tick carries these readings and answers. */
  predicate ReadBy(tick: Tick, startedAt: int, submittedAt: int, completedAt: int, answers: Answers) {
    tick.startedAt == startedAt && tick.submittedAt == submittedAt && tick.completedAt == completedAt &&
    Bears(tick, answers)
  }

  /** The length of the last resource that was observed. */
  function LastWidth(cp: Checkpoint): nat {
    if cp.samples == [] then 0 else ResourceBytes(cp.samples[|cp.samples| - 1].resource)
  }

  /** An intent was recorded, and nothing else changed. */
  predicate Intended(before: Checkpoint, after: Checkpoint) {
    after.pending.Some? && after == WithIntent(before, after.pending.value.submittedAt)
  }

  /** The budget has room for resources of this width, and no wider one was observed. */
  predicate Spacious(cp: Checkpoint, width: nat) {
    Roomy(cp, width) && SamplesWithin(cp, width)
  }

  /** The budget, and with it the room that it needs, stays the same. */
  lemma RoomStays(cp: Checkpoint, next: Checkpoint, width: nat)
    requires Extends(cp, next)
    ensures Roomy(next, width) <==> Roomy(cp, width)
  {
  }

  lemma WidthsStay(cp: Checkpoint, next: Checkpoint, width: nat)
    requires Extends(cp, next) && SamplesWithin(cp, width) && |next.samples| <= |cp.samples| + 1
    requires |next.samples| > |cp.samples| ==> LastWidth(next) <= width
    ensures SamplesWithin(next, width)
  {
    forall i | 0 <= i < |next.samples|
      ensures ResourceBytes(next.samples[i].resource) <= width
    {
      if i < |cp.samples| {
        assert next.samples[i] == cp.samples[i];
      }
    }
  }

  /** With room for its width, the next checkpoint fits. */
  lemma SpaciousFits(cp: Checkpoint, next: Checkpoint, width: nat)
    requires WellFormed(next) && TimesConsistent(next) && Extends(cp, next) && |next.samples| <= |cp.samples| + 1
    requires Spacious(cp, width) && (|next.samples| > |cp.samples| ==> LastWidth(next) <= width)
    ensures Fits(next) && Spacious(next, width)
  {
    RoomStays(cp, next, width);
    WidthsStay(cp, next, width);
    RoomyFits(next, width);
  }

  /** The checkpoint with its intent is ready to be saved, and fits if there is room. */
  lemma IntentIsReady(cp: Checkpoint, runs: map<int, RunId>, nextRun: RunId, startedAt: int, now: int, width: nat)
    requires Consistent(cp, runs, nextRun, startedAt) && Assess(cp, startedAt) == Due && cp.pending.None?
    requires |cp.completed| < ExpectedRuns(cp) && startedAt <= now < startedAt + TICK_BUDGET_MS
    ensures Consistent(WithIntent(cp, now), runs, nextRun, now) && Extends(cp, WithIntent(cp, now))
    ensures Spacious(cp, width) ==> Fits(WithIntent(cp, now))
  {
    IntentIsConsistent(cp, runs, nextRun, startedAt, now);
    if Spacious(cp, width) {
      SpaciousFits(cp, WithIntent(cp, now), width);
    }
  }

  lemma RunIsReady(cp: Checkpoint, runs: map<int, RunId>, nextRun: RunId, now: int, width: nat)
    requires Consistent(cp, runs, nextRun, now) && cp.pending.Some? && cp.pending.value.sequence in runs
    ensures var next := WithRun(cp, runs[cp.pending.value.sequence]);
      Consistent(next, runs, nextRun, now) && Extends(cp, next) && (Spacious(cp, width) ==> Fits(next))
  {
    RunIsConsistent(cp, runs, nextRun, now);
    if Spacious(cp, width) {
      SpaciousFits(cp, WithRun(cp, runs[cp.pending.value.sequence]), width);
    }
  }

  lemma AfterIsReady(
    cp: Checkpoint, runs: map<int, RunId>, nextRun: RunId, tick: Tick, answers: Answers, now: int, width: nat)
    requires Finishing(cp, tick, answers) && RunsConsistent(cp, runs, nextRun) && tick.observedAt <= now
    ensures Consistent(After(cp, tick), runs, nextRun, now) && Extends(cp, After(cp, tick))
    ensures Spacious(cp, width) && ResourceBytes(tick.resource) <= width ==> Fits(After(cp, tick))
    ensures LastWidth(After(cp, tick)) == ResourceBytes(tick.resource)
  {
    AfterIsConsistent(cp, runs, nextRun, tick, answers, now);
    if Spacious(cp, width) && ResourceBytes(tick.resource) <= width {
      SpaciousFits(cp, After(cp, tick), width);
    }
  }

  /** The retained history and budget are the same; only the pending intent may differ. */
  predicate OnlyPendingChanged(before: Checkpoint, after: Checkpoint) {
    after == before.(pending := after.pending)
  }

  /** A recorded intent makes a due tick no less due, and commits into the same next checkpoint. */
  lemma StillDue(before: Checkpoint, after: Checkpoint, startedAt: int)
    requires OnlyPendingChanged(before, after) && Assess(before, startedAt) == Due
    requires |after.completed| < ExpectedRuns(after) ==> after.pending.Some?
    requires |after.completed| >= ExpectedRuns(after) ==> after == before
    ensures Assess(after, startedAt) == Due
    ensures forall tick :: After(after, tick) == After(before, tick)
    ensures Extends(before, after)
    ensures forall answers :: Acceptable(after, answers) <==> Acceptable(before, answers)
  {
  }

  /** The checkpoint with the tick's own run submitted. */
  function Submitted(cp: Checkpoint, tick: Tick): Checkpoint {
    cp.(pending := Some(Pending(|cp.completed| + 1, Some(tick.runId), tick.submittedAt)))
  }

  function Reported(saved: Saved, tick: Tick, cp: Checkpoint): Progress {
    match saved
    case Written => Advanced(tick, cp.complete, NextAt(cp))
    case Early => EndedEarly
    case Rejected => SaveRejected
    case SaveFailed => Failed
  }

  /** The tick was committed. */
  predicate Ticked(before: Checkpoint, after: Checkpoint, tick: Tick) {
    after == After(before, tick) && Extends(before, after)
  }

  /** The tick started then, stayed inside its budget, and observed these resources. */
  predicate Took(tick: Tick, startedAt: int, answers: Answers) {
    tick.startedAt == startedAt && InBudget(tick) && Bears(tick, answers)
  }

  /** Nothing was saved, or exactly the next checkpoint with what was observed. */
  predicate Leaves(before: Checkpoint, after: Checkpoint, tick: Tick, answers: Answers) {
    after == before ||
    (Bears(tick, answers) && Acceptable(before, answers) && Ticked(before, after, tick) &&
     (|before.completed| < ExpectedRuns(before) ==> answers.completesAt <= tick.completedAt))
  }

  predicate Reports(before: Checkpoint, after: Checkpoint, r: Progress, tick: Tick, startedAt: int, answers: Answers) {
    r == Advanced(tick, after.complete, NextAt(after)) && Ticked(before, after, tick) && Took(tick, startedAt, answers)
  }

  /** What a commit leaves, and what is reported of it. */
  lemma ReportOf(
    before: Checkpoint, after: Checkpoint, saved: Saved, tick: Tick, startedAt: int, submittedAt: int, completedAt: int,
    answers: Answers, r: Progress)
    requires r == Reported(saved, tick, after) && Acceptable(before, answers)
    requires |before.completed| < ExpectedRuns(before) ==> answers.completesAt <= completedAt
    requires ReadBy(tick, startedAt, submittedAt, completedAt, answers)
    requires after == before || (after == After(before, tick) && Extends(before, after))
    requires saved == Written ==> after == After(before, tick) && InBudget(tick)
    ensures Leaves(before, after, tick, answers)
    ensures r.Advanced? ==> saved == Written && Reports(before, after, r, tick, startedAt, answers)
  {
  }

  /** The history only grew, by nothing else than these answers and not by anything wider. */
  predicate Grown(before: Checkpoint, after: Checkpoint, answers: Answers, width: nat) {
    Extends(before, after) && Retained(before, after, answers) &&
    (SamplesWithin(before, width) && ResourceBytes(answers.resource) <= width ==> SamplesWithin(after, width))
  }

  /** A tick that reports progress was due, and saved exactly the next checkpoint. */
  predicate Progressed(before: Checkpoint, after: Checkpoint, r: Progress, answers: Answers)
    requires r.Advanced?
  {
    Assess(before, r.tick.startedAt) == Due && Took(r.tick, r.tick.startedAt, answers) && after == After(before, r.tick) &&
    r.complete == after.complete && r.nextAt == NextAt(after) &&
    (before.pending.None? && |before.completed| < ExpectedRuns(before) ==>
       r.tick.startedAt <= r.tick.submittedAt <= r.tick.completedAt)
  }

  lemma GrownBySelf(cp: Checkpoint, answers: Answers, width: nat)
    ensures Grown(cp, cp, answers, width)
  {
  }

  lemma SpaciousStays(before: Checkpoint, after: Checkpoint, width: nat)
    requires OnlyPendingChanged(before, after)
    ensures Spacious(after, width) <==> Spacious(before, width)
  {
    assert Horizon(after) == Horizon(before) && ExpectedRuns(after) == ExpectedRuns(before);
    assert ShellBytes(after) == ShellBytes(before);
  }

  lemma PendingGrown(before: Checkpoint, after: Checkpoint, answers: Answers, width: nat)
    requires OnlyPendingChanged(before, after) && !before.complete
    ensures Grown(before, after, answers, width)
  {
  }

  /** What a submission and a commit make of the checkpoint together. */
  lemma SettledGrown(
    before: Checkpoint, submitted: Checkpoint, after: Checkpoint, tick: Tick, startedAt: int, submittedBy: int,
    r: Progress, answers: Answers, width: nat)
    requires OnlyPendingChanged(before, submitted) && Assess(before, startedAt) == Due
    requires |before.completed| < ExpectedRuns(before) ==>
               submitted.pending.Some? && (before.pending.None? ==> startedAt <= submitted.pending.value.submittedAt <= submittedBy)
    requires Leaves(submitted, after, tick, answers)
    requires r.Advanced? ==>
               r == Advanced(tick, after.complete, NextAt(after)) && Ticked(submitted, after, tick) &&
               Took(tick, startedAt, answers) && submittedBy <= tick.completedAt &&
               (|submitted.completed| < ExpectedRuns(submitted) ==> submitted == Submitted(submitted, tick))
    ensures Grown(before, after, answers, width)
    ensures Spacious(submitted, width) <==> Spacious(before, width)
    ensures r.Advanced? ==> Progressed(before, after, r, answers)
    ensures r.Advanced? && |before.completed| < ExpectedRuns(before) ==> submitted == Submitted(before, r.tick)
  {
    SpaciousStays(before, submitted, width);
    SettledExtends(before, submitted, after, tick, answers, width);
  }

  lemma SettledExtends(
    before: Checkpoint, submitted: Checkpoint, after: Checkpoint, tick: Tick, answers: Answers, width: nat)
    requires OnlyPendingChanged(before, submitted) && !before.complete
    requires Leaves(submitted, after, tick, answers)
    ensures Grown(before, after, answers, width)
  {
    if SamplesWithin(before, width) && ResourceBytes(answers.resource) <= width {
      WidthsStay(before, after, width);
    }
  }

  predicate AllWithin(answers: seq<Answers>, width: nat) {
    forall n :: 0 <= n < |answers| ==> ResourceBytes(answers[n].resource) <= width
  }

  lemma LongerGrown(first: Checkpoint, before: Checkpoint, after: Checkpoint, answers: Answers, width: nat, spacious: bool)
    requires Extends(first, before) && Grown(before, after, answers, width)
    requires spacious ==> Roomy(first, width) && SamplesWithin(before, width) && ResourceBytes(answers.resource) <= width
    ensures Extends(first, after)
    ensures spacious ==> Spacious(before, width) && SamplesWithin(after, width)
  {
    RoomStays(first, before, width);
  }

  lemma {:induction false} KeysAreFew(keys: set<int>, n: nat)
    requires forall k <- keys :: 1 <= k <= n
    ensures |keys| <= n
  {
    if n == 0 {
      assert forall k :: k !in keys;
      assert keys == {};
    } else {
      KeysAreFew(keys - {n}, n - 1);
    }
  }

  /** The server never holds more than one run beyond the completed ones, and each under its own key. */
  lemma AtMostOneRunAhead(cp: Checkpoint, runs: map<int, RunId>, nextRun: RunId, now: int)
    requires Consistent(cp, runs, nextRun, now)
    ensures |runs| <= |cp.completed| + 1
    ensures cp.pending.None? ==> |runs| <= |cp.completed|
    ensures forall k <- runs :: 1 <= k <= ExpectedRuns(cp)
  {
    KeysAreFew(runs.Keys, |cp.completed| + 1);
    if cp.pending.None? {
      KeysAreFew(runs.Keys, |cp.completed|);
    }
    assert |runs| == |runs.Keys|;
  }

  /** The server holds the expected runs, each under its own sequence number, and no others. */
  ghost predicate ExactRuns(cp: Checkpoint, runs: map<int, RunId>) {
    |cp.completed| == ExpectedRuns(cp) && (forall k :: k in runs <==> 1 <= k <= ExpectedRuns(cp)) &&
    forall i :: 0 <= i < |cp.completed| ==> RecordedRun(cp.completed[i], runs, i + 1)
  }

  /** In every state a tick can leave behind, checkpoint and server say the same. */
  lemma BooksAgree(cp: Checkpoint, runs: map<int, RunId>, nextRun: RunId, now: int)
    requires Consistent(cp, runs, nextRun, now)
    ensures |cp.samples| == |cp.completed| + (if cp.complete then 1 else 0)
    ensures |runs| <= |cp.completed| + 1
    ensures cp.complete ==> ExactRuns(cp, runs)
  {
    AtMostOneRunAhead(cp, runs, nextRun, now);
    if cp.complete {
      CompleteMeansExactRuns(cp, runs, nextRun, now);
    }
  }

  /** Once completion is saved, the server's soak runs are exactly the recorded ones. */
  lemma CompleteMeansExactRuns(cp: Checkpoint, runs: map<int, RunId>, nextRun: RunId, now: int)
    requires Consistent(cp, runs, nextRun, now) && cp.complete
    ensures ExactRuns(cp, runs) && |cp.samples| == ExpectedRuns(cp) + 1
  {
    forall k | 1 <= k <= ExpectedRuns(cp)
      ensures k in runs
    {
      assert RecordedRun(cp.completed[k - 1], runs, k);
    }
  }
}
