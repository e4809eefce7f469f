/**
 * When a soak outgrows its checkpoint.  A prompt caller on a steady host meets
 * the largest checkpoints that the budget allows, so it is refused exactly when
 * the budget has no room for them.
 */
module SoakRoom {
  import opened Options
  import opened Soak
  import opened SoakSize
  import opened SoakHost
  import opened SoakSchedule

  /** A steady host answers every tick with the same resources, and its runs complete at once. */
  function Steadily(resource: Resource): Answers {
    Answers(resource.resident, 0, 0, 0, resource)
  }

  /** Where prompt ticks on a steady host have brought the checkpoint after `n` runs. */
  ghost predicate Even(first: Checkpoint, cp: Checkpoint, n: nat, resource: Resource) {
    SameBudget(first, cp) && cp.pending.None? && !cp.complete && |cp.completed| == |cp.samples| == n &&
    n <= ExpectedRuns(first) && LastAt(cp) == (if n == 0 then first.startedAt else Slot(first, n - 1)) &&
    (forall i :: 0 <= i < n ==> cp.samples[i].resource == resource) && EvenTimes(cp, Digits(Horizon(first)))
  }

  ghost predicate EvenTimes(cp: Checkpoint, t: nat) {
    (forall i :: 0 <= i < |cp.completed| ==>
       Digits(cp.completed[i].submittedAt) == Digits(cp.completed[i].completedAt) == t) &&
    (forall i :: 0 <= i < |cp.samples| ==> EvenSample(cp.samples[i], t))
  }

  ghost predicate EvenSample(sample: Sample, t: nat) {
    sample.observationStartedAt.Some? && Digits(StartOf(sample)) == Digits(sample.observedAt) == t
  }

  /** A budget whose times all have the same number of digits, and whose last run is in reach of the end. */
  predicate EvenBudget(first: Checkpoint) {
    Unstarted(first) && first.startedAt <= LAST_DATE && Digits(first.startedAt) == Digits(Horizon(first)) &&
    TICK_BUDGET_MS + Slack(first) <= 2 * first.intervalMs
  }

  lemma EvenDigits(first: Checkpoint, time: int)
    requires EvenBudget(first) && first.startedAt <= time <= Horizon(first)
    ensures Digits(time) == Digits(Horizon(first))
  {
    DigitsGrow(first.startedAt, time);
    DigitsGrow(time, Horizon(first));
  }

  lemma SlotsAreInReach(first: Checkpoint, n: nat)
    requires BudgetOk(first) && n < ExpectedRuns(first)
    ensures first.startedAt <= Slot(first, n) <= first.endAt - TICK_BUDGET_MS
    ensures n > 0 ==> Slot(first, n) == Slot(first, n - 1) + first.intervalMs
  {
    ExpectedRunsBounds(first);
    MulMonotone(n, Gaps(first), first.intervalMs);
    MulMonotone(0, n, first.intervalMs);
    assert n > 0 ==> n * first.intervalMs == (n - 1) * first.intervalMs + first.intervalMs;
  }

  /** When the next prompt tick starts. */
  function EvenTick(first: Checkpoint, n: nat): int {
    if n < ExpectedRuns(first) then Slot(first, n) else first.endAt
  }

  lemma EvenTickIsDue(first: Checkpoint, cp: Checkpoint, n: nat, resource: Resource)
    requires EvenBudget(first) && Even(first, cp, n, resource) && Acceptable(first, Steadily(resource))
    ensures LastAt(cp) <= EvenTick(first, n) && Prompt(cp, EvenTick(first, n), Steadily(resource))
  {
    ExpectedRunsBounds(first);
    assert ExpectedRuns(cp) == ExpectedRuns(first);
    if n < ExpectedRuns(first) {
      SlotsAreInReach(first, n);
    }
    assert n > 0 ==> cp.samples[0].resource == resource && cp.samples[n - 1].resource == resource;
  }

  /** A tick at one instant. */
  predicate AtOnce(tick: Tick, now: int, resource: Resource) {
    tick.startedAt == tick.completedAt == tick.observedAt == now && tick.resource == resource
  }

  lemma EvenNext(first: Checkpoint, cp: Checkpoint, n: nat, resource: Resource, tick: Tick)
    requires EvenBudget(first) && Even(first, cp, n, resource) && n < ExpectedRuns(first)
    requires AtOnce(tick, Slot(first, n), resource) && tick.submittedAt == tick.startedAt
    ensures Even(first, After(cp, tick), n + 1, resource)
  {
    SlotsAreInReach(first, n);
    EvenDigits(first, Slot(first, n));
    assert ExpectedRuns(cp) == ExpectedRuns(first);
    var next := After(cp, tick);
    assert EvenSample(next.samples[n], Digits(Horizon(first)));
    assert forall i :: 0 <= i < n ==> next.samples[i] == cp.samples[i] && next.completed[i] == cp.completed[i];
  }

  lemma EvenIsSteady(first: Checkpoint, cp: Checkpoint, n: nat, resource: Resource)
    requires Even(first, cp, n, resource)
    ensures Steady(cp, Digits(Horizon(cp)), ResourceBytes(resource)) && SamplesWithin(cp, ResourceBytes(resource))
    ensures Horizon(cp) == Horizon(first) && ExpectedRuns(cp) == ExpectedRuns(first) && ShellBytes(cp) == ShellBytes(first)
    ensures Roomy(cp, ResourceBytes(resource)) <==> Roomy(first, ResourceBytes(resource))
  {
    assert forall i :: 0 <= i < |cp.samples| ==> EvenSample(cp.samples[i], Digits(Horizon(first)));
  }

  /** Submitting the next run takes all the bytes of the widest submission. */
  lemma SubmissionIsWidest(first: Checkpoint, cp: Checkpoint, n: nat, resource: Resource, tick: Tick)
    requires EvenBudget(first) && Even(first, cp, n, resource) && WellFormed(cp) && n < ExpectedRuns(first)
    requires tick.submittedAt == Slot(first, n)
    ensures EncodedBytes(Submitted(cp, tick)) == HeldBytes(first, n, Digits(Horizon(first)), ResourceBytes(resource))
  {
    SlotsAreInReach(first, n);
    EvenDigits(first, Slot(first, n));
    EvenIsSteady(first, cp, n, resource);
    ExpectedRunsBounds(first);
    HistoryIsWithin(cp);
    UnfinishedBytes(cp, ResourceBytes(resource));
  }

  /** And the last observation takes all the bytes of the widest complete checkpoint. */
  lemma CompletionIsWidest(first: Checkpoint, cp: Checkpoint, resource: Resource, tick: Tick)
    requires EvenBudget(first) && Even(first, cp, ExpectedRuns(first), resource) && ExpectedRuns(first) >= 1
    requires AtOnce(tick, first.endAt, resource) && WellFormed(After(cp, tick))
    ensures EncodedBytes(After(cp, tick)) ==
              FinalBytes(first, ExpectedRuns(first), Digits(Horizon(first)), ResourceBytes(resource))
  {
    var final, n, t := After(cp, tick), ExpectedRuns(first), Digits(Horizon(first));
    EvenDigits(first, first.endAt);
    EvenIsSteady(first, cp, n, resource);
    assert final.complete && LastAt(final) <= Horizon(final);
    assert forall i :: 0 <= i < n ==> final.samples[i] == cp.samples[i] && SteadySample(cp.samples[i], t, ResourceBytes(resource));
    assert SteadySample(final.samples[n], t, ResourceBytes(resource));
    SteadyFinal(final, ResourceBytes(resource));
  }

  /** A world of a steady host after `n` prompt ticks, none of them refused. */
  ghost predicate OnCourse(world: SoakWorld, first: Checkpoint, n: nat, resource: Resource)
    reads world
  {
    world.Sound() && Fits(world.disk) && Even(first, world.disk, n, resource) && world.now <= EvenTick(first, n) &&
    Still(world.pace, world.faults)
  }

  /** What a tick saves before it commits fits. */
  ghost predicate HeldFits(first: Checkpoint, n: nat, resource: Resource) {
    HeldBytes(first, n, Digits(Horizon(first)), ResourceBytes(resource)) <= MAX_CHECKPOINT_BYTES
  }

  method WaitUntil(world: SoakWorld, time: int)
    requires world.Sound() && world.now <= time
    modifies world`now
    ensures world.Sound() && world.now == time
  {
    LaterIsConsistent(world.disk, world.runs, world.nextRun, world.now, time);
    world.now := time;
  }

  /** One prompt tick of a host whose run completes at once. */
  method PromptAdvance(world: SoakWorld, time: int, resource: Resource) returns (r: Progress)
    requires world.Sound() && Fits(world.disk) && Still(world.pace, world.faults)
    requires world.now <= time && Prompt(world.disk, time, Steadily(resource))
    modifies world
    ensures world.Sound() && Fits(world.disk) && world.now == time
    ensures r.SaveRejected? || (r.Advanced? && Still(world.pace, world.faults))
    ensures r.SaveRejected? ==> !Spacious(old(world.disk), ResourceBytes(resource))
    ensures r.Advanced? ==> r.tick.startedAt == time && Progressed(old(world.disk), world.disk, r, Steadily(resource))
    ensures r.Advanced? ==> r.tick.observedAt <= time
    ensures r.Advanced? && |old(world.disk).completed| < ExpectedRuns(old(world.disk)) ==> Fits(Submitted(old(world.disk), r.tick))
  {
    WaitUntil(world, time);
    r := world.Advance(Steadily(resource), ResourceBytes(resource));
  }

  lemma PromptTickIsAtOnce(
    first: Checkpoint, before: Checkpoint, after: Checkpoint, n: nat, r: Progress, time: int, resource: Resource)
    requires Even(first, before, n, resource) && r.Advanced? && Progressed(before, after, r, Steadily(resource))
    requires r.tick.startedAt == time && r.tick.observedAt <= time
    ensures AtOnce(r.tick, time, resource) && after == After(before, r.tick)
    ensures n < ExpectedRuns(first) ==> r.tick.submittedAt == r.tick.startedAt
    ensures |before.completed| == n && ExpectedRuns(before) == ExpectedRuns(first)
  {
  }

  /** One prompt tick of a steady host. */
  method EvenAdvance(world: SoakWorld, first: Checkpoint, n: nat, resource: Resource) returns (r: Progress)
    requires EvenBudget(first) && Acceptable(first, Steadily(resource)) && OnCourse(world, first, n, resource)
    modifies world
    ensures world.Sound() && Fits(world.disk) && world.now == EvenTick(first, n)
    ensures r.SaveRejected? || (r.Advanced? && Still(world.pace, world.faults))
    ensures r.SaveRejected? ==> !Roomy(first, ResourceBytes(resource))
    ensures r.Advanced? ==> AtOnce(r.tick, EvenTick(first, n), resource) && world.disk == After(old(world.disk), r.tick)
    ensures r.Advanced? && n < ExpectedRuns(first) ==> r.tick.submittedAt == r.tick.startedAt
    ensures r.Advanced? && n < ExpectedRuns(first) ==> Fits(Submitted(old(world.disk), r.tick))
  {
    ghost var before := world.disk;
    EvenTickIsDue(first, before, n, resource);
    r := PromptAdvance(world, EvenTick(first, n), resource);
    if r.SaveRejected? {
      EvenIsSteady(first, before, n, resource);
    } else {
      PromptTickIsAtOnce(first, before, world.disk, n, r, EvenTick(first, n), resource);
    }
  }

  /** The tick of one run. */
  method EvenRun(world: SoakWorld, first: Checkpoint, n: nat, resource: Resource) returns (refused: bool)
    requires EvenBudget(first) && Acceptable(first, Steadily(resource)) && OnCourse(world, first, n, resource)
    requires n < ExpectedRuns(first)
    modifies world
    ensures refused ==> !Roomy(first, ResourceBytes(resource))
    ensures !refused ==> OnCourse(world, first, n + 1, resource) && HeldFits(first, n, resource)
  {
    ghost var before := world.disk;
    var r := EvenAdvance(world, first, n, resource);
    refused := r.SaveRejected?;
    if !refused {
      SubmissionIsWidest(first, before, n, resource, r.tick);
      EvenNext(first, before, n, resource, r.tick);
      SlotsAreInReach(first, n);
      NextTickIsLater(first, n);
    }
  }

  lemma NextTickIsLater(first: Checkpoint, n: nat)
    requires BudgetOk(first) && n < ExpectedRuns(first)
    ensures EvenTick(first, n) <= EvenTick(first, n + 1)
  {
    SlotsAreInReach(first, n);
    if n + 1 < ExpectedRuns(first) {
      SlotsAreInReach(first, n + 1);
    }
  }

  /** If both of the largest checkpoints fit, the budget has room. */
  lemma EndHasRoom(first: Checkpoint, cp: Checkpoint, resource: Resource, tick: Tick)
    requires EvenBudget(first) && Even(first, cp, ExpectedRuns(first), resource) && ExpectedRuns(first) >= 1
    requires AtOnce(tick, first.endAt, resource) && Valid(After(cp, tick)) && HeldFits(first, ExpectedRuns(first) - 1, resource)
    ensures Roomy(first, ResourceBytes(resource))
  {
    CompletionIsWidest(first, cp, resource, tick);
  }

  /** The tick at the end. */
  method EvenEnd(world: SoakWorld, first: Checkpoint, resource: Resource) returns (refused: bool)
    requires EvenBudget(first) && Acceptable(first, Steadily(resource)) && ExpectedRuns(first) >= 1
    requires OnCourse(world, first, ExpectedRuns(first), resource)
    requires HeldFits(first, ExpectedRuns(first) - 1, resource)
    modifies world
    ensures refused <==> !Roomy(first, ResourceBytes(resource))
  {
    ghost var before := world.disk;
    var r := EvenAdvance(world, first, ExpectedRuns(first), resource);
    refused := r.SaveRejected?;
    if !refused {
      EndHasRoom(first, before, resource, r.tick);
    }
  }

  /**
   * A whole soak with prompt ticks on a steady host: some save is refused if and
   * only if the budget has no room for that host's resources.
   */
  method PromptSoak(first: Checkpoint, resource: Resource) returns (refused: bool)
    requires EvenBudget(first) && Acceptable(first, Steadily(resource))
    ensures refused <==> !Roomy(first, ResourceBytes(resource))
  {
    var world := new SoakWorld(first, first.startedAt, [], []);
    ExpectedRunsBounds(first);
    var runs := ExpectedRuns(first);
    for n := 0 to runs
      invariant fresh(world) && OnCourse(world, first, n, resource)
      invariant n > 0 ==> HeldFits(first, n - 1, resource)
    {
      refused := EvenRun(world, first, n, resource);
      if refused {
        return;
      }
    }
    refused := EvenEnd(world, first, resource);
  }

  // ---- one soak that is refused ----

  /** Three days with a run every 867 seconds, and the longest plain binding texts. */
  const WIDE := Initial(Binding(256, 768), 1_700_000_000_000, MAX_DURATION_MS, Some(867_000), None)

  /** Counters as long as the tests of a resource and the limits of a tick allow. */
  const WIDE_RESOURCE := Resource(
    Resident(0, MAX_SAFE_INTEGER, "99999999999999999999"), MAX_SAFE_INTEGER, MAX_SAFE_INTEGER, MAX_RSS_BYTES,
    MAX_SAFE_INTEGER, MAX_SAFE_INTEGER, MAX_STATE_BYTES, MAX_STATE_BYTES, MAX_SAFE_INTEGER, MAX_SAFE_INTEGER, MAX_JOURNAL_BYTES)

  lemma TwoMoreDigits(n: int)
    requires n >= 100
    ensures Digits(n) == 2 + Digits(n / 100)
  {
    assert n / 10 / 10 == n / 100;
  }

  lemma FourMoreDigits(n: int)
    requires n >= 10_000
    ensures Digits(n) == 4 + Digits(n / 10_000)
  {
    TwoMoreDigits(n);
    TwoMoreDigits(n / 100);
    assert n / 100 / 100 == n / 10_000;
  }

  lemma CounterDigits()
    ensures Digits(MAX_SAFE_INTEGER) == 16 && Digits(MAX_RSS_BYTES) == Digits(MAX_JOURNAL_BYTES) == 9
  {
    FourMoreDigits(9_007_199_254_740_991);
    FourMoreDigits(900_719_925_474);
    FourMoreDigits(90_071_992);
    FourMoreDigits(536_870_912);
    FourMoreDigits(268_435_456);
  }

  lemma DateDigits(n: int)
    requires 1_700_000_000_000 <= n < 1_701_000_000_000
    ensures Digits(n) == 13
  {
    FourMoreDigits(n);
    FourMoreDigits(n / 10_000);
    FourMoreDigits(n / 100_000_000);
    assert n / 1_000_000_000_000 == 1;
  }

  lemma BudgetDigits()
    ensures Digits(867_000) == 6 && Digits(1000) == 4 && Digits(299) == 3
  {
  }

  lemma WideBytes()
    ensures ResourceBytes(WIDE_RESOURCE) == 485
    ensures ShellBytes(WIDE) == 1312 && ExpectedRuns(WIDE) == 299
    ensures Horizon(WIDE) == 1_700_261_234_000 && Digits(Horizon(WIDE)) == 13
  {
    CounterDigits();
    DateDigits(WIDE.startedAt);
    DateDigits(WIDE.endAt);
    DateDigits(1_700_261_234_000);
    BudgetDigits();
  }

  /** The complete checkpoint of this soak is 563 bytes too long. */
  lemma WideHasNoRoom()
    ensures FinalBytes(WIDE, 299, 13, 485) == 262_707
    ensures !Roomy(WIDE, ResourceBytes(WIDE_RESOURCE))
  {
    BudgetDigits();
    WideBytes();
    SequenceDigitsInTotal(299);
    HistoryInTotal(299, 13, 485);
  }

  /** Every test of this soak passes until a save is refused. */
  method WideSoak() returns (refused: bool)
    ensures refused
  {
    WideBytes();
    DateDigits(WIDE.startedAt);
    WideHasNoRoom();
    InitialFits(WIDE);
    refused := PromptSoak(WIDE, WIDE_RESOURCE);
  }
}
