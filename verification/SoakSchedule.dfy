/**
 * When the fixed schedule is one that a caller can always keep.  The caller
 * ticks when the next slot opens, or as soon as its previous tick is over, or a
 * bounded time later, and every tick stays inside its budget.
 */
module SoakSchedule {
  import opened Options
  import opened Soak
  import opened SoakSize

  function Max(a: int, b: int): int {
    if a < b then b else a
  }

  /** The slots between the first and the last scheduled run. */
  function Gaps(cp: Checkpoint): int {
    ExpectedRuns(cp) - 1
  }

  /** What the last slot leaves of the budget beyond one observation. */
  function Slack(cp: Checkpoint): int {
    cp.endAt - TICK_BUDGET_MS - Slot(cp, Gaps(cp))
  }

  /** How far apart two ticks can start that are as late and as slow as they may be. */
  function SlowestPace(cp: Checkpoint, late: nat): int {
    Max(cp.intervalMs, TICK_BUDGET_MS - 1 + late)
  }

  /**
   * The condition on the budget for a caller that may be late by as much: the
   * latest and slowest ticks still admit the last run, and the latest final tick
   * is still within two intervals of the promptest last run.
   */
  predicate Keepable(cp: Checkpoint, late: nat) {
    late + Gaps(cp) * SlowestPace(cp, late) <= cp.endAt - cp.startedAt - TICK_BUDGET_MS &&
    TICK_BUDGET_MS + Slack(cp) + late <= 2 * cp.intervalMs
  }

  /** How late ticks may be; negative when not even punctual ones keep the schedule. */
  function Leeway(cp: Checkpoint): int
    requires ExpectedRuns(cp) >= 1
  {
    Min(Min(Slack(cp), 2 * cp.intervalMs - TICK_BUDGET_MS - Slack(cp)),
        (cp.endAt - cp.startedAt - TICK_BUDGET_MS - Gaps(cp) * (TICK_BUDGET_MS - 1)) / ExpectedRuns(cp))
  }

  predicate Unstarted(cp: Checkpoint) {
    Valid(cp) && cp.completed == [] && cp.samples == [] && cp.pending.None? && !cp.complete
  }

  /** When the next tick is due: its slot has opened and the tick before it is over. */
  function NextTick(cp: Checkpoint): int {
    Max(NextAt(cp), LastAt(cp))
  }

  /** Whether the caller may start its next tick then. */
  predicate InTime(cp: Checkpoint, now: int, late: nat) {
    NextTick(cp) <= now <= NextTick(cp) + late
  }

  /** Ticks in time, each of them due, inside its budget, and leaving a checkpoint that can be saved. */
  ghost predicate Kept(cp: Checkpoint, ticks: seq<Tick>, late: nat)
    decreases |ticks|
  {
    ticks == [] ||
    (InTime(cp, ticks[0].startedAt, late) && InBudget(ticks[0]) && Assess(cp, ticks[0].startedAt) == Due &&
     Valid(After(cp, ticks[0])) && Kept(After(cp, ticks[0]), ticks[1..], late))
  }

  function AfterAll(cp: Checkpoint, ticks: seq<Tick>): Checkpoint
    decreases |ticks|
  {
    if ticks == [] then cp else AfterAll(After(cp, ticks[0]), ticks[1..])
  }

  /** However late the ticks are and however they fall inside their budgets, the next one is due, up to the end. */
  ghost predicate Reliable(cp: Checkpoint, late: nat) {
    forall ticks, now :: Kept(cp, ticks, late) && |ticks| <= ExpectedRuns(cp) && InTime(AfterAll(cp, ticks), now, late) ==>
      Assess(AfterAll(cp, ticks), now) == Due
  }

  /** The same budget. */
  predicate SameBudget(a: Checkpoint, b: Checkpoint) {
    a.binding == b.binding && a.startedAt == b.startedAt && a.endAt == b.endAt && a.intervalMs == b.intervalMs &&
    a.timerDelayMs == b.timerDelayMs
  }

  /** What is known of a checkpoint that such a caller has brought `n` runs far. */
  ghost predicate OnTrack(first: Checkpoint, cp: Checkpoint, n: nat, late: nat) {
    SameBudget(first, cp) && cp.pending.None? && !cp.complete && |cp.completed| == |cp.samples| == n &&
    n <= ExpectedRuns(first) &&
    (n == 0 ==> LastAt(cp) == first.startedAt) &&
    (n > 0 ==>
       Slot(first, n - 1) <= LastAt(cp) <=
       first.startedAt + late + (n - 1) * SlowestPace(first, late) + TICK_BUDGET_MS - 1)
  }

  lemma ExpectedRunsBounds(cp: Checkpoint)
    requires BudgetOk(cp)
    ensures ExpectedRuns(cp) >= 1
    ensures Slot(cp, Gaps(cp)) <= cp.endAt - TICK_BUDGET_MS < Slot(cp, ExpectedRuns(cp))
    ensures 0 <= Slack(cp) < cp.intervalMs
  {
    var span := cp.endAt - cp.startedAt - TICK_BUDGET_MS;
    DivisionBounds(span, cp.intervalMs);
    assert Gaps(cp) == span / cp.intervalMs;
  }

  lemma DivisionBounds(a: int, b: int)
    requires a >= 0 && b > 0
    ensures a / b >= 0 && (a / b) * b <= a < (a / b + 1) * b && a - (a / b) * b < b
  {
    assert a == (a / b) * b + a % b;
    assert (a / b + 1) * b == (a / b) * b + b;
    if a / b < 0 {
      MulMonotone(a / b, -1, b);
    }
  }

  lemma MulMonotone(a: int, b: int, c: int)
    requires a <= b && c >= 0
    ensures a * c <= b * c
  {
  }

  /** The next tick of a keepable schedule is due, and where it starts. */
  lemma NextTickIsDue(first: Checkpoint, cp: Checkpoint, n: nat, late: nat, now: int)
    requires BudgetOk(first) && Keepable(first, late) && OnTrack(first, cp, n, late) && InTime(cp, now, late)
    ensures Assess(cp, now) == Due
    ensures n < ExpectedRuns(first) ==> Slot(first, n) <= now <= first.startedAt + late + n * SlowestPace(first, late)
    ensures n == ExpectedRuns(first) ==> NextTick(cp) == first.endAt
  {
    ExpectedRunsBounds(first);
    assert ExpectedRuns(cp) == ExpectedRuns(first);
    if n < ExpectedRuns(first) {
      NextSlotIsReached(first, cp, n, late);
    } else {
      assert n - 1 == Gaps(first);
    }
  }

  /** While runs are left, the next tick starts with its slot or within the slowest pace. */
  lemma NextSlotIsReached(first: Checkpoint, cp: Checkpoint, n: nat, late: nat)
    requires BudgetOk(first) && Keepable(first, late) && OnTrack(first, cp, n, late) && n < ExpectedRuns(first)
    ensures late <= first.intervalMs && NextTick(cp) - LastAt(cp) <= first.intervalMs
    ensures Slot(first, n) <= NextTick(cp) <= first.startedAt + n * SlowestPace(first, late)
    ensures first.startedAt + late + n * SlowestPace(first, late) <= first.endAt - TICK_BUDGET_MS
  {
    var I, M := first.intervalMs, SlowestPace(first, late);
    ExpectedRunsBounds(first);
    LateWithinSlack(first, late);
    assert ExpectedRuns(cp) == ExpectedRuns(first);
    if n > 0 {
      assert n * I == (n - 1) * I + I;
      assert n * M == (n - 1) * M + M;
    }
    MulMonotone(I, M, n);
    assert I * n == n * I && M * n == n * M;
    MulMonotone(n, Gaps(first), M);
  }

  /** Who is late by more than the slack misses the last admission. */
  lemma LateWithinSlack(first: Checkpoint, late: nat)
    requires BudgetOk(first) && Keepable(first, late)
    ensures late <= Slack(first)
  {
    ExpectedRunsBounds(first);
    MulMonotone(first.intervalMs, SlowestPace(first, late), Gaps(first));
    assert first.intervalMs * Gaps(first) == Gaps(first) * first.intervalMs;
    assert SlowestPace(first, late) * Gaps(first) == Gaps(first) * SlowestPace(first, late);
  }

  /** A tick inside its budget keeps a keepable schedule on track, and the last one completes it. */
  lemma TickStaysOnTrack(first: Checkpoint, cp: Checkpoint, n: nat, tick: Tick, late: nat)
    requires BudgetOk(first) && Keepable(first, late) && OnTrack(first, cp, n, late)
    requires InTime(cp, tick.startedAt, late) && InBudget(tick)
    ensures n < ExpectedRuns(first) ==> OnTrack(first, After(cp, tick), n + 1, late)
    ensures n == ExpectedRuns(first) ==> After(cp, tick).complete
    ensures n == ExpectedRuns(first) ==>
      |After(cp, tick).completed| == n && |After(cp, tick).samples| == n + 1
  {
    NextTickIsDue(first, cp, n, late, tick.startedAt);
    ExpectedRunsBounds(first);
    assert ExpectedRuns(cp) == ExpectedRuns(first);
    if n < ExpectedRuns(first) {
      NextSlotIsReached(first, cp, n, late);
    }
  }

  lemma {:induction false} KeptStaysOnTrack(first: Checkpoint, cp: Checkpoint, n: nat, ticks: seq<Tick>, m: nat, late: nat)
    requires BudgetOk(first) && Keepable(first, late) && OnTrack(first, cp, n, late)
    requires Kept(cp, ticks, late) && m == n + |ticks| <= ExpectedRuns(first)
    ensures OnTrack(first, AfterAll(cp, ticks), m, late)
    decreases |ticks|
  {
    if ticks != [] {
      TickStaysOnTrack(first, cp, n, ticks[0], late);
      KeptStaysOnTrack(first, After(cp, ticks[0]), n + 1, ticks[1..], m, late);
    }
  }

  /** A keepable schedule is kept whatever the ticks do inside their budgets. */
  lemma KeepableIsReliable(cp: Checkpoint, late: nat)
    requires Unstarted(cp) && Keepable(cp, late)
    ensures Reliable(cp, late)
  {
    ExpectedRunsBounds(cp);
    forall ticks, now | Kept(cp, ticks, late) && |ticks| <= ExpectedRuns(cp) && InTime(AfterAll(cp, ticks), now, late)
      ensures Assess(AfterAll(cp, ticks), now) == Due
    {
      KeptStaysOnTrack(cp, cp, 0, ticks, |ticks|, late);
      NextTickIsDue(cp, AfterAll(cp, ticks), |ticks|, late, now);
    }
  }

  /** A keepable schedule ends with every expected run and one sample more, by a final tick that is due at `endAt`. */
  lemma KeepableFinishes(cp: Checkpoint, ticks: seq<Tick>, last: Tick, late: nat)
    requires Unstarted(cp) && Keepable(cp, late)
    requires Kept(cp, ticks, late) && |ticks| == ExpectedRuns(cp)
    requires InTime(AfterAll(cp, ticks), last.startedAt, late) && InBudget(last)
    ensures cp.endAt <= last.startedAt <= cp.endAt + late
    ensures var final := After(AfterAll(cp, ticks), last);
      final.complete && |final.completed| == ExpectedRuns(cp) && |final.samples| == ExpectedRuns(cp) + 1
  {
    ExpectedRunsBounds(cp);
    KeptStaysOnTrack(cp, cp, 0, ticks, |ticks|, late);
    NextTickIsDue(cp, AfterAll(cp, ticks), |ticks|, late, last.startedAt);
    TickStaysOnTrack(cp, AfterAll(cp, ticks), |ticks|, last, late);
  }

  // ---- how late ticks may be ----

  lemma Distributes(a: int, b: int, c: int)
    ensures a * (b + c) == a * b + a * c
  {
  }

  lemma QuotientBounds(a: int, b: int, q: int)
    requires b > 0
    ensures q <= a / b <==> q * b <= a
  {
    assert a == (a / b) * b + a % b;
    if q <= a / b {
      MulMonotone(q, a / b, b);
    } else {
      MulMonotone(a / b + 1, q, b);
      assert (a / b + 1) * b == (a / b) * b + b;
    }
  }

  /** A budget is keepable for exactly the callers whose lateness is within its leeway. */
  lemma KeepableWithinLeeway(cp: Checkpoint, late: nat)
    requires BudgetOk(cp)
    ensures ExpectedRuns(cp) >= 1
    ensures Keepable(cp, late) <==> late <= Leeway(cp)
  {
    ExpectedRunsBounds(cp);
    var span, g := cp.endAt - cp.startedAt - TICK_BUDGET_MS, Gaps(cp);
    assert span == g * cp.intervalMs + Slack(cp);
    QuotientBounds(span - g * (TICK_BUDGET_MS - 1), ExpectedRuns(cp), late);
    assert late * ExpectedRuns(cp) == late + g * late;
    Distributes(g, TICK_BUDGET_MS - 1, late);
    PaceIsEither(cp, late);
  }

  /** The slowest pace fits if both that it can be do. */
  lemma PaceIsEither(cp: Checkpoint, late: nat)
    requires Gaps(cp) >= 0
    ensures var span, g := cp.endAt - cp.startedAt - TICK_BUDGET_MS, Gaps(cp);
            late + g * SlowestPace(cp, late) <= span <==>
            late + g * cp.intervalMs <= span && late + g * (TICK_BUDGET_MS - 1 + late) <= span
  {
    var g := Gaps(cp);
    MulMonotone(cp.intervalMs, SlowestPace(cp, late), g);
    MulMonotone(TICK_BUDGET_MS - 1 + late, SlowestPace(cp, late), g);
    assert cp.intervalMs * g == g * cp.intervalMs && SlowestPace(cp, late) * g == g * SlowestPace(cp, late);
    assert (TICK_BUDGET_MS - 1 + late) * g == g * (TICK_BUDGET_MS - 1 + late);
  }

  // ---- schedules that break ----

  /** A host with plenty of everything. */
  const PLAIN := Resource(Resident(0, 1, "1"), 100, 0, 0, 0, 0, 0, 0, MIN_DISK_BYTES, MIN_DISK_BYTES, 0)

  /** A tick of the given length; runs are numbered by their sequence. */
  function TickOf(startedAt: int, length: nat, n: nat): Tick {
    Tick(startedAt, startedAt, n + 1, startedAt + length, 0, 0, startedAt + length, PLAIN)
  }

  /** Where ticks of one length each have brought the caller after `n` runs. */
  ghost predicate Paced(first: Checkpoint, cp: Checkpoint, n: nat, length: nat, delay: nat) {
    SameBudget(first, cp) && WellFormed(cp) && cp.pending.None? && !cp.complete && |cp.completed| == |cp.samples| == n &&
    n <= ExpectedRuns(first) &&
    (forall i :: 0 <= i < n ==> cp.completed[i].runId == i + 1 && cp.samples[i].resource == PLAIN) &&
    if n == 0 then LastAt(cp) == first.startedAt
    else LastAt(cp) == PacedAt(first, n - 1, length, delay) + length && PacedAt(first, n - 1, length, delay) <= first.endAt - TICK_BUDGET_MS
  }

  /** When the `n`th of equal ticks starts, each of them as late as the others. */
  function PacedAt(first: Checkpoint, n: nat, length: nat, delay: nat): int {
    if n == 0 then first.startedAt + delay else PacedAt(first, n - 1, length, delay) + Max(first.intervalMs, length + delay)
  }

  lemma {:induction false} PacedInTotal(first: Checkpoint, n: nat, length: nat, delay: nat)
    ensures PacedAt(first, n, length, delay) == first.startedAt + delay + n * Max(first.intervalMs, length + delay)
    ensures PacedAt(first, n, length, delay) >= Slot(first, n) + delay
    ensures first.intervalMs >= length + delay ==> PacedAt(first, n, length, delay) == Slot(first, n) + delay
  {
    if n > 0 {
      PacedInTotal(first, n - 1, length, delay);
      var I, M := first.intervalMs, Max(first.intervalMs, length + delay);
      assert n * M == (n - 1) * M + M && n * I == (n - 1) * I + I;
    }
  }

  /** Equal ticks start one interval, or one tick with its delay, apart, whichever is longer. */
  lemma PacedStart(first: Checkpoint, cp: Checkpoint, n: nat, length: nat, delay: nat)
    requires BudgetOk(first) && Paced(first, cp, n, length, delay) && n < ExpectedRuns(first)
    ensures NextTick(cp) + delay == PacedAt(first, n, length, delay)
    ensures 0 <= NextTick(cp) - LastAt(cp) <= first.intervalMs
  {
    assert ExpectedRuns(cp) == ExpectedRuns(first);
    if n > 0 {
      PacedStep(first, n, length, delay);
    }
  }

  /** A paced tick starts its delay after its slot has opened and the tick before it is over. */
  lemma PacedStep(first: Checkpoint, n: nat, length: nat, delay: nat)
    requires n > 0
    ensures PacedAt(first, n, length, delay) == Max(Slot(first, n), PacedAt(first, n - 1, length, delay) + length) + delay
    ensures PacedAt(first, n, length, delay) - delay <= PacedAt(first, n - 1, length, delay) + length + Max(first.intervalMs, 0)
  {
    PacedInTotal(first, n, length, delay);
    PacedInTotal(first, n - 1, length, delay);
    SlotsAreApart(first, n);
  }

  lemma SlotsAreApart(first: Checkpoint, n: nat)
    requires n > 0
    ensures Slot(first, n) == Slot(first, n - 1) + first.intervalMs
  {
    assert n * first.intervalMs == (n - 1) * first.intervalMs + first.intervalMs;
  }

  /** Only the admission of the run can be missed by such a tick. */
  lemma PacedReadiness(first: Checkpoint, cp: Checkpoint, n: nat, length: nat, delay: nat)
    requires BudgetOk(first) && Paced(first, cp, n, length, delay) && n < ExpectedRuns(first) && delay <= first.intervalMs
    ensures Assess(cp, NextTick(cp) + delay) ==
              if PacedAt(first, n, length, delay) > first.endAt - TICK_BUDGET_MS then AdmissionDeadline else Due
  {
    PacedStart(first, cp, n, length, delay);
    assert ExpectedRuns(cp) == ExpectedRuns(first);
  }

  lemma PacedCompletions(first: Checkpoint, cp: Checkpoint, n: nat, length: nat, delay: nat)
    requires BudgetOk(first) && Paced(first, cp, n, length, delay) && n < ExpectedRuns(first)
    requires length < TICK_BUDGET_MS && delay <= first.intervalMs && Assess(cp, NextTick(cp) + delay) == Due
    ensures var next := After(cp, TickOf(NextTick(cp) + delay, length, n));
            forall i :: 0 <= i <= n ==> CompletionOk(next, i) && next.completed[i].runId == i + 1
  {
    var next := After(cp, TickOf(NextTick(cp) + delay, length, n));
    forall i | 0 <= i <= n
      ensures CompletionOk(next, i) && next.completed[i].runId == i + 1
    {
      if i < n {
        assert CompletionOk(cp, i);
      } else if n > 0 {
        assert SampleOk(cp, n - 1);
      }
    }
  }

  lemma PacedSamples(first: Checkpoint, cp: Checkpoint, n: nat, length: nat, delay: nat)
    requires BudgetOk(first) && Paced(first, cp, n, length, delay) && n < ExpectedRuns(first)
    requires length < TICK_BUDGET_MS && delay <= first.intervalMs && Assess(cp, NextTick(cp) + delay) == Due
    ensures var next := After(cp, TickOf(NextTick(cp) + delay, length, n));
            forall i :: 0 <= i <= n ==> SampleOk(next, i) && next.samples[i].resource == PLAIN
  {
    var next := After(cp, TickOf(NextTick(cp) + delay, length, n));
    PacedSample(first, cp, n, length, delay);
    forall i | 0 <= i <= n
      ensures SampleOk(next, i) && next.samples[i].resource == PLAIN
    {
      if i < n {
        OldSample(cp, next, i);
      }
    }
  }

  lemma OldSample(cp: Checkpoint, next: Checkpoint, i: nat)
    requires WellFormed(cp) && Extends(cp, next) && i < |cp.samples| && i < |cp.completed|
    ensures SampleOk(next, i) && next.samples[i] == cp.samples[i]
  {
    assert SampleOk(cp, i);
    assert i > 0 ==> next.samples[i - 1] == cp.samples[i - 1];
  }

  lemma PacedSample(first: Checkpoint, cp: Checkpoint, n: nat, length: nat, delay: nat)
    requires BudgetOk(first) && Paced(first, cp, n, length, delay) && n < ExpectedRuns(first)
    requires length < TICK_BUDGET_MS && delay <= first.intervalMs && Assess(cp, NextTick(cp) + delay) == Due
    ensures var next := After(cp, TickOf(NextTick(cp) + delay, length, n));
            SampleOk(next, n) && next.samples[n].resource == PLAIN
  {
    ObservedLate(cp, n);
    PlainSample(cp, NextTick(cp) + delay, length, n);
  }

  lemma ObservedLate(cp: Checkpoint, n: nat)
    requires WellFormed(cp) && |cp.samples| == n
    ensures LastAt(cp) >= 0
  {
    if n > 0 {
      assert SampleOk(cp, n - 1);
    }
  }

  /** A due tick on such a host adds a sample that is in order. */
  lemma PlainSample(cp: Checkpoint, startedAt: int, length: nat, n: nat)
    requires BudgetOk(cp) && |cp.completed| == |cp.samples| == n < ExpectedRuns(cp) && Assess(cp, startedAt) == Due
    requires n > 0 ==> cp.samples[n - 1].resource == PLAIN
    requires length < TICK_BUDGET_MS && LastAt(cp) >= 0
    ensures var next := After(cp, TickOf(startedAt, length, n));
            SampleOk(next, n) && next.samples[n].resource == PLAIN
  {
  }

  /** One more such tick is paced like the others. */
  lemma PacedNext(first: Checkpoint, cp: Checkpoint, n: nat, length: nat, delay: nat)
    requires BindingOk(first.binding) && BudgetOk(first) && Paced(first, cp, n, length, delay) && n < ExpectedRuns(first)
    requires length < TICK_BUDGET_MS && delay <= first.intervalMs && Assess(cp, NextTick(cp) + delay) == Due
    ensures Paced(first, After(cp, TickOf(NextTick(cp) + delay, length, n)), n + 1, length, delay)
  {
    PacedContents(first, cp, n, length, delay);
    PacedStart(first, cp, n, length, delay);
    PacedReadiness(first, cp, n, length, delay);
    PacedSamples(first, cp, n, length, delay);
  }

  /** And it leaves a checkpoint that the validator accepts. */
  lemma PacedValid(first: Checkpoint, cp: Checkpoint, n: nat, length: nat, delay: nat)
    requires BindingOk(first.binding) && BudgetOk(first) && Paced(first, cp, n, length, delay) && n < ExpectedRuns(first)
    requires length < TICK_BUDGET_MS && delay <= first.intervalMs && Assess(cp, NextTick(cp) + delay) == Due
    ensures Valid(After(cp, TickOf(NextTick(cp) + delay, length, n)))
  {
    PacedContents(first, cp, n, length, delay);
    PacedSamples(first, cp, n, length, delay);
    PlainFits(After(cp, TickOf(NextTick(cp) + delay, length, n)));
  }

  lemma PacedContents(first: Checkpoint, cp: Checkpoint, n: nat, length: nat, delay: nat)
    requires BindingOk(first.binding) && BudgetOk(first) && Paced(first, cp, n, length, delay) && n < ExpectedRuns(first)
    requires length < TICK_BUDGET_MS && delay <= first.intervalMs && Assess(cp, NextTick(cp) + delay) == Due
    ensures var next := After(cp, TickOf(NextTick(cp) + delay, length, n));
            WellFormed(next) && !next.complete && LastAt(next) <= Horizon(next) &&
            forall i :: 0 <= i <= n ==> next.completed[i].runId == i + 1
  {
    PacedCompletions(first, cp, n, length, delay);
    PacedSamples(first, cp, n, length, delay);
  }

  lemma PlainFits(cp: Checkpoint)
    requires WellFormed(cp) && LastAt(cp) <= Horizon(cp) && ExpectedRuns(cp) >= 1
    requires forall i :: 0 <= i < |cp.samples| ==> cp.samples[i].resource == PLAIN
    ensures Fits(cp)
  {
    PlainBytes();
    PlainResourcesHaveRoom(cp, ResourceBytes(PLAIN));
    RoomyFits(cp, ResourceBytes(PLAIN));
  }

  lemma PlainBytes()
    ensures ResourceBytes(PLAIN) <= 400
  {
    DigitsGrow(MIN_DISK_BYTES, 999_999_999);
    assert Digits(999_999_999) == 9;
  }

  /** Such a tick goes before the ticks that follow it. */
  lemma OneTickMore(
    first: Checkpoint, cp: Checkpoint, n: nat, length: nat, delay: nat, rest: seq<Tick>, late: nat)
    requires BindingOk(first.binding) && BudgetOk(first) && Paced(first, cp, n, length, delay) && n < ExpectedRuns(first)
    requires length < TICK_BUDGET_MS && delay <= first.intervalMs && Assess(cp, NextTick(cp) + delay) == Due
    requires delay <= late && Kept(After(cp, TickOf(NextTick(cp) + delay, length, n)), rest, late)
    ensures var tick := TickOf(NextTick(cp) + delay, length, n);
            Kept(cp, [tick] + rest, late) && AfterAll(cp, [tick] + rest) == AfterAll(After(cp, tick), rest)
  {
    var tick := TickOf(NextTick(cp) + delay, length, n);
    PacedValid(first, cp, n, length, delay);
    assert ([tick] + rest)[1..] == rest;
  }

  /** The next tick, taken with this delay, misses its admission. */
  ghost predicate Misses(cp: Checkpoint, delay: nat) {
    Assess(cp, NextTick(cp) + delay) == AdmissionDeadline
  }

  lemma DueOrMisses(first: Checkpoint, cp: Checkpoint, n: nat, length: nat, delay: nat)
    requires BudgetOk(first) && Paced(first, cp, n, length, delay) && n < ExpectedRuns(first) && delay <= first.intervalMs
    ensures Assess(cp, NextTick(cp) + delay) == Due || Misses(cp, delay)
  {
    PacedReadiness(first, cp, n, length, delay);
  }

  /** Ticks of one length and delay, taken until one misses its admission or every run is done. */
  lemma {:induction false} PacedCaller(first: Checkpoint, cp: Checkpoint, n: nat, length: nat, delay: nat, late: nat)
    returns (ticks: seq<Tick>, m: nat, end: Checkpoint)
    requires BindingOk(first.binding) && BudgetOk(first) && Paced(first, cp, n, length, delay)
    requires length < TICK_BUDGET_MS && delay <= first.intervalMs && delay <= late
    ensures Kept(cp, ticks, late) && m == n + |ticks| && end == AfterAll(cp, ticks) && Paced(first, end, m, length, delay)
    ensures m < ExpectedRuns(first) ==> Misses(end, delay)
    decreases ExpectedRuns(first) - n
  {
    ticks, m, end := [], n, cp;
    if n < ExpectedRuns(first) {
      DueOrMisses(first, cp, n, length, delay);
      if !Misses(cp, delay) {
        PacedNext(first, cp, n, length, delay);
        var tick := TickOf(NextTick(cp) + delay, length, n);
        var rest;
        rest, m, end := PacedCaller(first, After(cp, tick), n + 1, length, delay, late);
        ticks := [tick] + rest;
        OneTickMore(first, cp, n, length, delay, rest, late);
      }
    }
  }

  /** Valid ticks in time, after which one that is in time is refused for this reason. */
  ghost predicate Breaks(cp: Checkpoint, ticks: seq<Tick>, now: int, reason: Readiness, late: nat) {
    Kept(cp, ticks, late) && |ticks| <= ExpectedRuns(cp) && Refuses(AfterAll(cp, ticks), now, reason, late)
  }

  predicate Refuses(cp: Checkpoint, now: int, reason: Readiness, late: nat) {
    InTime(cp, now, late) && Assess(cp, now) == reason != Due
  }

  /** The whole run of such a caller from the start. */
  lemma PacedFromStart(cp: Checkpoint, length: nat, delay: nat, late: nat) returns (ticks: seq<Tick>)
    requires Unstarted(cp) && length < TICK_BUDGET_MS && delay <= cp.intervalMs && delay <= late
    ensures Kept(cp, ticks, late) && |ticks| <= ExpectedRuns(cp)
    ensures Paced(cp, AfterAll(cp, ticks), |ticks|, length, delay)
    ensures |ticks| < ExpectedRuns(cp) ==> Misses(AfterAll(cp, ticks), delay)
  {
    ExpectedRunsBounds(cp);
    var m, end;
    ticks, m, end := PacedCaller(cp, cp, 0, length, delay, late);
  }

  /**
   * If the end is too far behind the last slot, prompt ticks finish every run, and the
   * final one, as late as it may be, misses the coverage.
   */
  lemma FarEndBreaks(cp: Checkpoint, late: nat) returns (ticks: seq<Tick>)
    requires Unstarted(cp) && TICK_BUDGET_MS + Slack(cp) + late > 2 * cp.intervalMs
    ensures Breaks(cp, ticks, cp.endAt + late, CoverageGap, late)
    ensures |ticks| == ExpectedRuns(cp) && NextTick(AfterAll(cp, ticks)) == cp.endAt
  {
    ticks := PacedFromStart(cp, 0, 0, late);
    FarEndIsAGap(cp, AfterAll(cp, ticks), |ticks|, late);
  }

  lemma FarEndIsAGap(first: Checkpoint, cp: Checkpoint, n: nat, late: nat)
    requires BudgetOk(first) && Paced(first, cp, n, 0, 0) && (n < ExpectedRuns(first) ==> Misses(cp, 0))
    requires TICK_BUDGET_MS + Slack(first) + late > 2 * first.intervalMs
    ensures n == ExpectedRuns(first) && NextTick(cp) == first.endAt
    ensures Refuses(cp, first.endAt + late, CoverageGap, late)
  {
    PromptTicksAreAdmitted(first, cp, n);
    ExpectedRunsBounds(first);
  }

  /** Prompt ticks start with their slots, and every slot is admitted. */
  lemma PromptTicksAreAdmitted(first: Checkpoint, cp: Checkpoint, n: nat)
    requires BudgetOk(first) && Paced(first, cp, n, 0, 0)
    ensures n < ExpectedRuns(first) ==> Assess(cp, NextTick(cp)) == Due
    ensures n == ExpectedRuns(first) ==> LastAt(cp) == Slot(first, Gaps(first)) && ExpectedRuns(cp) == ExpectedRuns(first)
  {
    ExpectedRunsBounds(first);
    PacedInTotal(first, Gaps(first), 0, 0);
    if n < ExpectedRuns(first) {
      PacedReadiness(first, cp, n, 0, 0);
      PacedInTotal(first, n, 0, 0);
      MulMonotone(n, Gaps(first), first.intervalMs);
    }
  }

  lemma SlowTicksEndEarly(first: Checkpoint, cp: Checkpoint, n: nat, delay: nat, late: nat)
    requires BudgetOk(first) && Paced(first, cp, n, TICK_BUDGET_MS - 1, delay) && delay <= late
    requires n < ExpectedRuns(first) ==> Misses(cp, delay)
    requires delay + Gaps(first) * SlowestPace(first, delay) > first.endAt - first.startedAt - TICK_BUDGET_MS
    ensures n < ExpectedRuns(first) && Refuses(cp, NextTick(cp) + delay, AdmissionDeadline, late)
  {
    ExpectedRunsBounds(first);
    PacedInTotal(first, Gaps(first), TICK_BUDGET_MS - 1, delay);
  }

  /** Late ticks that use up their budgets drift past the last admission. */
  lemma SlowTicksBreak(cp: Checkpoint, delay: nat, late: nat) returns (ticks: seq<Tick>, now: int)
    requires Unstarted(cp) && delay <= late && delay <= cp.intervalMs
    requires delay + Gaps(cp) * SlowestPace(cp, delay) > cp.endAt - cp.startedAt - TICK_BUDGET_MS
    ensures Breaks(cp, ticks, now, AdmissionDeadline, late) && |ticks| < ExpectedRuns(cp)
    ensures now == NextTick(AfterAll(cp, ticks)) + delay
  {
    ticks := PacedFromStart(cp, TICK_BUDGET_MS - 1, delay, late);
    SlowTicksEndEarly(cp, AfterAll(cp, ticks), |ticks|, delay, late);
    now := NextTick(AfterAll(cp, ticks)) + delay;
  }

  /** A delay of a whole interval is always too much. */
  lemma WholeIntervalIsTooLate(cp: Checkpoint)
    requires BudgetOk(cp)
    ensures cp.intervalMs + Gaps(cp) * SlowestPace(cp, cp.intervalMs) > cp.endAt - cp.startedAt - TICK_BUDGET_MS
  {
    ExpectedRunsBounds(cp);
    MulMonotone(cp.intervalMs, SlowestPace(cp, cp.intervalMs), Gaps(cp));
    assert cp.intervalMs * Gaps(cp) == Gaps(cp) * cp.intervalMs;
    assert SlowestPace(cp, cp.intervalMs) * Gaps(cp) == Gaps(cp) * SlowestPace(cp, cp.intervalMs);
  }

  /** The schedule can always be kept by callers that may be late by as much exactly when this is within its leeway. */
  lemma ReliableExactlyWithinLeeway(cp: Checkpoint, late: nat)
    requires Unstarted(cp)
    ensures ExpectedRuns(cp) >= 1
    ensures Reliable(cp, late) <==> late <= Leeway(cp)
  {
    KeepableWithinLeeway(cp, late);
    if Keepable(cp, late) {
      KeepableIsReliable(cp, late);
    } else if TICK_BUDGET_MS + Slack(cp) + late > 2 * cp.intervalMs {
      var ticks := FarEndBreaks(cp, late);
    } else if late <= cp.intervalMs {
      var ticks, now := SlowTicksBreak(cp, late, late);
    } else {
      WholeIntervalIsTooLate(cp);
      var ticks, now := SlowTicksBreak(cp, cp.intervalMs, late);
    }
  }

  /** Intervals of at least one tick budget are always fine, and those under half of one never are. */
  lemma IntervalBounds(cp: Checkpoint)
    requires Unstarted(cp)
    ensures cp.intervalMs >= TICK_BUDGET_MS ==> Keepable(cp, 0)
    ensures 2 * cp.intervalMs < TICK_BUDGET_MS ==> !Keepable(cp, 0)
  {
    ExpectedRunsBounds(cp);
  }

  /** One such budget: a run a minute for a quarter of an hour. Eleven runs go well, and the final tick does not. */
  lemma MinuteIntervalsBreak(startedAt: int) returns (cp: Checkpoint, ticks: seq<Tick>)
    requires 1 <= startedAt <= MAX_SAFE_INTEGER - 900_000
    ensures cp == Initial(Binding(0, 0), startedAt, 900_000, Some(60_000), None) && Unstarted(cp) && !Reliable(cp, 0)
    ensures |ticks| == 11 && Breaks(cp, ticks, startedAt + 900_000, CoverageGap, 0)
  {
    cp := Initial(Binding(0, 0), startedAt, 900_000, Some(60_000), None);
    assert ExpectedRuns(cp) == 11;
    InitialFits(cp);
    assert Slack(cp) == 0;
    ticks := FarEndBreaks(cp, 0);
  }
}
