/** How large the encoded checkpoint can grow over a whole soak. */
module SoakSize {
  import opened Options
  import opened Soak

  // ---- digits ----

  lemma {:induction false} DigitsGrow(a: int, b: int)
    requires a <= b
    ensures Digits(a) <= Digits(b)
    decreases b
  {
    if a >= 10 {
      DigitsGrow(a / 10, b / 10);
    }
  }

  lemma SafeDigits(n: int)
    requires n <= MAX_SAFE_INTEGER
    ensures Digits(n) <= 16
  {
    DigitsGrow(n, MAX_SAFE_INTEGER);
    assert Digits(MAX_SAFE_INTEGER) == 16;
  }

  /** The digits of all sequence numbers up to `n`. */
  function SequenceDigits(n: nat): nat {
    if n == 0 then 0 else SequenceDigits(n - 1) + Digits(n)
  }

  lemma {:induction false} SequenceDigitsInTotal(n: nat)
    requires n <= 999
    ensures SequenceDigits(n) == if n <= 9 then n else if n <= 99 then 2 * n - 9 else 3 * n - 108
  {
    if n > 0 {
      SequenceDigitsInTotal(n - 1);
      assert n >= 10 ==> Digits(n / 10) == if n < 100 then 1 else 2;
    }
  }

  // ---- the largest history ----

  /** No reading of a soak is later: the last tick starts within two intervals of an observation before the end. */
  function Horizon(cp: Checkpoint): int {
    cp.endAt + 2 * cp.intervalMs + TICK_BUDGET_MS
  }

  /** One completion with its sample, when its times have `t` digits and its resources take `width` bytes. */
  function PairBytes(sequence: nat, t: nat, width: nat): nat {
    COMPLETION_FRAME + 2 * t + Digits(sequence) + SAMPLE_FRAME + START_FRAME + 2 * t + width + Digits(sequence)
  }

  function HistoryBytes(k: nat, t: nat, width: nat): nat {
    if k == 0 then 0 else HistoryBytes(k - 1, t, width) + 2 * Comma(k - 1) + PairBytes(k, t, width)
  }

  /** The checkpoint with `k` completed runs and the next one submitted. */
  function HeldBytes(cp: Checkpoint, k: nat, t: nat, width: nat): nat {
    ShellBytes(cp) + HistoryBytes(k, t, width) +
    PENDING_FRAME + 2 * cp.binding.runIdBytes + 2 * Digits(k + 1) + t + RUN_ID_BYTES + |"false"|
  }

  /** The complete checkpoint, with its one sample more. */
  function FinalBytes(cp: Checkpoint, n: nat, t: nat, width: nat): nat {
    ShellBytes(cp) + HistoryBytes(n, t, width) + Comma(n) + SAMPLE_FRAME + START_FRAME + Digits(n) + 2 * t + width +
    |"null"| + |"true"|
  }

  /**
   * Whether a budget has room for every run and sample, when resources take at
   * most `width` bytes each: the two largest checkpoints of the soak fit.
   */
  predicate Roomy(cp: Checkpoint, width: nat) {
    var n, t := ExpectedRuns(cp), Digits(Horizon(cp));
    n >= 1 && HeldBytes(cp, n - 1, t, width) <= MAX_CHECKPOINT_BYTES && FinalBytes(cp, n, t, width) <= MAX_CHECKPOINT_BYTES
  }

  /** All resources observed so far take at most `width` bytes. */
  predicate SamplesWithin(cp: Checkpoint, width: nat) {
    forall i :: 0 <= i < |cp.samples| ==> ResourceBytes(cp.samples[i].resource) <= width
  }

  /** All times observed so far are at most the horizon. */
  ghost predicate TimesWithin(cp: Checkpoint) {
    (forall i :: 0 <= i < |cp.completed| ==> cp.completed[i].submittedAt <= cp.completed[i].completedAt <= Horizon(cp)) &&
    (forall i :: 0 <= i < |cp.samples| ==> StartOf(cp.samples[i]) <= cp.samples[i].observedAt <= Horizon(cp))
  }

  /** Every time has `t` digits and every resource takes `width` bytes. */
  ghost predicate Steady(cp: Checkpoint, t: nat, width: nat) {
    (forall i :: 0 <= i < |cp.completed| ==>
       Digits(cp.completed[i].submittedAt) == Digits(cp.completed[i].completedAt) == t) &&
    (forall i :: 0 <= i < |cp.samples| ==> SteadySample(cp.samples[i], t, width))
  }

  ghost predicate SteadySample(sample: Sample, t: nat, width: nat) {
    sample.observationStartedAt.Some? && Digits(StartOf(sample)) == Digits(sample.observedAt) == t &&
    ResourceBytes(sample.resource) == width
  }

  lemma {:induction false} ObservationsAreOrdered(cp: Checkpoint, i: nat, k: nat)
    requires WellFormed(cp) && i <= k <= |cp.samples|
    ensures ObservedBefore(cp, i) <= ObservedBefore(cp, k)
    decreases k
  {
    if i < k {
      assert SampleOk(cp, k - 1);
      ObservationsAreOrdered(cp, i, k - 1);
    }
  }

  /** If the last observation is within the horizon, all times are. */
  lemma HistoryIsWithin(cp: Checkpoint)
    requires WellFormed(cp) && LastAt(cp) <= Horizon(cp)
    ensures TimesWithin(cp)
  {
    forall i | 0 <= i < |cp.samples|
      ensures StartOf(cp.samples[i]) <= cp.samples[i].observedAt <= Horizon(cp)
    {
      assert SampleOk(cp, i);
      ObservationsAreOrdered(cp, i + 1, |cp.samples|);
    }
    forall i | 0 <= i < |cp.completed|
      ensures cp.completed[i].submittedAt <= cp.completed[i].completedAt <= Horizon(cp)
    {
      assert CompletionOk(cp, i) && SampleOk(cp, i);
    }
  }

  lemma OneCompletion(cp: Checkpoint, i: nat, t: nat)
    requires WellFormed(cp) && TimesWithin(cp) && t == Digits(Horizon(cp)) && i < |cp.completed|
    ensures CompletionBytes(cp.completed[i]) <= COMPLETION_FRAME + Digits(i + 1) + 2 * t
    ensures Digits(cp.completed[i].submittedAt) == Digits(cp.completed[i].completedAt) == t ==>
              CompletionBytes(cp.completed[i]) == COMPLETION_FRAME + Digits(i + 1) + 2 * t
  {
    assert CompletionOk(cp, i);
    DigitsGrow(cp.completed[i].submittedAt, Horizon(cp));
    DigitsGrow(cp.completed[i].completedAt, Horizon(cp));
  }

  lemma OneSample(cp: Checkpoint, i: nat, t: nat, width: nat)
    requires WellFormed(cp) && TimesWithin(cp) && SamplesWithin(cp, width) && t == Digits(Horizon(cp)) && i < |cp.samples|
    ensures var bytes := SAMPLE_FRAME + START_FRAME + Digits(Min(i + 1, ExpectedRuns(cp))) + 2 * t + width;
            SampleBytes(cp.samples[i]) <= bytes &&
            (SteadySample(cp.samples[i], t, width) ==> SampleBytes(cp.samples[i]) == bytes)
  {
    assert SampleOk(cp, i);
    DigitsGrow(StartOf(cp.samples[i]), Horizon(cp));
    DigitsGrow(cp.samples[i].observedAt, Horizon(cp));
  }

  function PrefixBytes(cp: Checkpoint, k: nat): nat
    requires k <= |cp.completed| && k <= |cp.samples|
  {
    CompletionsBytes(cp.completed[..k]) + SamplesBytes(cp.samples[..k])
  }

  lemma PrefixGrows(cp: Checkpoint, k: nat)
    requires 0 < k <= |cp.completed| && k <= |cp.samples|
    ensures PrefixBytes(cp, k) ==
              PrefixBytes(cp, k - 1) + 2 * Comma(k - 1) + CompletionBytes(cp.completed[k - 1]) + SampleBytes(cp.samples[k - 1])
  {
    assert cp.completed[..k][..k - 1] == cp.completed[..k - 1];
    assert cp.samples[..k][..k - 1] == cp.samples[..k - 1];
  }

  /** One completion and its sample, against the widest pair. */
  lemma OnePair(cp: Checkpoint, k: nat, t: nat, width: nat)
    requires WellFormed(cp) && TimesWithin(cp) && SamplesWithin(cp, width) && t == Digits(Horizon(cp))
    requires 0 < k <= |cp.completed|
    ensures CompletionBytes(cp.completed[k - 1]) + SampleBytes(cp.samples[k - 1]) <= PairBytes(k, t, width)
    ensures Steady(cp, t, width) ==>
              CompletionBytes(cp.completed[k - 1]) + SampleBytes(cp.samples[k - 1]) == PairBytes(k, t, width)
  {
    OneCompletion(cp, k - 1, t);
    OneSample(cp, k - 1, t, width);
  }

  /** The first `k` completions and samples take at most the bytes of the widest history, and steady ones just these. */
  lemma {:induction false} PairsTakeHistory(cp: Checkpoint, k: nat, t: nat, width: nat)
    requires WellFormed(cp) && TimesWithin(cp) && SamplesWithin(cp, width) && t == Digits(Horizon(cp))
    requires k <= |cp.completed|
    ensures PrefixBytes(cp, k) <= HistoryBytes(k, t, width)
    ensures Steady(cp, t, width) ==> PrefixBytes(cp, k) == HistoryBytes(k, t, width)
    decreases k
  {
    if k > 0 {
      PairsTakeHistory(cp, k - 1, t, width);
      PrefixGrows(cp, k);
      OnePair(cp, k, t, width);
    }
  }

  /** A checkpoint that is not complete has one sample for each completion. */
  lemma UnfinishedBytes(cp: Checkpoint, width: nat)
    requires WellFormed(cp) && TimesWithin(cp) && SamplesWithin(cp, width) && !cp.complete
    ensures CompletionsBytes(cp.completed) + SamplesBytes(cp.samples) <= HistoryBytes(|cp.completed|, Digits(Horizon(cp)), width)
    ensures Steady(cp, Digits(Horizon(cp)), width) ==>
              CompletionsBytes(cp.completed) + SamplesBytes(cp.samples) == HistoryBytes(|cp.completed|, Digits(Horizon(cp)), width)
  {
    PairsTakeHistory(cp, |cp.completed|, Digits(Horizon(cp)), width);
    assert cp.completed[..|cp.completed|] == cp.completed && cp.samples[..|cp.completed|] == cp.samples;
  }

  lemma {:induction false} HeldGrows(cp: Checkpoint, j: nat, k: nat, t: nat, width: nat)
    requires j <= k
    ensures HeldBytes(cp, j, t, width) <= HeldBytes(cp, k, t, width)
    decreases k
  {
    if j < k {
      HeldGrows(cp, j, k - 1, t, width);
      DigitsGrow(k, k + 1);
    }
  }

  /** A pending intent takes at most the bytes of the widest one. */
  lemma PendingIsWithin(cp: Checkpoint)
    requires WellFormed(cp) && |cp.completed| < ExpectedRuns(cp)
    ensures cp.pending.Some? ==>
              PendingBytes(cp.binding, cp.pending.value) <=
              PENDING_FRAME + 2 * cp.binding.runIdBytes + 2 * Digits(|cp.completed| + 1) + Digits(Horizon(cp)) + RUN_ID_BYTES
  {
    if cp.pending.Some? {
      DigitsGrow(cp.pending.value.submittedAt, Horizon(cp));
    }
  }

  lemma HeldIsEnough(cp: Checkpoint, width: nat)
    requires WellFormed(cp) && TimesWithin(cp) && SamplesWithin(cp, width) && !cp.complete
    requires |cp.completed| < ExpectedRuns(cp)
    ensures EncodedBytes(cp) <= HeldBytes(cp, |cp.completed|, Digits(Horizon(cp)), width)
  {
    UnfinishedBytes(cp, width);
    PendingIsWithin(cp);
  }

  /** What is still before its end fits into a roomy budget. */
  lemma UnfinishedFits(cp: Checkpoint, width: nat)
    requires WellFormed(cp) && TimesWithin(cp) && SamplesWithin(cp, width) && Roomy(cp, width) && !cp.complete
    ensures Fits(cp)
  {
    if |cp.completed| < ExpectedRuns(cp) {
      HeldIsEnough(cp, width);
      HeldGrows(cp, |cp.completed|, ExpectedRuns(cp) - 1, Digits(Horizon(cp)), width);
    } else {
      UnfinishedBytes(cp, width);
      assert cp.pending.None?;
    }
  }

  /** So does what is complete. */
  lemma CompleteFits(cp: Checkpoint, width: nat)
    requires WellFormed(cp) && TimesWithin(cp) && SamplesWithin(cp, width) && Roomy(cp, width) && cp.complete
    ensures Fits(cp)
  {
    var n, t := ExpectedRuns(cp), Digits(Horizon(cp));
    PairsTakeHistory(cp, n, t, width);
    OneSample(cp, n, t, width);
    assert cp.completed[..n] == cp.completed && cp.samples[..|cp.samples| - 1] == cp.samples[..n];
  }

  /** In a roomy budget every checkpoint whose times and resources keep to it fits. */
  lemma RoomyFits(cp: Checkpoint, width: nat)
    requires WellFormed(cp) && LastAt(cp) <= Horizon(cp) && SamplesWithin(cp, width) && Roomy(cp, width)
    ensures Fits(cp)
  {
    HistoryIsWithin(cp);
    if cp.complete {
      CompleteFits(cp, width);
    } else {
      UnfinishedFits(cp, width);
    }
  }

  /** A steady history that is complete takes exactly the bytes that the budget needs room for. */
  lemma SteadyFinal(cp: Checkpoint, width: nat)
    requires WellFormed(cp) && LastAt(cp) <= Horizon(cp) && SamplesWithin(cp, width) && cp.complete
    requires Steady(cp, Digits(Horizon(cp)), width)
    ensures EncodedBytes(cp) == FinalBytes(cp, ExpectedRuns(cp), Digits(Horizon(cp)), width)
  {
    HistoryIsWithin(cp);
    var n, t := ExpectedRuns(cp), Digits(Horizon(cp));
    PairsTakeHistory(cp, n, t, width);
    OneSample(cp, n, t, width);
    assert cp.completed[..n] == cp.completed && cp.samples[..|cp.samples| - 1] == cp.samples[..n];
  }

  lemma {:induction false} HistoryInTotal(k: nat, t: nat, width: nat)
    requires k >= 1
    ensures HistoryBytes(k, t, width) ==
              k * (COMPLETION_FRAME + SAMPLE_FRAME + START_FRAME + 4 * t + width + 2) - 2 + 2 * SequenceDigits(k)
  {
    var pair := COMPLETION_FRAME + SAMPLE_FRAME + START_FRAME + 4 * t + width + 2;
    assert SequenceDigits(k) == SequenceDigits(k - 1) + Digits(k);
    if k > 1 {
      HistoryInTotal(k - 1, t, width);
      assert k * pair == (k - 1) * pair + pair;
    } else {
      assert SequenceDigits(0) == 0 && HistoryBytes(0, t, width) == 0;
    }
  }

  lemma PairAtMost(k: nat, t: nat, width: nat)
    requires k <= 999 && t <= 16 && width <= 400
    ensures PairBytes(k, t, width) + 2 <= 800
  {
    DigitsGrow(k, 999);
    assert Digits(999) == 3;
  }

  /** Sixteen digits for every time, and three for every sequence number. */
  lemma {:induction false} HistoryAtMost(k: nat, t: nat, width: nat)
    requires k <= 999 && t <= 16 && width <= 400
    ensures HistoryBytes(k, t, width) <= 800 * k
  {
    if k > 0 {
      HistoryAtMost(k - 1, t, width);
      PairAtMost(k, t, width);
    }
  }

  lemma ShellAtMost(cp: Checkpoint)
    requires BindingOk(cp.binding) && BudgetOk(cp)
    ensures ShellBytes(cp) <= 6500
  {
    SafeDigits(cp.startedAt);
    SafeDigits(cp.endAt);
    SafeDigits(cp.intervalMs);
    SafeDigits(cp.timerDelayMs);
  }

  lemma HorizonDigits(cp: Checkpoint)
    requires BudgetOk(cp)
    ensures Digits(Horizon(cp)) <= 16
  {
    DigitsGrow(Horizon(cp), 9_999_999_999_999_999);
    assert Digits(9_999_999_999_999_999) == 16;
  }

  /** Resources as they are in practice leave room in every budget that the validator accepts. */
  lemma PlainResourcesHaveRoom(cp: Checkpoint, width: nat)
    requires BindingOk(cp.binding) && BudgetOk(cp) && ExpectedRuns(cp) >= 1 && width <= 400
    ensures Roomy(cp, width)
  {
    var n, t := ExpectedRuns(cp), Digits(Horizon(cp));
    HorizonDigits(cp);
    ShellAtMost(cp);
    PairAtMost(n, t, width);
    HistoryAtMost(n - 1, t, width);
    HistoryAtMost(n, t, width);
  }

  // ---- creation ----

  lemma InitialFits(cp: Checkpoint)
    requires BindingOk(cp.binding) && BudgetOk(cp)
    requires cp.completed == [] && cp.samples == [] && cp.pending.None? && !cp.complete
    ensures Fits(cp)
  {
    SafeDigits(cp.startedAt);
    SafeDigits(cp.endAt);
    SafeDigits(cp.intervalMs);
    SafeDigits(cp.timerDelayMs);
  }

  function Initial(
    binding: Binding, startedAt: int, durationMs: int, intervalMs: Option<int>, timerDelayMs: Option<int>): Checkpoint
  {
    Checkpoint(
      binding, startedAt, startedAt + durationMs,
      if intervalMs.Some? then intervalMs.value else 900_000,
      if timerDelayMs.Some? then timerDelayMs.value else 1000,
      [], [], None, false)
  }

  lemma QuotientIsNonnegative(a: int, b: int)
    requires a >= 0 && b > 0
    ensures a / b >= 0
  {
  }

  /** A budget as it was asked for, with a quarter of an hour and a second where nothing was said, and no history. */
  predicate Starts(
    cp: Checkpoint, binding: Binding, startedAt: int, durationMs: int, intervalMs: Option<int>, timerDelayMs: Option<int>)
  {
    cp.binding == binding && cp.startedAt == startedAt && cp.endAt - cp.startedAt == durationMs &&
    (intervalMs == Some(cp.intervalMs) || (intervalMs.None? && cp.intervalMs == 15 * 60 * 1000)) &&
    (timerDelayMs == Some(cp.timerDelayMs) || (timerDelayMs.None? && cp.timerDelayMs == 1000)) &&
    |cp.completed| == |cp.samples| == 0 && cp.pending.None? && !cp.complete
  }

  /** Create the fixed wall-clock budget; the validator decides whether it is acceptable. */
  method Create(binding: Binding, startedAt: int, durationMs: int, intervalMs: Option<int>, timerDelayMs: Option<int>)
    returns (cp: Option<Checkpoint>)
    ensures cp.Some? ==> Valid(cp.value) && Starts(cp.value, binding, startedAt, durationMs, intervalMs, timerDelayMs)
    ensures cp.None? <==> !BindingOk(binding) || !BudgetOk(Initial(binding, startedAt, durationMs, intervalMs, timerDelayMs))
  {
    var initial := Initial(binding, startedAt, durationMs, intervalMs, timerDelayMs);
    var ok := Validate(initial);
    if BindingOk(binding) && BudgetOk(initial) {
      QuotientIsNonnegative(initial.endAt - initial.startedAt - TICK_BUDGET_MS, initial.intervalMs);
      InitialFits(initial);
    }
    cp := if ok then Some(initial) else None;
  }
}
