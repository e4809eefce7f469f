/** The retained soak checkpoint, its validator, and the decisions a tick makes from it. */
module Soak {
  import opened Options

  const TICK_BUDGET_MS := 300_000
  const MAX_RUNS := 299
  const MAX_DURATION_MS := 72 * 60 * 60 * 1000
  const MAX_RSS_BYTES := 512 * 1024 * 1024
  const MIN_DISK_BYTES := 256 * 1024 * 1024
  const MAX_STATE_BYTES := 512 * 1024 * 1024
  const MAX_JOURNAL_BYTES := 256 * 1024 * 1024
  const MAX_CHECKPOINT_BYTES := 256 * 1024
  const MAX_SAFE_INTEGER := 0x1F_FFFF_FFFF_FFFF

  /** A run's ID, a digest and a boot's ID; their texts have one length each. */
  type RunId = nat
  type Digest = nat
  type BootId = nat

  /** `startTicks` is kept as the text that the host reported. */
  datatype Resident = Resident(bootId: BootId, pid: int, startTicks: string)

  datatype Resource = Resource(
    resident: Resident, clockTicksPerSecond: int, residentCpuTicks: nat, residentRssBytes: nat,
    homeBytes: nat, appBytes: nat, stateBytes: nat, payloadBytes: nat,
    diskTotalBytes: nat, diskAvailableBytes: nat, userJournalBytes: nat)

  datatype Completion = Completion(
    sequence: int, runId: RunId, submittedAt: int, completedAt: int, ledgerDigest: Digest, markerDigest: Digest)

  /** Older samples carry no start of their observation. */
  datatype Sample = Sample(sequence: int, observationStartedAt: Option<int>, observedAt: int, resource: Resource)

  /** The idempotency key and the input path are functions of the sequence number. */
  datatype Pending = Pending(sequence: int, runId: Option<RunId>, submittedAt: int)

  /** The lengths in bytes of the four binding texts as they are encoded, the run's own apart from the others. */
  datatype Binding = Binding(runIdBytes: nat, otherBytes: nat)

  datatype Checkpoint = Checkpoint(
    binding: Binding, startedAt: int, endAt: int, intervalMs: int, timerDelayMs: int,
    completed: seq<Completion>, samples: seq<Sample>, pending: Option<Pending>, complete: bool)

  function Min(a: int, b: int): int {
    if a < b then a else b
  }

  // ---- the encoded size ----

  // What the JSON text of each object takes besides its numbers and its texts of variable length:

  /** schemaVersion 1, the kind, and the names binding (with its four), startedAt to complete, and two empty lists. */
  const CHECKPOINT_FRAME := 252

  /** The names sequence, runId (47 characters), submittedAt, completedAt and two digests (64 characters each). */
  const COMPLETION_FRAME := 265

  /** The names sequence, observedAt and resource. */
  const SAMPLE_FRAME := 39

  /** The name observationStartedAt. */
  const START_FRAME := 24

  /** schemaVersion 1, the kind, bootId (36 characters), startTicks, and the eleven names of the counters. */
  const RESOURCE_FRAME := 317

  /** The names sequence to submittedAt, `soak::`, and the input path with four places for the number. */
  const PENDING_FRAME := 122

  /** A quoted run ID. */
  const RUN_ID_BYTES := 49

  /** The length of a number's decimal text. */
  function Digits(n: int): nat {
    if n < 10 then 1 else 1 + Digits(n / 10)
  }

  function ResourceBytes(r: Resource): nat {
    RESOURCE_FRAME + |r.resident.startTicks| + Digits(r.resident.pid) + Digits(r.residentRssBytes) +
    Digits(r.residentCpuTicks) + Digits(r.clockTicksPerSecond) + Digits(r.homeBytes) + Digits(r.appBytes) +
    Digits(r.stateBytes) + Digits(r.payloadBytes) + Digits(r.diskTotalBytes) + Digits(r.diskAvailableBytes) +
    Digits(r.userJournalBytes)
  }

  function CompletionBytes(entry: Completion): nat {
    COMPLETION_FRAME + Digits(entry.sequence) + Digits(entry.submittedAt) + Digits(entry.completedAt)
  }

  function SampleBytes(sample: Sample): nat {
    SAMPLE_FRAME + Digits(sample.sequence) + Digits(sample.observedAt) + ResourceBytes(sample.resource) +
    (if sample.observationStartedAt.Some? then START_FRAME + Digits(sample.observationStartedAt.value) else 0)
  }

  /** The idempotency key repeats the sequence number and the run; the input path pads the number to four places. */
  function PendingBytes(binding: Binding, pending: Pending): nat {
    PENDING_FRAME + 2 * binding.runIdBytes + 2 * Digits(pending.sequence) + Digits(pending.submittedAt) +
    (if pending.runId.Some? then RUN_ID_BYTES else |"null"|)
  }

  function Comma(front: nat): nat {
    if front == 0 then 0 else 1
  }

  function CompletionsBytes(completed: seq<Completion>): nat {
    if completed == [] then 0
    else
      var front := completed[..|completed| - 1];
      CompletionsBytes(front) + Comma(|front|) + CompletionBytes(completed[|front|])
  }

  function SamplesBytes(samples: seq<Sample>): nat {
    if samples == [] then 0
    else
      var front := samples[..|samples| - 1];
      SamplesBytes(front) + Comma(|front|) + SampleBytes(samples[|front|])
  }

  /** The part of the encoding that never changes. */
  function ShellBytes(cp: Checkpoint): nat {
    CHECKPOINT_FRAME + cp.binding.runIdBytes + cp.binding.otherBytes + Digits(cp.startedAt) + Digits(cp.endAt) +
    Digits(cp.intervalMs) + Digits(cp.timerDelayMs)
  }

  /** The length in bytes of the whole checkpoint's JSON text. */
  function EncodedBytes(cp: Checkpoint): nat {
    ShellBytes(cp) + CompletionsBytes(cp.completed) + SamplesBytes(cp.samples) +
    (if cp.pending.Some? then PendingBytes(cp.binding, cp.pending.value) else |"null"|) +
    (if cp.complete then |"true"| else |"false"|)
  }

  predicate Fits(cp: Checkpoint) {
    EncodedBytes(cp) <= MAX_CHECKPOINT_BYTES
  }

  // ---- the other tests ----

  /** Each of the four texts has at most 256 code units, and none of them takes more than six bytes. */
  predicate BindingOk(binding: Binding) {
    binding.runIdBytes <= 6 * 256 && binding.otherBytes <= 3 * 6 * 256
  }

  predicate Safe(n: int) {
    0 <= n <= MAX_SAFE_INTEGER
  }

  predicate BudgetOk(cp: Checkpoint) {
    cp.startedAt >= 1 && Safe(cp.endAt) &&
    cp.endAt >= cp.startedAt + 900_000 &&
    cp.endAt - cp.startedAt <= MAX_DURATION_MS &&
    60_000 <= cp.intervalMs <= 900_000 &&
    1 <= cp.timerDelayMs <= 30_000 &&
    ExpectedRuns(cp) <= MAX_RUNS
  }

  /** The last admitted run keeps its whole observation budget before the fixed end. */
  function ExpectedRuns(cp: Checkpoint): int {
    if cp.intervalMs > 0 then (cp.endAt - cp.startedAt - TICK_BUDGET_MS) / cp.intervalMs + 1 else 0
  }

  function Slot(cp: Checkpoint, index: int): int {
    cp.startedAt + index * cp.intervalMs
  }

  function CompletedBefore(cp: Checkpoint, i: nat): int
    requires i <= |cp.completed|
  {
    if i == 0 then cp.startedAt else cp.completed[i - 1].completedAt
  }

  function ObservedBefore(cp: Checkpoint, i: nat): int
    requires i <= |cp.samples|
  {
    if i == 0 then cp.startedAt else cp.samples[i - 1].observedAt
  }

  function LastAt(cp: Checkpoint): int {
    ObservedBefore(cp, |cp.samples|)
  }

  predicate CompletionOk(cp: Checkpoint, i: nat)
    requires i < |cp.completed|
  {
    var entry := cp.completed[i];
    entry.sequence == i + 1 &&
    CompletedBefore(cp, i) <= entry.submittedAt &&
    Slot(cp, i) <= entry.submittedAt <= entry.completedAt && Safe(entry.completedAt) &&
    entry.submittedAt < cp.endAt
  }

  predicate TicksOk(text: string) {
    1 <= |text| <= 20 && forall c <- text :: '0' <= c <= '9'
  }

  predicate ResourceOk(r: Resource) {
    TicksOk(r.resident.startTicks) && Safe(r.resident.pid) && Safe(r.clockTicksPerSecond) && Safe(r.residentCpuTicks) &&
    Safe(r.residentRssBytes) && Safe(r.homeBytes) && Safe(r.diskTotalBytes) && Safe(r.userJournalBytes) &&
    r.resident.pid > 0 && r.clockTicksPerSecond > 0 && r.diskAvailableBytes <= r.diskTotalBytes &&
    r.payloadBytes <= r.stateBytes <= r.appBytes <= r.homeBytes
  }

  function StartOf(sample: Sample): int {
    if sample.observationStartedAt.Some? then sample.observationStartedAt.value else sample.observedAt
  }

  predicate SampleOk(cp: Checkpoint, i: nat)
    requires i < |cp.samples|
  {
    var sample := cp.samples[i];
    sample.sequence == Min(i + 1, ExpectedRuns(cp)) &&
    ObservedBefore(cp, i) <= StartOf(sample) <= sample.observedAt && Safe(sample.observedAt) &&
    sample.observedAt - StartOf(sample) <= TICK_BUDGET_MS &&
    StartOf(sample) - ObservedBefore(cp, i) <= 2 * cp.intervalMs &&
    ResourceOk(sample.resource) &&
    (i < |cp.completed| ==>
       sample.observedAt >= cp.completed[i].completedAt &&
       (sample.observationStartedAt.Some? ==> StartOf(sample) <= cp.completed[i].completedAt)) &&
    (i > 0 ==> SameResident(cp.samples[i - 1].resource, sample.resource))
  }

  predicate SameResident(previous: Resource, next: Resource) {
    next.resident == previous.resident && next.clockTicksPerSecond == previous.clockTicksPerSecond &&
    next.residentCpuTicks >= previous.residentCpuTicks
  }

  predicate PendingOk(cp: Checkpoint) {
    cp.pending.Some? ==>
      cp.pending.value.sequence == |cp.completed| + 1 <= ExpectedRuns(cp) &&
      cp.startedAt <= cp.pending.value.submittedAt < cp.endAt
  }

  predicate TerminalOk(cp: Checkpoint) {
    cp.complete ==>
      cp.pending.None? && |cp.completed| == ExpectedRuns(cp) &&
      |cp.samples| == ExpectedRuns(cp) + 1 && LastAt(cp) >= cp.endAt
  }

  predicate RunsDistinct(completed: seq<Completion>) {
    forall i, j :: 0 <= i < j < |completed| ==> completed[i].runId != completed[j].runId
  }

  predicate PendingRunFresh(cp: Checkpoint) {
    cp.pending.Some? && cp.pending.value.runId.Some? ==>
      forall entry <- cp.completed :: entry.runId != cp.pending.value.runId.value
  }

  /** What the validator asks of the contents. */
  predicate WellFormed(cp: Checkpoint) {
    BindingOk(cp.binding) && BudgetOk(cp) &&
    |cp.completed| <= ExpectedRuns(cp) && |cp.samples| <= ExpectedRuns(cp) + 1 &&
    (forall i :: 0 <= i < |cp.completed| ==> CompletionOk(cp, i)) &&
    (forall i :: 0 <= i < |cp.samples| ==> SampleOk(cp, i)) &&
    |cp.samples| == |cp.completed| + (if cp.complete then 1 else 0) &&
    PendingOk(cp) && TerminalOk(cp) && RunsDistinct(cp.completed) && PendingRunFresh(cp)
  }

  /** What the validator accepts. */
  predicate Valid(cp: Checkpoint) {
    Fits(cp) && WellFormed(cp)
  }

  function RunIds(completed: seq<Completion>): set<RunId> {
    set entry <- completed :: entry.runId
  }

  /** Counting the distinct run IDs is the same as comparing every two of them. */
  lemma {:induction false} DistinctByCounting(completed: seq<Completion>)
    ensures |RunIds(completed)| <= |completed|
    ensures |RunIds(completed)| == |completed| <==> RunsDistinct(completed)
  {
    if completed != [] {
      var init, last := completed[..|completed| - 1], completed[|completed| - 1];
      DistinctByCounting(init);
      assert completed == init + [last];
      assert RunIds(completed) == RunIds(init) + {last.runId};
      if last.runId in RunIds(init) {
        assert RunIds(completed) == RunIds(init);
        var entry :| entry in init && entry.runId == last.runId;
        var i :| 0 <= i < |init| && init[i] == entry;
        assert completed[i].runId == completed[|completed| - 1].runId;
      } else {
        assert forall i :: 0 <= i < |init| ==> init[i].runId in RunIds(init);
      }
    }
  }

  /** The tests of the budget. */
  method ValidateBudget(cp: Checkpoint) returns (ok: bool)
    ensures ok <==> BudgetOk(cp)
  {
    if cp.startedAt < 1 || cp.endAt < cp.startedAt + 900_000 || cp.endAt > MAX_SAFE_INTEGER ||
       cp.endAt - cp.startedAt > MAX_DURATION_MS {
      return false;
    }
    if cp.intervalMs < 60_000 || cp.intervalMs > 900_000 || cp.timerDelayMs < 1 || cp.timerDelayMs > 30_000 {
      return false;
    }
    return ExpectedRuns(cp) <= MAX_RUNS;
  }

  /** The tests of one resource observation. */
  method ValidateResource(r: Resource) returns (ok: bool)
    ensures ok <==> ResourceOk(r)
  {
    var ticks := r.resident.startTicks;
    if |ticks| < 1 || |ticks| > 20 {
      return false;
    }
    for k := 0 to |ticks|
      invariant forall j :: 0 <= j < k ==> '0' <= ticks[j] <= '9'
    {
      if ticks[k] < '0' || ticks[k] > '9' {
        assert ticks[k] in ticks;
        return false;
      }
    }
    var counters := [
      r.resident.pid, r.residentRssBytes, r.residentCpuTicks, r.clockTicksPerSecond, r.homeBytes, r.appBytes, r.stateBytes,
      r.payloadBytes, r.diskTotalBytes, r.diskAvailableBytes, r.userJournalBytes];
    for k := 0 to |counters|
      invariant forall j :: 0 <= j < k ==> counters[j] <= MAX_SAFE_INTEGER
    {
      if counters[k] > MAX_SAFE_INTEGER {
        return false;
      }
    }
    assert forall j | 0 <= j < 11 :: counters[j] <= MAX_SAFE_INTEGER;
    assert counters[0] == r.resident.pid && counters[1] == r.residentRssBytes && counters[2] == r.residentCpuTicks &&
           counters[3] == r.clockTicksPerSecond && counters[4] == r.homeBytes && counters[8] == r.diskTotalBytes &&
           counters[10] == r.userJournalBytes;
    return r.resident.pid > 0 && r.clockTicksPerSecond > 0 && r.diskAvailableBytes <= r.diskTotalBytes &&
           r.payloadBytes <= r.stateBytes && r.stateBytes <= r.appBytes && r.appBytes <= r.homeBytes;
  }

  /** The tests of the pending intent and of the end, once both lists are read. */
  method ValidateEnd(cp: Checkpoint, lastAt: int) returns (ok: bool)
    requires lastAt == LastAt(cp)
    ensures ok <==>
              |cp.samples| == |cp.completed| + (if cp.complete then 1 else 0) && PendingOk(cp) && TerminalOk(cp)
  {
    if |cp.samples| != |cp.completed| + (if cp.complete then 1 else 0) {
      return false;
    }
    if cp.pending.Some? {
      var pending := cp.pending.value;
      if pending.sequence != |cp.completed| + 1 || pending.sequence > ExpectedRuns(cp) ||
         pending.submittedAt < cp.startedAt || pending.submittedAt >= cp.endAt {
        return false;
      }
    }
    return !cp.complete ||
           (cp.pending.None? && |cp.completed| == ExpectedRuns(cp) && |cp.samples| == ExpectedRuns(cp) + 1 && lastAt >= cp.endAt);
  }

  /** Validate retained authority in one pass over each list. */
  method Validate(cp: Checkpoint) returns (ok: bool)
    ensures ok <==> Valid(cp)
  {
    ok := ValidateBudget(cp);
    if !Fits(cp) || !BindingOk(cp.binding) || !ok || |cp.completed| > ExpectedRuns(cp) || |cp.samples| > ExpectedRuns(cp) + 1 {
      return false;
    }
    var previousAt := cp.startedAt;
    for i := 0 to |cp.completed|
      invariant previousAt == CompletedBefore(cp, i)
      invariant forall k :: 0 <= k < i ==> CompletionOk(cp, k)
    {
      var entry := cp.completed[i];
      if entry.sequence != i + 1 || entry.submittedAt < previousAt ||
         entry.submittedAt < cp.startedAt + i * cp.intervalMs ||
         entry.completedAt < entry.submittedAt || !Safe(entry.completedAt) || entry.submittedAt >= cp.endAt {
        assert !CompletionOk(cp, i);
        return false;
      }
      previousAt := entry.completedAt;
    }
    previousAt := cp.startedAt;
    for i := 0 to |cp.samples|
      invariant previousAt == ObservedBefore(cp, i)
      invariant forall k :: 0 <= k < i ==> SampleOk(cp, k)
    {
      var sample := cp.samples[i];
      var startedAt := StartOf(sample);
      ok := ValidateResource(sample.resource);
      if sample.sequence != Min(i + 1, ExpectedRuns(cp)) || sample.observedAt < previousAt ||
         startedAt < previousAt || startedAt > sample.observedAt || !Safe(sample.observedAt) ||
         sample.observedAt - startedAt > TICK_BUDGET_MS || startedAt - previousAt > 2 * cp.intervalMs ||
         !ok {
        assert !SampleOk(cp, i);
        return false;
      }
      if i < |cp.completed| {
        var completedAt := cp.completed[i].completedAt;
        if sample.observedAt < completedAt || (sample.observationStartedAt.Some? && startedAt > completedAt) {
          assert !SampleOk(cp, i);
          return false;
        }
      }
      if i > 0 {
        var previous := cp.samples[i - 1].resource;
        if sample.resource.resident != previous.resident ||
           sample.resource.clockTicksPerSecond != previous.clockTicksPerSecond ||
           sample.resource.residentCpuTicks < previous.residentCpuTicks {
          assert !SampleOk(cp, i);
          return false;
        }
      }
      previousAt := sample.observedAt;
    }
    ok := ValidateEnd(cp, previousAt);
    if !ok {
      return false;
    }
    DistinctByCounting(cp.completed);
    var runIds := RunIds(cp.completed);
    if |runIds| != |cp.completed| {
      return false;
    }
    if cp.pending.Some? && cp.pending.value.runId.Some? {
      assert cp.pending.value.runId.value in runIds <==>
        exists entry <- cp.completed :: entry.runId == cp.pending.value.runId.value;
      return cp.pending.value.runId.value !in runIds;
    }
    return true;
  }

  function NextAt(cp: Checkpoint): int {
    if |cp.completed| == ExpectedRuns(cp) then cp.endAt else Slot(cp, |cp.completed|)
  }

  datatype Readiness = Done | NotDue | ClockBackwards | CoverageGap | AdmissionDeadline | Due

  /** What a tick that starts at `now` does before it touches the host. */
  function Assess(cp: Checkpoint, now: int): Readiness {
    if cp.complete then Done
    else if now < LastAt(cp) then ClockBackwards
    else if cp.pending.None? && now < NextAt(cp) then NotDue
    else if now - LastAt(cp) > 2 * cp.intervalMs then CoverageGap
    else if |cp.completed| < ExpectedRuns(cp) && now > cp.endAt - TICK_BUDGET_MS then AdmissionDeadline
    else Due
  }

  /** One finished observation: what the ports answered and when. */
  datatype Tick = Tick(
    startedAt: int, submittedAt: int, runId: RunId, completedAt: int,
    ledgerDigest: Digest, markerDigest: Digest, observedAt: int, resource: Resource)

  /** The readings of one tick are in order and inside its budget. */
  predicate InBudget(tick: Tick) {
    tick.startedAt <= tick.completedAt <= tick.observedAt < tick.startedAt + TICK_BUDGET_MS
  }

  function CompletedBy(cp: Checkpoint, tick: Tick): seq<Completion> {
    if |cp.completed| < ExpectedRuns(cp) then
      cp.completed + [Completion(|cp.completed| + 1, tick.runId, tick.submittedAt, tick.completedAt,
                                 tick.ledgerDigest, tick.markerDigest)]
    else cp.completed
  }

  /** The checkpoint that a finished tick leaves: completion and sample are committed together. */
  function After(cp: Checkpoint, tick: Tick): Checkpoint {
    var completed := CompletedBy(cp, tick);
    cp.(
      completed := completed,
      samples := cp.samples + [Sample(|completed|, Some(tick.startedAt), tick.observedAt, tick.resource)],
      pending := None,
      complete := tick.observedAt >= cp.endAt)
  }

  /** `later` is `earlier` with more history and nothing else taken back or rewritten. */
  predicate Extends(earlier: Checkpoint, later: Checkpoint) {
    later.binding == earlier.binding && later.startedAt == earlier.startedAt && later.endAt == earlier.endAt &&
    later.intervalMs == earlier.intervalMs && later.timerDelayMs == earlier.timerDelayMs &&
    earlier.completed <= later.completed && earlier.samples <= later.samples &&
    (earlier.complete ==> later == earlier)
  }
}
