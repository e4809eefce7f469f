/** The runner of one deployment command: its output, its time limit, its interruption, and its end. */
module CommandRunner {
  import opened Options

  const MAX_OUTPUT_BYTES := 4 * 1024 * 1024

  type Bytes = string

  datatype Event =
    | Stdout(bytes: Bytes)
    | Stderr(bytes: Bytes)
    | Timeout
    | Abort
    | SpawnError
    | StdinError
    | Close(status: Option<int>)

  /** What is told about a command that did not succeed. */
  datatype Diagnostic = Diagnostic(
    timedOut: bool, aborted: bool, outputLimitExceeded: bool, spawnError: bool, stdinError: bool, status: Option<int>)

  datatype Outcome = Resolved(stdout: Bytes, stderr: Bytes) | Rejected(diagnostic: Diagnostic)

  datatype State = State(
    stdout: Bytes, stderr: Bytes, diagnostic: Diagnostic, timerArmed: bool, abortHeard: bool, errorExpected: bool,
    stdinExpected: bool, closeExpected: bool, kills: nat, outcome: Option<Outcome>, settlements: nat)

  /** The command has just started; it has an input stream only if the caller gave it input. */
  function Start(hasStdin: bool): State {
    State([], [], Diagnostic(false, false, false, false, false, None), true, true, true, hasStdin, true, 0, None, 0)
  }

  predicate Faulty(diagnostic: Diagnostic) {
    diagnostic.timedOut || diagnostic.aborted || diagnostic.outputLimitExceeded || diagnostic.spawnError || diagnostic.stdinError
  }

  // ---- the callbacks ----

  function KillGroup(s: State): State {
    s.(kills := s.kills + 1)
  }

  function Take(bytes: Bytes, remaining: nat): Bytes {
    if |bytes| <= remaining then bytes else bytes[..remaining]
  }

  function Collect(s: State, chunk: Bytes, isStdout: bool): State
    requires |s.stdout| <= MAX_OUTPUT_BYTES && |s.stderr| <= MAX_OUTPUT_BYTES
  {
    var used := if isStdout then |s.stdout| else |s.stderr|;
    var remaining := MAX_OUTPUT_BYTES - used;
    var bytes := Take(chunk, remaining);
    var kept := if isStdout then s.(stdout := s.stdout + bytes) else s.(stderr := s.stderr + bytes);
    if |chunk| > remaining then KillGroup(kept.(diagnostic := s.diagnostic.(outputLimitExceeded := true))) else kept
  }

  function Released(s: State, status: Option<int>): State {
    KillGroup(s.(
      timerArmed := false, abortHeard := false, closeExpected := false, diagnostic := s.diagnostic.(status := status),
      settlements := s.settlements + 1))
  }

  function OnClose(s: State, status: Option<int>): State {
    var closed := Released(s, status);
    closed.(outcome := Some(
      if status != Some(0) || Faulty(s.diagnostic) then Rejected(closed.diagnostic) else Resolved(s.stdout, s.stderr)))
  }

  /** An event that nobody waits for any more changes nothing. */
  function Deliver(s: State, event: Event): (t: State)
    requires |s.stdout| <= MAX_OUTPUT_BYTES && |s.stderr| <= MAX_OUTPUT_BYTES
    ensures |t.stdout| <= MAX_OUTPUT_BYTES && |t.stderr| <= MAX_OUTPUT_BYTES
  {
    match event
    case Stdout(bytes) => Collect(s, bytes, true)
    case Stderr(bytes) => Collect(s, bytes, false)
    case Timeout =>
      if s.timerArmed then KillGroup(s.(timerArmed := false, diagnostic := s.diagnostic.(timedOut := true))) else s
    case Abort => if s.abortHeard then KillGroup(s.(abortHeard := false, diagnostic := s.diagnostic.(aborted := true))) else s
    case SpawnError =>
      if s.errorExpected then KillGroup(s.(errorExpected := false, diagnostic := s.diagnostic.(spawnError := true))) else s
    case StdinError =>
      if s.stdinExpected then KillGroup(s.(stdinExpected := false, diagnostic := s.diagnostic.(stdinError := true))) else s
    case Close(status) => if s.closeExpected then OnClose(s, status) else s
  }

  function Run(hasStdin: bool, events: seq<Event>): (s: State)
    ensures |s.stdout| <= MAX_OUTPUT_BYTES && |s.stderr| <= MAX_OUTPUT_BYTES
  {
    if events == [] then Start(hasStdin) else Deliver(Run(hasStdin, events[..|events| - 1]), events[|events| - 1])
  }

  // ---- what every order of events keeps ----

  function StdoutOf(events: seq<Event>): Bytes {
    if events == [] then []
    else
      var last := events[|events| - 1];
      StdoutOf(events[..|events| - 1]) + (if last.Stdout? then last.bytes else [])
  }

  function StderrOf(events: seq<Event>): Bytes {
    if events == [] then []
    else
      var last := events[|events| - 1];
      StderrOf(events[..|events| - 1]) + (if last.Stderr? then last.bytes else [])
  }

  /** What is kept of the two streams is their beginnings, up to the limit. */
  ghost predicate Beginnings(s: State, stdout: Bytes, stderr: Bytes) {
    s.stdout == Take(stdout, MAX_OUTPUT_BYTES) && s.stderr == Take(stderr, MAX_OUTPUT_BYTES) &&
    (s.diagnostic.outputLimitExceeded <==> |stdout| > MAX_OUTPUT_BYTES || |stderr| > MAX_OUTPUT_BYTES)
  }

  lemma TakeInTwoParts(a: Bytes, b: Bytes)
    ensures var taken := Take(a, MAX_OUTPUT_BYTES);
            Take(a + b, MAX_OUTPUT_BYTES) == taken + Take(b, MAX_OUTPUT_BYTES - |taken|) &&
            (|a + b| > MAX_OUTPUT_BYTES <==> |a| > MAX_OUTPUT_BYTES || |b| > MAX_OUTPUT_BYTES - |taken|)
  {
  }

  lemma CollectKeepsBeginnings(s: State, stdout: Bytes, stderr: Bytes, chunk: Bytes, isStdout: bool)
    requires Beginnings(s, stdout, stderr)
    ensures Beginnings(
              Collect(s, chunk, isStdout), if isStdout then stdout + chunk else stdout, if isStdout then stderr else stderr + chunk)
  {
    TakeInTwoParts(if isStdout then stdout else stderr, chunk);
  }

  lemma DeliverKeepsBeginnings(s: State, stdout: Bytes, stderr: Bytes, event: Event)
    requires Beginnings(s, stdout, stderr)
    ensures Beginnings(
              Deliver(s, event), stdout + (if event.Stdout? then event.bytes else []),
              stderr + (if event.Stderr? then event.bytes else []))
    ensures Deliver(s, event).closeExpected <==> s.closeExpected && !event.Close?
  {
    assert stdout + [] == stdout && stderr + [] == stderr;
    if event.Stdout? || event.Stderr? {
      CollectKeepsBeginnings(s, stdout, stderr, event.bytes, event.Stdout?);
    }
  }

  lemma {:induction false} KeepsTheBeginning(hasStdin: bool, events: seq<Event>)
    ensures Beginnings(Run(hasStdin, events), StdoutOf(events), StderrOf(events))
  {
    if events != [] {
      var front, last := events[..|events| - 1], events[|events| - 1];
      KeepsTheBeginning(hasStdin, front);
      DeliverKeepsBeginnings(Run(hasStdin, front), StdoutOf(front), StderrOf(front), last);
    }
  }

  ghost predicate Inv(s: State) {
    s.settlements == (if s.closeExpected then 0 else 1) && (s.outcome.Some? <==> !s.closeExpected) &&
    (!s.closeExpected ==> !s.timerArmed && !s.abortHeard) &&
    (s.closeExpected ==>
       (s.timerArmed <==> !s.diagnostic.timedOut) && (s.abortHeard <==> !s.diagnostic.aborted)) &&
    (s.kills == 0 <==> s.closeExpected && !Faulty(s.diagnostic)) &&
    (s.errorExpected <==> !s.diagnostic.spawnError) && (s.diagnostic.stdinError ==> !s.stdinExpected)
  }

  lemma DeliverKeepsInv(s: State, event: Event)
    requires Inv(s) && |s.stdout| <= MAX_OUTPUT_BYTES && |s.stderr| <= MAX_OUTPUT_BYTES
    ensures Inv(Deliver(s, event))
  {
    match event
    case Stdout(bytes) => CollectKeepsInv(s, bytes, true);
    case Stderr(bytes) => CollectKeepsInv(s, bytes, false);
    case _ =>
  }

  lemma CollectKeepsInv(s: State, chunk: Bytes, isStdout: bool)
    requires Inv(s) && |s.stdout| <= MAX_OUTPUT_BYTES && |s.stderr| <= MAX_OUTPUT_BYTES
    ensures Inv(Collect(s, chunk, isStdout))
  {
  }

  /** The process group is killed at every fault and at the end, the end comes once, and then no timer is left. */
  lemma {:induction false} EveryOrderKeepsInv(hasStdin: bool, events: seq<Event>)
    ensures Inv(Run(hasStdin, events))
  {
    if events != [] {
      EveryOrderKeepsInv(hasStdin, events[..|events| - 1]);
      DeliverKeepsInv(Run(hasStdin, events[..|events| - 1]), events[|events| - 1]);
    }
  }

  // ---- when a command succeeds ----

  /** Nothing but output within the limits so far; an input stream that is not there cannot fail. */
  ghost predicate Quiet(hasStdin: bool, events: seq<Event>) {
    (forall k :: 0 <= k < |events| ==>
       events[k].Stdout? || events[k].Stderr? || (events[k].StdinError? && !hasStdin)) &&
    |StdoutOf(events)| <= MAX_OUTPUT_BYTES && |StderrOf(events)| <= MAX_OUTPUT_BYTES
  }

  lemma QuietGrows(hasStdin: bool, events: seq<Event>)
    requires events != []
    ensures var front, last := events[..|events| - 1], events[|events| - 1];
            Quiet(hasStdin, events) <==>
            Quiet(hasStdin, front) && (last.Stdout? || last.Stderr? || (last.StdinError? && !hasStdin)) &&
            |StdoutOf(events)| <= MAX_OUTPUT_BYTES && |StderrOf(events)| <= MAX_OUTPUT_BYTES
  {
    var front := events[..|events| - 1];
    assert forall k :: 0 <= k < |front| ==> events[k] == front[k];
  }

  ghost predicate Faultless(s: State) {
    s.closeExpected && !Faulty(s.diagnostic)
  }

  lemma {:induction false} QuietExactlyWhileFaultless(hasStdin: bool, events: seq<Event>)
    ensures Faultless(Run(hasStdin, events)) <==> Quiet(hasStdin, events)
    ensures Faultless(Run(hasStdin, events)) ==> (Run(hasStdin, events).stdinExpected <==> hasStdin)
  {
    if events != [] {
      var front, last := events[..|events| - 1], events[|events| - 1];
      QuietExactlyWhileFaultless(hasStdin, front);
      QuietGrows(hasStdin, events);
      EveryOrderKeepsInv(hasStdin, front);
      KeepsTheBeginning(hasStdin, events);
      KeepsTheBeginning(hasStdin, front);
      OneMoreEvent(Run(hasStdin, front), last);
    }
  }

  /** A command stays faultless through output that is not too much, and through what it cannot hear. */
  lemma OneMoreEvent(s: State, event: Event)
    requires Inv(s) && |s.stdout| <= MAX_OUTPUT_BYTES && |s.stderr| <= MAX_OUTPUT_BYTES
    ensures Faultless(Deliver(s, event)) <==>
              Faultless(s) && !Deliver(s, event).diagnostic.outputLimitExceeded &&
              (event.Stdout? || event.Stderr? || (event.StdinError? && !s.stdinExpected))
    ensures Faultless(Deliver(s, event)) ==> Deliver(s, event).stdinExpected == s.stdinExpected
  {
  }

  ghost predicate CleanClose(hasStdin: bool, events: seq<Event>, n: nat, stdout: Bytes, stderr: Bytes) {
    n < |events| && events[n] == Close(Some(0)) && Quiet(hasStdin, events[..n]) &&
    stdout == StdoutOf(events[..n]) && stderr == StderrOf(events[..n])
  }

  /**
   * For every order of events the command resolves exactly when it closes with
   * status zero before anything else than output within the limits has happened,
   * and then with all of that output.
   */
  lemma {:induction false} ResolvesExactlyOnCleanClose(hasStdin: bool, events: seq<Event>, stdout: Bytes, stderr: Bytes)
    ensures Run(hasStdin, events).outcome == Some(Resolved(stdout, stderr)) <==>
              exists n: nat :: CleanClose(hasStdin, events, n, stdout, stderr)
  {
    if events != [] {
      var front, last := events[..|events| - 1], events[|events| - 1];
      ResolvesExactlyOnCleanClose(hasStdin, front, stdout, stderr);
      QuietExactlyWhileFaultless(hasStdin, front);
      KeepsTheBeginning(hasStdin, front);
      EveryOrderKeepsInv(hasStdin, front);
      ResolvedByOneEvent(Run(hasStdin, front), last, stdout, stderr);
      CleanCloseComes(hasStdin, events, stdout, stderr);
    }
  }

  lemma ResolvedByOneEvent(s: State, event: Event, stdout: Bytes, stderr: Bytes)
    requires Inv(s) && |s.stdout| <= MAX_OUTPUT_BYTES && |s.stderr| <= MAX_OUTPUT_BYTES
    ensures Deliver(s, event).outcome == Some(Resolved(stdout, stderr)) <==>
              s.outcome == Some(Resolved(stdout, stderr)) ||
              (Faultless(s) && event == Close(Some(0)) && stdout == s.stdout && stderr == s.stderr)
  {
  }

  lemma CleanCloseComes(hasStdin: bool, events: seq<Event>, stdout: Bytes, stderr: Bytes)
    requires events != []
    ensures var front := events[..|events| - 1];
            (exists n: nat :: CleanClose(hasStdin, events, n, stdout, stderr)) <==>
            (exists n: nat :: CleanClose(hasStdin, front, n, stdout, stderr)) ||
            (events[|front|] == Close(Some(0)) && Quiet(hasStdin, front) && stdout == StdoutOf(front) && stderr == StderrOf(front))
  {
    var front := events[..|events| - 1];
    forall n: nat | n < |front|
      ensures CleanClose(hasStdin, events, n, stdout, stderr) <==> CleanClose(hasStdin, front, n, stdout, stderr)
    {
      assert events[..n] == front[..n];
    }
    assert CleanClose(hasStdin, events, |front|, stdout, stderr) <==>
           events[|front|] == Close(Some(0)) && Quiet(hasStdin, front) && stdout == StdoutOf(front) && stderr == StderrOf(front);
  }

  // ---- the promise's own variables ----

  class Command {
    var stdout: Bytes
    var stderr: Bytes
    var diagnostic: Diagnostic
    var timerArmed: bool
    var abortHeard: bool
    var errorExpected: bool
    var stdinExpected: bool
    var closeExpected: bool
    var kills: nat
    var outcome: Option<Outcome>
    ghost var settlements: nat

    constructor (hasStdin: bool)
      ensures Now() == Start(hasStdin)
    {
      stdout, stderr, diagnostic := [], [], Diagnostic(false, false, false, false, false, None);
      timerArmed, abortHeard, errorExpected, stdinExpected, closeExpected := true, true, true, hasStdin, true;
      kills, outcome, settlements := 0, None, 0;
    }

    ghost function Now(): State
      reads this
    {
      State(stdout, stderr, diagnostic, timerArmed, abortHeard, errorExpected, stdinExpected, closeExpected, kills, outcome,
            settlements)
    }

    method OnOutput(chunk: Bytes, isStdout: bool)
      requires |stdout| <= MAX_OUTPUT_BYTES && |stderr| <= MAX_OUTPUT_BYTES
      modifies this
      ensures Now() == Collect(old(Now()), chunk, isStdout)
    {
      var used := if isStdout then |stdout| else |stderr|;
      var remaining := MAX_OUTPUT_BYTES - used;
      var bytes := if |chunk| <= remaining then chunk else chunk[..remaining];
      if isStdout {
        stdout := stdout + bytes;
      } else {
        stderr := stderr + bytes;
      }
      if |chunk| > remaining {
        diagnostic := diagnostic.(outputLimitExceeded := true);
        kills := kills + 1;
      }
    }

    method OnTimeout()
      requires |stdout| <= MAX_OUTPUT_BYTES && |stderr| <= MAX_OUTPUT_BYTES
      modifies this
      ensures Now() == Deliver(old(Now()), Timeout)
    {
      if timerArmed {
        timerArmed := false;
        diagnostic := diagnostic.(timedOut := true);
        kills := kills + 1;
      }
    }

    method OnAbort()
      requires |stdout| <= MAX_OUTPUT_BYTES && |stderr| <= MAX_OUTPUT_BYTES
      modifies this
      ensures Now() == Deliver(old(Now()), Abort)
    {
      if abortHeard {
        abortHeard := false;
        diagnostic := diagnostic.(aborted := true);
        kills := kills + 1;
      }
    }

    method OnSpawnError()
      requires |stdout| <= MAX_OUTPUT_BYTES && |stderr| <= MAX_OUTPUT_BYTES
      modifies this
      ensures Now() == Deliver(old(Now()), SpawnError)
    {
      if errorExpected {
        errorExpected := false;
        diagnostic := diagnostic.(spawnError := true);
        kills := kills + 1;
      }
    }

    method OnStdinError()
      requires |stdout| <= MAX_OUTPUT_BYTES && |stderr| <= MAX_OUTPUT_BYTES
      modifies this
      ensures Now() == Deliver(old(Now()), StdinError)
    {
      if stdinExpected {
        stdinExpected := false;
        diagnostic := diagnostic.(stdinError := true);
        kills := kills + 1;
      }
    }

    /** Stop the timer, stop listening to the abort, and kill what is left of the group. */
    method Release(status: Option<int>)
      modifies this
      ensures Now() == Released(old(Now()), status)
    {
      timerArmed := false;
      abortHeard := false;
      closeExpected := false;
      diagnostic := diagnostic.(status := status);
      kills := kills + 1;
      settlements := settlements + 1;
    }

    method OnChildClose(status: Option<int>)
      modifies this
      ensures Now() == OnClose(old(Now()), status)
    {
      Release(status);
      if status != Some(0) || Faulty(diagnostic) {
        outcome := Some(Rejected(diagnostic));
      } else {
        outcome := Some(Resolved(stdout, stderr));
      }
    }

    method Handle(event: Event)
      requires |stdout| <= MAX_OUTPUT_BYTES && |stderr| <= MAX_OUTPUT_BYTES
      modifies this
      ensures Now() == Deliver(old(Now()), event)
    {
      match event
      case Stdout(bytes) => OnOutput(bytes, true);
      case Stderr(bytes) => OnOutput(bytes, false);
      case Timeout => OnTimeout();
      case Abort => OnAbort();
      case SpawnError => OnSpawnError();
      case StdinError => OnStdinError();
      case Close(status) =>
        if closeExpected {
          OnChildClose(status);
        }
    }
  }

  lemma ResolvesForEveryOutput(hasStdin: bool, events: seq<Event>)
    ensures forall stdout, stderr ::
              Run(hasStdin, events).outcome == Some(Resolved(stdout, stderr)) <==>
              exists n: nat :: CleanClose(hasStdin, events, n, stdout, stderr)
  {
    forall stdout, stderr
      ensures Run(hasStdin, events).outcome == Some(Resolved(stdout, stderr)) <==>
                exists n: nat :: CleanClose(hasStdin, events, n, stdout, stderr)
    {
      ResolvesExactlyOnCleanClose(hasStdin, events, stdout, stderr);
    }
  }

  /** The promise settles with the first close, and not without one. */
  lemma {:induction false} SettlesExactlyOnClose(hasStdin: bool, events: seq<Event>)
    ensures Run(hasStdin, events).closeExpected <==> NoClose(events)
  {
    if events != [] {
      var front := events[..|events| - 1];
      SettlesExactlyOnClose(hasStdin, front);
      KeepsTheBeginning(hasStdin, front);
      DeliverKeepsBeginnings(Run(hasStdin, front), StdoutOf(front), StderrOf(front), events[|events| - 1]);
      CloseComes(events);
    }
  }

  ghost predicate NoClose(events: seq<Event>) {
    forall n :: 0 <= n < |events| ==> !events[n].Close?
  }

  lemma CloseComes(events: seq<Event>)
    requires events != []
    ensures NoClose(events) <==> !events[|events| - 1].Close? && NoClose(events[..|events| - 1])
  {
    var front := events[..|events| - 1];
    assert forall n :: 0 <= n < |front| ==> events[n] == front[n];
  }

  // ---- what a command comes to ----

  /** The first close, whatever comes after it. */
  ghost predicate FirstClose(events: seq<Event>, n: nat) {
    n < |events| && events[n].Close? && NoClose(events[..n])
  }

  /** What the events before the close have to tell. */
  ghost function Told(hasStdin: bool, before: seq<Event>, status: Option<int>): Diagnostic {
    Diagnostic(
      Timeout in before, Abort in before, |StdoutOf(before)| > MAX_OUTPUT_BYTES || |StderrOf(before)| > MAX_OUTPUT_BYTES,
      SpawnError in before, hasStdin && StdinError in before, status)
  }

  ghost function OutcomeOf(hasStdin: bool, before: seq<Event>, status: Option<int>): Outcome {
    var told := Told(hasStdin, before, status);
    if status == Some(0) && !Faulty(told) then Resolved(StdoutOf(before), StderrOf(before)) else Rejected(told)
  }

  lemma {:induction false} TellsWhatHappened(hasStdin: bool, events: seq<Event>)
    requires NoClose(events)
    ensures var s := Run(hasStdin, events);
            s.diagnostic == Told(hasStdin, events, None) && s.closeExpected &&
            (s.stdinExpected <==> hasStdin && StdinError !in events)
  {
    if events != [] {
      var front, last := events[..|events| - 1], events[|events| - 1];
      CloseComes(events);
      TellsWhatHappened(hasStdin, front);
      EveryOrderKeepsInv(hasStdin, front);
      KeepsTheBeginning(hasStdin, events);
      assert events == front + [last];
      OneMoreTold(Run(hasStdin, front), last);
    }
  }

  /** One event other than the close adds its own fault and no other. */
  lemma OneMoreTold(s: State, event: Event)
    requires Inv(s) && s.closeExpected && !event.Close?
    requires |s.stdout| <= MAX_OUTPUT_BYTES && |s.stderr| <= MAX_OUTPUT_BYTES
    ensures var t := Deliver(s, event);
            t.closeExpected && (t.stdinExpected <==> s.stdinExpected && event != StdinError) &&
            t.diagnostic == s.diagnostic.(
              timedOut := s.diagnostic.timedOut || event == Timeout, aborted := s.diagnostic.aborted || event == Abort,
              outputLimitExceeded := t.diagnostic.outputLimitExceeded,
              spawnError := s.diagnostic.spawnError || event == SpawnError,
              stdinError := s.diagnostic.stdinError || (s.stdinExpected && event == StdinError))
  {
  }

  /** The events before the first close decide what the command comes to, and nothing after it matters. */
  lemma {:induction false} FirstCloseDecides(hasStdin: bool, events: seq<Event>, n: nat)
    requires FirstClose(events, n)
    ensures Run(hasStdin, events).outcome == Some(OutcomeOf(hasStdin, events[..n], events[n].status))
    decreases |events|
  {
    var front := events[..|events| - 1];
    if n < |front| {
      assert events[..n] == front[..n];
      FirstCloseDecides(hasStdin, front, n);
      EveryOrderKeepsInv(hasStdin, front);
      OutcomeStays(Run(hasStdin, front), events[|events| - 1]);
    } else {
      assert events[..n] == front;
      TellsWhatHappened(hasStdin, front);
      KeepsTheBeginning(hasStdin, front);
    }
  }

  lemma OutcomeStays(s: State, event: Event)
    requires Inv(s) && s.outcome.Some? && |s.stdout| <= MAX_OUTPUT_BYTES && |s.stderr| <= MAX_OUTPUT_BYTES
    ensures Deliver(s, event).outcome == s.outcome
  {
  }

  lemma FirstCloseDecidesAll(hasStdin: bool, events: seq<Event>)
    ensures forall n: nat | FirstClose(events, n) ::
              Run(hasStdin, events).outcome == Some(OutcomeOf(hasStdin, events[..n], events[n].status))
  {
    forall n: nat | FirstClose(events, n)
      ensures Run(hasStdin, events).outcome == Some(OutcomeOf(hasStdin, events[..n], events[n].status))
    {
      FirstCloseDecides(hasStdin, events, n);
    }
  }

  /** One command from its start, whatever happens around it; one that is aborted beforehand never starts. */
  method RunLiveDeploymentProcess(hasStdin: bool, alreadyAborted: bool, events: seq<Event>) returns (outcome: Option<Outcome>, kills: nat)
    ensures alreadyAborted ==> outcome.Some? && outcome.value.Rejected? && outcome.value.diagnostic.aborted && kills == 0
    ensures !alreadyAborted ==> forall stdout, stderr ::
              outcome == Some(Resolved(stdout, stderr)) <==>
              exists n: nat :: CleanClose(hasStdin, events, n, stdout, stderr)
    ensures !alreadyAborted ==> forall n: nat | FirstClose(events, n) ::
              outcome == Some(OutcomeOf(hasStdin, events[..n], events[n].status))
    ensures !alreadyAborted ==> (outcome.Some? <==> exists n :: 0 <= n < |events| && events[n].Close?)
    ensures !alreadyAborted && outcome.Some? ==> kills > 0
  {
    if alreadyAborted {
      return Some(Rejected(Diagnostic(false, true, false, false, false, None))), 0;
    }
    var command := new Command(hasStdin);
    for n := 0 to |events|
      invariant fresh(command) && command.Now() == Run(hasStdin, events[..n])
    {
      command.Handle(events[n]);
      assert events[..n + 1][..n] == events[..n];
    }
    assert events[..|events|] == events;
    EveryOrderKeepsInv(hasStdin, events);
    SettlesExactlyOnClose(hasStdin, events);
    ResolvesForEveryOutput(hasStdin, events);
    FirstCloseDecidesAll(hasStdin, events);
    return command.outcome, command.kills;
  }
}
