/** The runner of one bounded read: a child process, two timers, two signals and one promise. */
module ReadRunner {
  import opened Options

  type Bytes = string

  datatype Failure = TimedOut | Interrupted | Oversized | ChildError

  /** `Stuck` is a failure whose forced termination was not confirmed in time. */
  datatype Outcome = Resolved(stdout: Bytes, stderr: Bytes) | Rejected(failure: Failure) | Stuck(failure: Failure) | Unsuccessful

  datatype Event =
    | Stdout(bytes: Bytes)
    | Stderr(bytes: Bytes)
    | Timeout
    | ReapTimeout
    | Signal
    | Error
    | Close(status: Option<int>, signalled: bool)

  /** The variables that the callbacks share; `outcome` is what the promise came to. */
  datatype State = State(
    limit: nat, hasPid: bool, stdout: Bytes, stderr: Bytes, stdoutBytes: nat, stderrBytes: nat, settled: bool,
    pendingFailure: Option<Failure>, timeoutArmed: bool, reapArmed: bool, listening: bool, errorExpected: bool,
    closeExpected: bool, kills: nat, outcome: Option<Outcome>, settlements: nat)

  function Start(limit: nat, hasPid: bool): State {
    State(limit, hasPid, [], [], 0, 0, false, None, true, false, true, true, true, 0, None, 0)
  }

  // ---- the callbacks ----

  function Settle(s: State, outcome: Outcome): State {
    s.(settled := true, timeoutArmed := false, reapArmed := false, listening := false,
       outcome := Some(outcome), settlements := s.settlements + 1)
  }

  function RejectOnce(s: State, outcome: Outcome): State {
    if s.settled then s else Settle(s, outcome)
  }

  function Fail(s: State, failure: Failure): State {
    if s.settled || s.pendingFailure.Some? then s
    else
      var failed := s.(pendingFailure := Some(failure), timeoutArmed := false);
      if !s.hasPid then RejectOnce(failed, Rejected(failure)) else failed.(kills := s.kills + 1, reapArmed := true)
  }

  function CountStdout(s: State, count: nat): State {
    s.(stdoutBytes := s.stdoutBytes + count)
  }

  function CountStderr(s: State, count: nat): State {
    s.(stderrBytes := s.stderrBytes + count)
  }

  function TakeStdout(s: State, bytes: Bytes): State {
    if s.pendingFailure.Some? then s
    else
      var counted := CountStdout(s, |bytes|);
      if counted.stdoutBytes > s.limit || counted.stdoutBytes + s.stderrBytes > s.limit then Fail(counted, Oversized)
      else counted.(stdout := s.stdout + bytes)
  }

  function TakeStderr(s: State, bytes: Bytes): State {
    if s.pendingFailure.Some? then s
    else
      var counted := CountStderr(s, |bytes|);
      if counted.stderrBytes > s.limit || s.stdoutBytes + counted.stderrBytes > s.limit then Fail(counted, Oversized)
      else counted.(stderr := s.stderr + bytes)
  }

  function OnClose(s: State, status: Option<int>, signalled: bool): State {
    var closed := s.(closeExpected := false);
    if s.settled then closed
    else if s.pendingFailure.Some? then Settle(closed, Rejected(s.pendingFailure.value))
    else if signalled || status != Some(0) then Settle(closed, Unsuccessful)
    else Settle(closed, Resolved(s.stdout, s.stderr))
  }

  /** An event that nobody waits for any more changes nothing. */
  function Deliver(s: State, event: Event): State {
    match event
    case Stdout(bytes) => TakeStdout(s, bytes)
    case Stderr(bytes) => TakeStderr(s, bytes)
    case Timeout => if s.timeoutArmed then Fail(s.(timeoutArmed := false), TimedOut) else s
    case ReapTimeout =>
      if s.reapArmed && s.pendingFailure.Some? then RejectOnce(s.(reapArmed := false), Stuck(s.pendingFailure.value)) else s
    case Signal => if s.listening then Fail(s, Interrupted) else s
    case Error => if s.errorExpected then Fail(s.(errorExpected := false), ChildError) else s
    case Close(status, signalled) => if s.closeExpected then OnClose(s, status, signalled) else s
  }

  function Run(s: State, events: seq<Event>): State {
    if events == [] then s else Deliver(Run(s, events[..|events| - 1]), events[|events| - 1])
  }

  // ---- what every order of events keeps ----

  /** Until it settles exactly one timer is armed and everything is listened to; afterwards nothing is. */
  ghost predicate Released(s: State) {
    if s.settled then !s.timeoutArmed && !s.reapArmed && !s.listening
    else
      s.listening && s.closeExpected && (s.timeoutArmed <==> s.pendingFailure.None?) &&
      (s.reapArmed <==> s.pendingFailure.Some?)
  }

  ghost predicate SettledOnce(s: State) {
    s.settlements == (if s.settled then 1 else 0) && (s.settled <==> s.outcome.Some?)
  }

  /** A failure stays what it was at first, and nothing but that failure comes of it. */
  ghost predicate FailureDecides(s: State) {
    s.kills == (if s.pendingFailure.Some? && s.hasPid then 1 else 0) &&
    (s.settled ==>
       if s.pendingFailure.Some? then s.outcome in {Some(Rejected(s.pendingFailure.value)), Some(Stuck(s.pendingFailure.value))}
       else s.outcome.Some? && (s.outcome.value.Resolved? || s.outcome.value.Unsuccessful?))
  }

  ghost predicate WithinLimit(s: State) {
    |s.stdout| + |s.stderr| <= s.limit &&
    (s.pendingFailure.None? ==> |s.stdout| <= s.stdoutBytes && |s.stderr| <= s.stderrBytes)
  }

  ghost predicate Inv(s: State) {
    Released(s) && SettledOnce(s) && FailureDecides(s) && WithinLimit(s)
  }

  lemma DeliverKeepsInv(s: State, event: Event)
    requires Inv(s)
    ensures Keeps(s, Deliver(s, event))
  {
    match event
    case Stdout(bytes) => StdoutKeepsInv(s, bytes);
    case Stderr(bytes) => StderrKeepsInv(s, bytes);
    case Close(status, signalled) => CloseKeepsInv(s, status, signalled);
    case _ =>
  }

  /** The later state keeps the invariant, what was settled, and what had failed. */
  ghost predicate Keeps(s: State, t: State) {
    Inv(t) && t.limit == s.limit && t.hasPid == s.hasPid && (s.settled ==> t.settled && t.outcome == s.outcome) &&
    (s.pendingFailure.Some? ==> t.pendingFailure == s.pendingFailure)
  }

  lemma StdoutKeepsInv(s: State, bytes: Bytes)
    requires Inv(s)
    ensures Keeps(s, TakeStdout(s, bytes))
  {
  }

  lemma StderrKeepsInv(s: State, bytes: Bytes)
    requires Inv(s)
    ensures Keeps(s, TakeStderr(s, bytes))
  {
  }

  lemma CloseKeepsInv(s: State, status: Option<int>, signalled: bool)
    requires Inv(s)
    ensures s.closeExpected ==> Keeps(s, OnClose(s, status, signalled))
  {
  }

  /** For every order of events: at most one settlement, output within the limit, nothing left armed. */
  lemma {:induction false} EveryOrderKeepsInv(limit: nat, hasPid: bool, events: seq<Event>)
    ensures Inv(Run(Start(limit, hasPid), events))
    ensures Run(Start(limit, hasPid), events).limit == limit && Run(Start(limit, hasPid), events).hasPid == hasPid
  {
    if events != [] {
      var front := events[..|events| - 1];
      EveryOrderKeepsInv(limit, hasPid, front);
      DeliverKeepsInv(Run(Start(limit, hasPid), front), events[|events| - 1]);
    }
  }

  // ---- when a read succeeds ----

  function StdoutOf(events: seq<Event>): Bytes {
    if events == [] then []
    else
      var last := events[|events| - 1];
      StdoutOf(events[..|events| - 1]) + (if last.Stdout? then last.bytes else [])
  }

  function StderrOf(events: seq<Event>): Bytes {
    if events == [] then []
    else
      var last := events[|events| - 1];
      StderrOf(events[..|events| - 1]) + (if last.Stderr? then last.bytes else [])
  }

  /** Only output so far, and not too much of it; a reap timer that nobody armed cannot matter. */
  ghost predicate Quiet(events: seq<Event>, limit: nat) {
    (forall k :: 0 <= k < |events| ==> events[k].Stdout? || events[k].Stderr? || events[k].ReapTimeout?) &&
    |StdoutOf(events)| + |StderrOf(events)| <= limit
  }

  lemma QuietGrows(events: seq<Event>, limit: nat)
    requires events != []
    ensures var front, last := events[..|events| - 1], events[|events| - 1];
            Quiet(events, limit) <==>
            Quiet(front, limit) && (last.Stdout? || last.Stderr? || last.ReapTimeout?) &&
            |StdoutOf(front)| + |StderrOf(front)| + (if last.Stdout? || last.Stderr? then |last.bytes| else 0) <= limit
  {
    var front := events[..|events| - 1];
    assert forall k :: 0 <= k < |front| ==> events[k] == front[k];
  }

  lemma {:induction false} QuietExactlyWhileRunning(limit: nat, hasPid: bool, events: seq<Event>)
    ensures var s := Run(Start(limit, hasPid), events);
            (!s.settled && s.pendingFailure.None? <==> Quiet(events, limit)) &&
            (!s.settled && s.pendingFailure.None? ==>
               s.stdout == StdoutOf(events) && s.stderr == StderrOf(events) &&
               s.stdoutBytes == |s.stdout| && s.stderrBytes == |s.stderr| && s.closeExpected && s.errorExpected)
  {
    if events != [] {
      var front, last := events[..|events| - 1], events[|events| - 1];
      QuietExactlyWhileRunning(limit, hasPid, front);
      EveryOrderKeepsInv(limit, hasPid, front);
      DeliverKeepsInv(Run(Start(limit, hasPid), front), last);
      QuietGrows(events, limit);
      var before := Run(Start(limit, hasPid), front);
      assert Run(Start(limit, hasPid), events) == Deliver(before, last);
    }
  }

  ghost predicate CleanClose(events: seq<Event>, n: nat, limit: nat, stdout: Bytes, stderr: Bytes) {
    n < |events| && events[n] == Close(Some(0), false) && Quiet(events[..n], limit) &&
    stdout == StdoutOf(events[..n]) && stderr == StderrOf(events[..n])
  }

  /**
   * For every order of events the read resolves exactly when the child closes with
   * status zero before anything else than output within the limit has happened, and
   * then with all of that output.
   */
  lemma {:induction false} ResolvesExactlyOnCleanClose(
    limit: nat, hasPid: bool, events: seq<Event>, stdout: Bytes, stderr: Bytes)
    ensures Run(Start(limit, hasPid), events).outcome == Some(Resolved(stdout, stderr)) <==>
              exists n: nat :: CleanClose(events, n, limit, stdout, stderr)
  {
    if events != [] {
      var front, last := events[..|events| - 1], events[|events| - 1];
      ResolvesExactlyOnCleanClose(limit, hasPid, front, stdout, stderr);
      QuietExactlyWhileRunning(limit, hasPid, front);
      EveryOrderKeepsInv(limit, hasPid, front);
      ResolvedByOneEvent(Run(Start(limit, hasPid), front), last, stdout, stderr);
      CleanCloseComes(limit, events, stdout, stderr);
    }
  }

  lemma ResolvedByOneEvent(s: State, event: Event, stdout: Bytes, stderr: Bytes)
    requires Inv(s)
    ensures Deliver(s, event).outcome == Some(Resolved(stdout, stderr)) <==>
              s.outcome == Some(Resolved(stdout, stderr)) ||
              (!s.settled && s.pendingFailure.None? && event == Close(Some(0), false) && stdout == s.stdout && stderr == s.stderr)
  {
  }

  lemma CleanCloseComes(limit: nat, events: seq<Event>, stdout: Bytes, stderr: Bytes)
    requires events != []
    ensures var front := events[..|events| - 1];
            (exists n: nat :: CleanClose(events, n, limit, stdout, stderr)) <==>
            (exists n: nat :: CleanClose(front, n, limit, stdout, stderr)) ||
            (events[|front|] == Close(Some(0), false) && Quiet(front, limit) &&
             stdout == StdoutOf(front) && stderr == StderrOf(front))
  {
    var front := events[..|events| - 1];
    forall n: nat | n < |front|
      ensures CleanClose(events, n, limit, stdout, stderr) <==> CleanClose(front, n, limit, stdout, stderr)
    {
      assert events[..n] == front[..n];
    }
    assert CleanClose(events, |front|, limit, stdout, stderr) <==>
           events[|front|] == Close(Some(0), false) && Quiet(front, limit) &&
           stdout == StdoutOf(front) && stderr == StderrOf(front);
  }

  // ---- what a read comes to ----

  /** The first event that is more than output within the limit. */
  ghost predicate FirstDecision(events: seq<Event>, n: nat, limit: nat) {
    n < |events| && Quiet(events[..n], limit) && !Quiet(events[..n + 1], limit)
  }

  /** The failure that such an event stands for; a close stands for none. */
  function FailureOf(event: Event): Option<Failure> {
    match event
    case Stdout(_) => Some(Oversized)
    case Stderr(_) => Some(Oversized)
    case Timeout => Some(TimedOut)
    case Signal => Some(Interrupted)
    case Error => Some(ChildError)
    case _ => None
  }

  /** Once a failure has killed the child, the first close or the reap timer ends the read. */
  function EndOf(failure: Failure, after: seq<Event>): Option<Outcome> {
    if after == [] then None
    else
      var before, last := EndOf(failure, after[..|after| - 1]), after[|after| - 1];
      if before.Some? then before
      else if last.Close? then Some(Rejected(failure))
      else if last.ReapTimeout? then Some(Stuck(failure))
      else None
  }

  /** What follows from the first decision. */
  ghost function OutcomeOf(hasPid: bool, events: seq<Event>, n: nat): Option<Outcome>
    requires n < |events|
  {
    var failure := FailureOf(events[n]);
    if events[n] == Close(Some(0), false) then Some(Resolved(StdoutOf(events[..n]), StderrOf(events[..n])))
    else if failure.None? then Some(Unsuccessful)
    else if !hasPid then Some(Rejected(failure.value))
    else EndOf(failure.value, events[n + 1..])
  }

  /** What one event does to a read that nothing has decided yet. */
  lemma DecidedByOneEvent(s: State, event: Event)
    requires Inv(s) && !s.settled && s.pendingFailure.None? && s.closeExpected && s.errorExpected
    ensures var t := Deliver(s, event);
            t.settled || t.pendingFailure.Some? ==>
              t.outcome == (if event == Close(Some(0), false) then Some(Resolved(s.stdout, s.stderr))
                            else if event.Close? then Some(Unsuccessful)
                            else if s.hasPid then None else Some(Rejected(FailureOf(event).value))) &&
              (event.Close? <==> t.pendingFailure.None?) && t.pendingFailure == FailureOf(event)
  {
  }

  /** What one event does to a read that was decided before. */
  lemma EndedByOneEvent(s: State, event: Event)
    requires Inv(s) && (s.settled || s.pendingFailure.Some?)
    ensures Deliver(s, event).outcome ==
              if s.outcome.Some? then s.outcome
              else if event.Close? then Some(Rejected(s.pendingFailure.value))
              else if event.ReapTimeout? then Some(Stuck(s.pendingFailure.value))
              else None
    ensures Deliver(s, event).pendingFailure == s.pendingFailure
  {
  }

  /** The first decision settles what every read comes to, whatever comes after it. */
  lemma {:induction false} FirstDecisionDecides(limit: nat, hasPid: bool, events: seq<Event>, n: nat)
    requires FirstDecision(events, n, limit)
    ensures var s := Run(Start(limit, hasPid), events);
            s.outcome == OutcomeOf(hasPid, events, n) && s.pendingFailure == FailureOf(events[n]) &&
            (s.settled || s.pendingFailure.Some?)
    decreases |events|
  {
    var front, last := events[..|events| - 1], events[|events| - 1];
    EveryOrderKeepsInv(limit, hasPid, front);
    EveryOrderKeepsInv(limit, hasPid, events);
    if n < |front| {
      assert front[..n] == events[..n] && front[..n + 1] == events[..n + 1];
      assert events[n + 1..][..|events| - n - 2] == front[n + 1..];
      FirstDecisionDecides(limit, hasPid, front, n);
      EndedByOneEvent(Run(Start(limit, hasPid), front), last);
    } else {
      assert events[..n] == front && events[..n + 1] == events && events[n + 1..] == [];
      QuietExactlyWhileRunning(limit, hasPid, front);
      QuietExactlyWhileRunning(limit, hasPid, events);
      DecidedByOneEvent(Run(Start(limit, hasPid), front), last);
    }
  }

  /** Either nothing was decided, or there is a first decision. */
  lemma {:induction false} SomethingDecides(events: seq<Event>, limit: nat) returns (n: nat)
    requires !Quiet(events, limit)
    ensures FirstDecision(events, n, limit)
  {
    assert events != [];
    var front := events[..|events| - 1];
    if Quiet(front, limit) {
      n := |front|;
      assert events[..n] == front && events[..n + 1] == events;
    } else {
      n := SomethingDecides(front, limit);
      assert front[..n] == events[..n] && front[..n + 1] == events[..n + 1];
    }
  }

  /** The outcome of every order of events: none while it is quiet, and what the first decision leads to otherwise. */
  lemma OutcomeIsDecided(limit: nat, hasPid: bool, events: seq<Event>)
    ensures Quiet(events, limit) ==> Run(Start(limit, hasPid), events).outcome == None
    ensures forall n: nat | FirstDecision(events, n, limit) ::
              Run(Start(limit, hasPid), events).outcome == OutcomeOf(hasPid, events, n)
    ensures Quiet(events, limit) || exists n: nat :: FirstDecision(events, n, limit)
  {
    QuietExactlyWhileRunning(limit, hasPid, events);
    EveryOrderKeepsInv(limit, hasPid, events);
    forall n: nat | FirstDecision(events, n, limit)
      ensures Run(Start(limit, hasPid), events).outcome == OutcomeOf(hasPid, events, n)
    {
      FirstDecisionDecides(limit, hasPid, events, n);
    }
    if !Quiet(events, limit) {
      var n := SomethingDecides(events, limit);
    }
  }

  // ---- the promise's own variables ----

  class ReadOperation {
    const limit: nat
    const hasPid: bool
    var stdout: Bytes
    var stderr: Bytes
    var stdoutBytes: nat
    var stderrBytes: nat
    var settled: bool
    var pendingFailure: Option<Failure>
    var timeoutArmed: bool
    var reapArmed: bool
    var listening: bool
    var errorExpected: bool
    var closeExpected: bool
    var kills: nat
    var outcome: Option<Outcome>
    ghost var settlements: nat

    constructor (limit: nat, hasPid: bool)
      ensures Now() == Start(limit, hasPid)
    {
      this.limit, this.hasPid := limit, hasPid;
      stdout, stderr, stdoutBytes, stderrBytes, settled, pendingFailure := [], [], 0, 0, false, None;
      timeoutArmed, reapArmed, listening, errorExpected, closeExpected := true, false, true, true, true;
      kills, outcome, settlements := 0, None, 0;
    }

    ghost function Now(): State
      reads this
    {
      State(limit, hasPid, stdout, stderr, stdoutBytes, stderrBytes, settled, pendingFailure, timeoutArmed, reapArmed,
            listening, errorExpected, closeExpected, kills, outcome, settlements)
    }

    /** Clear the timers, stop listening, and settle the promise. */
    method Finish(result: Outcome)
      modifies this
      ensures Now() == Settle(old(Now()), result)
    {
      settled := true;
      timeoutArmed := false;
      reapArmed := false;
      listening := false;
      outcome := Some(result);
      settlements := settlements + 1;
    }

    method FailWith(failure: Failure)
      modifies this
      ensures Now() == Fail(old(Now()), failure)
    {
      if settled || pendingFailure.Some? {
        return;
      }
      pendingFailure := Some(failure);
      timeoutArmed := false;
      if !hasPid {
        Finish(Rejected(failure));
        return;
      }
      kills := kills + 1;
      reapArmed := true;
    }

    method OnStdout(bytes: Bytes)
      modifies this
      ensures Now() == TakeStdout(old(Now()), bytes)
    {
      if pendingFailure.Some? {
        return;
      }
      stdoutBytes := stdoutBytes + |bytes|;
      assert Now() == CountStdout(old(Now()), |bytes|);
      if stdoutBytes > limit || stdoutBytes + stderrBytes > limit {
        FailWith(Oversized);
        return;
      }
      stdout := stdout + bytes;
    }

    method OnStderr(bytes: Bytes)
      modifies this
      ensures Now() == TakeStderr(old(Now()), bytes)
    {
      if pendingFailure.Some? {
        return;
      }
      stderrBytes := stderrBytes + |bytes|;
      assert Now() == CountStderr(old(Now()), |bytes|);
      if stderrBytes > limit || stdoutBytes + stderrBytes > limit {
        FailWith(Oversized);
        return;
      }
      stderr := stderr + bytes;
    }

    method OnChildClose(status: Option<int>, signalled: bool)
      modifies this
      ensures Now() == OnClose(old(Now()), status, signalled)
    {
      closeExpected := false;
      if settled {
        return;
      }
      if pendingFailure.Some? {
        Finish(Rejected(pendingFailure.value));
      } else if signalled || status != Some(0) {
        Finish(Unsuccessful);
      } else {
        Finish(Resolved(stdout, stderr));
      }
    }

    method OnTimeout()
      modifies this
      ensures Now() == Deliver(old(Now()), Timeout)
    {
      if timeoutArmed {
        timeoutArmed := false;
        FailWith(TimedOut);
      }
    }

    method OnReapTimeout()
      modifies this
      ensures Now() == Deliver(old(Now()), ReapTimeout)
    {
      if reapArmed && pendingFailure.Some? {
        reapArmed := false;
        if !settled {
          Finish(Stuck(pendingFailure.value));
        }
      }
    }

    method OnSignal()
      modifies this
      ensures Now() == Deliver(old(Now()), Signal)
    {
      if listening {
        FailWith(Interrupted);
      }
    }

    method OnError()
      modifies this
      ensures Now() == Deliver(old(Now()), Error)
    {
      if errorExpected {
        errorExpected := false;
        FailWith(ChildError);
      }
    }

    method Handle(event: Event)
      modifies this
      ensures Now() == Deliver(old(Now()), event)
    {
      match event
      case Stdout(bytes) => OnStdout(bytes);
      case Stderr(bytes) => OnStderr(bytes);
      case Timeout => OnTimeout();
      case ReapTimeout => OnReapTimeout();
      case Signal => OnSignal();
      case Error => OnError();
      case Close(status, signalled) =>
        if closeExpected {
          OnChildClose(status, signalled);
        }
    }
  }

  /** One read from its start, whatever happens around it. */
  method RunReadOperation(limit: nat, hasPid: bool, events: seq<Event>) returns (outcome: Option<Outcome>, kills: nat)
    ensures outcome == Run(Start(limit, hasPid), events).outcome
    ensures forall stdout, stderr ::
              outcome == Some(Resolved(stdout, stderr)) <==>
              exists n: nat :: CleanClose(events, n, limit, stdout, stderr)
    ensures Quiet(events, limit) ==> outcome == None
    ensures forall n: nat | FirstDecision(events, n, limit) :: outcome == OutcomeOf(hasPid, events, n)
    ensures kills <= 1 && (outcome.Some? && outcome.value.Resolved? ==> kills == 0)
  {
    var operation := new ReadOperation(limit, hasPid);
    for n := 0 to |events|
      invariant fresh(operation) && operation.Now() == Run(Start(limit, hasPid), events[..n])
    {
      operation.Handle(events[n]);
      assert events[..n + 1][..n] == events[..n];
    }
    assert events[..|events|] == events;
    EveryOrderKeepsInv(limit, hasPid, events);
    OutcomeIsDecided(limit, hasPid, events);
    forall stdout, stderr
      ensures Run(Start(limit, hasPid), events).outcome == Some(Resolved(stdout, stderr)) <==>
                exists n: nat :: CleanClose(events, n, limit, stdout, stderr)
    {
      ResolvesExactlyOnCleanClose(limit, hasPid, events, stdout, stderr);
    }
    return operation.outcome, operation.kills;
  }
}
