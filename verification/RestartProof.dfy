/** The schedule-restart proof: one resident completes and is killed, its replacement changes nothing. */
module RestartProof {
  import opened Options
  import opened Json
  import opened CanonicalJson

  type Resident = nat

  datatype Phase = Initial | Restart

  datatype Signal = Sigkill | Sigterm

  datatype Ready = Ready(generation: int, sessionId: string)

  datatype Exit = Exit(code: Option<int>, signal: Option<Signal>)

  /** The calls made through the ports, in order; cleanup is told which residents were started. */
  datatype Action =
    | Started(phase: Phase)
    | WaitedReady(phase: Phase)
    | WaitedCompletion
    | Polled
    | Signalled(phase: Phase, signal: Signal)
    | CleanedUp(residents: seq<(Phase, Resident)>)
    | LookedForRoot

  /** What the ports answer; `None` is a failed call or an answer that its own check refuses. */
  datatype Ports = Ports(
    start: Phase -> Option<Resident>, ready: Phase -> Option<Ready>, completed: Option<Json>, afterPoll: Option<Json>,
    exit: Phase -> Option<Exit>, cleanedUp: bool, rootAbsent: Option<bool>)

  datatype Outcome = Proved(snapshot: Json) | Failed | CleanupIncomplete(failed: bool)

  function ExpectedExit(signal: Signal): Exit {
    if signal == Sigkill then Exit(None, Some(Sigkill)) else Exit(Some(0), None)
  }

  /** One resident comes up. */
  predicate ComesUp(ports: Ports, phase: Phase) {
    ports.start(phase).Some? && ports.ready(phase).Some?
  }

  /** The first resident dies of the kill, and the second one ends by itself with status zero. */
  predicate GoesDown(ports: Ports, phase: Phase) {
    match phase
    case Initial => ports.exit(Initial) == Some(Exit(None, Some(Sigkill)))
    case Restart => ports.exit(Restart) == Some(Exit(Some(0), None))
  }

  /** The first resident completes the occurrence and dies of the kill. */
  predicate FirstLife(ports: Ports) {
    ComesUp(ports, Initial) && ports.completed.Some? && WellFormed(ports.completed.value) && GoesDown(ports, Initial)
  }

  /** The second resident is the next generation in a new session. */
  predicate Replaces(ports: Ports)
    requires ports.ready(Initial).Some? && ports.ready(Restart).Some?
  {
    var before, after := ports.ready(Initial).value, ports.ready(Restart).value;
    after.generation == before.generation + 1 && after.sessionId != before.sessionId
  }

  /** The second is the next generation in a new session, and the durable state is the same JSON tree. */
  predicate SecondLife(ports: Ports)
    requires FirstLife(ports)
  {
    ComesUp(ports, Restart) && Replaces(ports) &&
    ports.afterPoll.Some? && WellFormed(ports.afterPoll.value) &&
    Meaning(ports.afterPoll.value) == Meaning(ports.completed.value) &&
    GoesDown(ports, Restart)
  }

  /** The calls of the two lives, each made only if all before it went well. */
  const SCRIPT: seq<Action> := [
    Started(Initial), WaitedReady(Initial), WaitedCompletion, Signalled(Initial, Sigkill),
    Started(Restart), WaitedReady(Restart), Polled, Signalled(Restart, Sigterm)]

  /** Whether a call of the script goes well, when those before it did. */
  predicate GoesWell(ports: Ports, call: nat) {
    if call == 0 then ports.start(Initial).Some?
    else if call == 1 then ports.ready(Initial).Some?
    else if call == 2 then ports.completed.Some? && WellFormed(ports.completed.value)
    else if call == 3 then GoesDown(ports, Initial)
    else if call == 4 then ports.start(Restart).Some?
    else if call == 5 then ports.ready(Initial).Some? && ports.ready(Restart).Some? && Replaces(ports)
    else if call == 6 then
      ports.completed.Some? && ports.afterPoll.Some? && WellFormed(ports.afterPoll.value) &&
      Meaning(ports.afterPoll.value) == Meaning(ports.completed.value)
    else GoesDown(ports, Restart)
  }

  /** So far the calls are those of the script, and all but the last went well. */
  ghost predicate Follows(log: seq<Action>, ports: Ports) {
    log <= SCRIPT && forall k: nat :: k < |log| - 1 ==> GoesWell(ports, k)
  }

  /** The calls end with the script or with the first that does not go well. */
  ghost predicate EndsThere(log: seq<Action>, ports: Ports) {
    Follows(log, ports) && log != [] && (|log| < |SCRIPT| ==> !GoesWell(ports, |log| - 1))
  }

  /** Cleanup happens once, after everything else, for exactly the residents that were started. */
  ghost predicate CleansUpLast(log: seq<Action>, ports: Ports) {
    |log| >= 2 && log[|log| - 1] == LookedForRoot && log[|log| - 2].CleanedUp? &&
    EndsThere(log[..|log| - 2], ports) &&
    forall phase, resident ::
      (phase, resident) in log[|log| - 2].residents <==> Started(phase) in log && ports.start(phase) == Some(resident)
  }

  /** Before any start of the replacement, the first resident lived its whole life and died of the kill. */
  ghost predicate ReplacesTheDead(log: seq<Action>, ports: Ports) {
    forall k :: 0 <= k < |log| && log[k] == Started(Restart) ==>
      FirstLife(ports) && exists j :: 0 <= j < k && log[j] == Signalled(Initial, Sigkill)
  }

  lemma ScriptReplacesTheDead(log: seq<Action>, ports: Ports)
    requires Follows(log, ports)
    ensures ReplacesTheDead(log, ports)
  {
    forall k | 0 <= k < |log| && log[k] == Started(Restart)
      ensures FirstLife(ports) && exists j :: 0 <= j < k && log[j] == Signalled(Initial, Sigkill)
    {
      assert log[k] == SCRIPT[k];
      assert k == 4 && log[3] == SCRIPT[3];
      assert GoesWell(ports, 0) && GoesWell(ports, 1) && GoesWell(ports, 2) && GoesWell(ports, 3);
    }
  }

  class Verification {
    const ports: Ports
    var initialResident: Option<Resident>
    var restartedResident: Option<Resident>
    var primaryError: bool
    var result: Option<Json>
    var log: seq<Action>

    constructor (ports: Ports)
      ensures this.ports == ports && log == [] && !primaryError
      ensures initialResident == None && restartedResident == None && result == None
    {
      this.ports, log, primaryError, initialResident, restartedResident, result := ports, [], false, None, None, None;
    }

    /** What is known while the two lives run: the script so far, and who was started. */
    ghost predicate Valid()
      reads this
    {
      Follows(log, ports) &&
      initialResident == (if |log| > 0 then ports.start(Initial) else None) &&
      restartedResident == if |log| > 4 then ports.start(Restart) else None
    }

    /** Make the next call of the script. */
    method Call(action: Action)
      requires Valid() && |log| < |SCRIPT| && action == SCRIPT[|log|] && !action.Started?
      requires log != [] ==> GoesWell(ports, |log| - 1)
      modifies this`log
      ensures Valid() && log == old(log) + [action]
    {
      log := log + [action];
    }

    /** Up to the exit of the killed resident. */
    method RunInitial() returns (ok: bool)
      requires Valid() && log == []
      modifies this
      ensures Valid() && (ok <==> FirstLife(ports))
      ensures if ok then log == SCRIPT[..4] else EndsThere(log, ports) && |log| <= 4
      ensures result == old(result) && primaryError == old(primaryError)
    {
      log := [Started(Initial)];
      initialResident := ports.start(Initial);
      if initialResident.None? {
        return false;
      }
      Call(WaitedReady(Initial));
      if ports.ready(Initial).None? {
        return false;
      }
      Call(WaitedCompletion);
      if ports.completed.None? || !WellFormed(ports.completed.value) {
        return false;
      }
      Call(Signalled(Initial, Sigkill));
      return ports.exit(Initial) == Some(ExpectedExit(Sigkill));
    }

    /** The durable state after the restart is the same JSON tree as before. */
    method IsUnchanged() returns (same: bool)
      requires ports.completed.Some? && WellFormed(ports.completed.value)
      requires ports.afterPoll.Some? && WellFormed(ports.afterPoll.value)
      ensures same <==> Meaning(ports.afterPoll.value) == Meaning(ports.completed.value)
    {
      SameTextExactlyForSameTree(ports.afterPoll.value, ports.completed.value);
      same := HasSameCanonicalJson(ports.afterPoll.value, ports.completed.value);
    }

    /** From the start of the replacement to its exit. */
    method RunRestart() returns (ok: bool)
      requires Valid() && FirstLife(ports) && log == SCRIPT[..4]
      modifies this
      ensures Valid() && (ok <==> SecondLife(ports))
      ensures EndsThere(log, ports) && |log| > 4
      ensures result == old(result) && primaryError == old(primaryError)
    {
      log := log + [Started(Restart)];
      restartedResident := ports.start(Restart);
      if restartedResident.None? {
        return false;
      }
      Call(WaitedReady(Restart));
      var initialReady, restartedReady := ports.ready(Initial).value, ports.ready(Restart);
      if restartedReady.None? || restartedReady.value.generation != initialReady.generation + 1 ||
         restartedReady.value.sessionId == initialReady.sessionId {
        return false;
      }
      Call(Polled);
      if ports.afterPoll.None? || !WellFormed(ports.afterPoll.value) {
        return false;
      }
      var same := IsUnchanged();
      if !same {
        return false;
      }
      Call(Signalled(Restart, Sigterm));
      return ports.exit(Restart) == Some(ExpectedExit(Sigterm));
    }

    /** Run both lives, and clean up whatever came of them. */
    method Verify() returns (outcome: Outcome)
      requires log == [] && !primaryError && initialResident.None? && restartedResident.None? && result.None?
      modifies this
      ensures CleansUpLast(log, ports) && ReplacesTheDead(log, ports)
      ensures outcome.Proved? <==> FirstLife(ports) && SecondLife(ports) && ports.cleanedUp && ports.rootAbsent == Some(true)
      ensures outcome.Proved? ==> ports.completed == Some(outcome.snapshot)
      ensures outcome.CleanupIncomplete? <==> !ports.cleanedUp || ports.rootAbsent != Some(true)
    {
      var ok := RunInitial();
      if ok {
        ok := RunRestart();
      }
      if ok {
        result := ports.completed;
      } else {
        primaryError := true;
      }
      var residents: seq<(Phase, Resident)> :=
        (if initialResident.Some? then [(Initial, initialResident.value)] else []) +
        (if restartedResident.Some? then [(Restart, restartedResident.value)] else []);
      CleanUp(residents);
      if !ports.cleanedUp || ports.rootAbsent != Some(true) {
        return CleanupIncomplete(primaryError);
      }
      if primaryError || result.None? {
        return Failed;
      }
      return Proved(result.value);
    }

    /** Whatever came of the two lives, clean up after the residents that were started. */
    method CleanUp(residents: seq<(Phase, Resident)>)
      requires Valid() && EndsThere(log, ports)
      requires forall phase, resident ::
                 (phase, resident) in residents <==>
                 (if phase == Initial then initialResident else restartedResident) == Some(resident)
      modifies this`log
      ensures CleansUpLast(log, ports) && ReplacesTheDead(log, ports)
    {
      ghost var lives := log;
      ScriptReplacesTheDead(lives, ports);
      StartedByScript(lives);
      log := log + [CleanedUp(residents), LookedForRoot];
      assert log[..|log| - 2] == lives;
      assert forall k :: 0 <= k < |lives| ==> log[k] == lives[k];
      assert forall phase :: Started(phase) in log <==> Started(phase) in lives;
    }
  }

  lemma StartedByScript(log: seq<Action>)
    requires log <= SCRIPT
    ensures Started(Initial) in log <==> |log| > 0
    ensures Started(Restart) in log <==> |log| > 4
  {
    assert |log| > 0 ==> log[0] == SCRIPT[0];
    assert |log| > 4 ==> log[4] == SCRIPT[4];
  }
}
