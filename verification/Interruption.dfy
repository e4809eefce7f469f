/**
 * The update interruption: a harness that stops a controller process, observes
 * the update's target behind its back, and kills the controller's group, while
 * signals land late and process events arrive in any order.
 */
module Interruption {
  import opened Options

  const MAX_OUTPUT_BYTES := 256 * 1024

  type Journal = nat

  datatype Signal = Sigkill | OtherSignal

  datatype Process = Running | Stopped | Gone(signal: Option<Signal>)

  /** What happened, in the order in which it happened. */
  datatype Mark =
    | Stepped            // the controller did something
    | SentStop
    | SawStopped
    | SawHealthy
    | SentKill
    | SawClose

  /**
   * The controller process, and the variables that the event handlers share.
   * `decided` remembers that the harness itself reached its fault boundary.
   */
  datatype World = World(
    controller: Process, stopPending: bool, journal: Journal,
    closed: bool, exited: bool, unexpectedExit: bool, killed: bool, failure: bool, interrupted: bool,
    aborted: bool, timedOut: bool, outputLimitExceeded: bool, spawnError: bool,
    exitSignal: Option<Signal>, outputBytes: nat, decided: bool, log: seq<Mark>)

  function Spawned(journal: Journal): World {
    World(Running, false, journal, false, false, false, false, false, false, false, false, false, false, None, 0, false, [])
  }

  datatype Event =
    | ControllerStep(journal: Journal)
    | StopLands
    | KillLands
    | Dies(signal: Option<Signal>)
    | Exit
    | Close
    | Error
    | Abort
    | Deadline
    | Output(bytes: nat)

  function Logged(w: World, mark: Mark): World {
    w.(log := w.log + [mark])
  }

  /** Signal the owned group once, and never after its leader was reaped; `denied` is a failing system call. */
  function KillGroup(w: World, denied: bool): World {
    if w.closed || w.killed then w
    else Logged(w, SentKill).(killed := true, failure := w.failure || denied)
  }

  function Interrupt(w: World): World {
    w.(interrupted := true)
  }

  function Fail(w: World, denied: bool): World {
    KillGroup(Interrupt(w.(failure := true)), denied)
  }

  function OnExit(w: World, denied: bool): World {
    if !w.controller.Gone? || w.exited then w
    else
      var seen := w.(exited := true, exitSignal := w.controller.signal);
      KillGroup(if w.killed then seen else Interrupt(seen.(unexpectedExit := true)), denied)
  }

  function Counted(w: World, bytes: nat): World {
    w.(outputBytes := w.outputBytes + bytes)
  }

  function Exceeded(w: World): World {
    w.(outputLimitExceeded := true)
  }

  function OnOutput(w: World, bytes: nat, denied: bool): World {
    var counted := Counted(w, bytes);
    if counted.outputBytes > MAX_OUTPUT_BYTES then Fail(Exceeded(counted), denied) else counted
  }

  /** The effect of one event; an event that cannot happen now has none. */
  function Deliver(w: World, e: Event, denied: bool): World {
    match e
    case ControllerStep(journal) =>
      if w.controller.Running? then Logged(w, Stepped).(journal := journal) else w
    case StopLands => if w.stopPending && w.controller.Running? then w.(controller := Stopped) else w
    case KillLands => if w.killed && !w.controller.Gone? then w.(controller := Gone(Some(Sigkill))) else w
    case Dies(signal) => if w.controller.Gone? then w else w.(controller := Gone(signal))
    case Exit => OnExit(w, denied)
    case Close => if w.exited && !w.closed then Logged(w, SawClose).(closed := true) else w
    case Error => Fail(w.(spawnError := true), denied)
    case Abort => Fail(w.(aborted := true), denied)
    case Deadline => Fail(w.(timedOut := true), denied)
    case Output(bytes) => OnOutput(w, bytes, denied)
  }

  /** The group is killed at most once, and not after the close event. */
  ghost predicate KillDiscipline(log: seq<Mark>) {
    forall i, j :: 0 <= i < j < |log| && log[j] == SentKill ==> log[i] != SentKill && log[i] != SawClose
  }

  /** Nothing that was seen stopped moves again. */
  ghost predicate StoppedForGood(log: seq<Mark>) {
    forall i, j :: 0 <= i < j < |log| && log[i] == SawStopped ==> log[j] != Stepped
  }

  ghost predicate LogInv(log: seq<Mark>, killed: bool, closed: bool, running: bool) {
    KillDiscipline(log) && StoppedForGood(log) &&
    (SentKill in log <==> killed) &&
    (SawClose in log <==> closed) &&
    (SawStopped in log ==> !running)
  }

  ghost predicate Marks(w: World) {
    LogInv(w.log, w.killed, w.closed, w.controller.Running?)
  }

  ghost predicate FlagInv(w: World) {
    (w.aborted || w.timedOut || w.outputLimitExceeded || w.spawnError ==> w.failure) &&
    (w.aborted || w.timedOut || w.outputLimitExceeded || w.spawnError || w.unexpectedExit ==> w.interrupted) &&
    (w.outputBytes > MAX_OUTPUT_BYTES ==> w.outputLimitExceeded) &&
    (w.closed ==> w.exited) && (w.exited ==> w.controller.Gone? && w.exitSignal == w.controller.signal) &&
    (w.unexpectedExit ==> w.exited)
  }

  /** Whatever goes wrong, the group is killed or already reaped. */
  ghost predicate Reaps(w: World) {
    (w.failure || w.unexpectedExit ==> w.killed || w.closed) &&
    (w.killed ==> w.failure || w.exited || w.decided)
  }

  ghost predicate Inv(w: World) {
    Marks(w) && FlagInv(w) && Reaps(w)
  }

  /** What no event takes back. */
  ghost predicate Later(a: World, b: World) {
    a.log <= b.log &&
    (a.closed ==> b.closed) && (a.exited ==> b.exited) && (a.killed ==> b.killed) && (a.failure ==> b.failure) &&
    (a.killed && !a.unexpectedExit ==> !b.unexpectedExit) &&
    (a.decided <==> b.decided) &&
    (a.controller.Gone? ==> b.controller == a.controller) &&
    (!a.controller.Running? ==> !b.controller.Running? && b.journal == a.journal)
  }

  lemma LaterIsTransitive(a: World, b: World, c: World)
    requires Later(a, b) && Later(b, c)
    ensures Later(a, c)
  {
  }

  /** A mark may be added when it keeps both disciplines. */
  lemma LoggedKeepsInv(w: World, mark: Mark)
    requires Marks(w)
    requires mark == SentKill ==> !w.killed && !w.closed
    requires mark == Stepped ==> w.controller.Running?
    requires mark == SawStopped ==> !w.controller.Running?
    ensures var log := Logged(w, mark).log;
      KillDiscipline(log) && StoppedForGood(log) && forall m :: m in log <==> m in w.log || m == mark
  {
    var log := Logged(w, mark).log;
    assert forall i :: 0 <= i < |w.log| ==> log[i] == w.log[i] && w.log[i] in w.log;
  }

  lemma KillGroupKeepsInv(w: World, denied: bool)
    requires Marks(w) && FlagInv(w) && (w.failure || w.exited || w.decided)
    ensures Inv(KillGroup(w, denied)) && Later(w, KillGroup(w, denied))
    ensures KillGroup(w, denied).killed || w.closed
  {
    if !w.closed && !w.killed {
      LoggedKeepsInv(w, SentKill);
    }
  }

  lemma FailKeepsInv(w: World, denied: bool)
    requires Marks(w) && FlagInv(Interrupt(w.(failure := true)))
    ensures Inv(Fail(w, denied)) && Later(w, Fail(w, denied))
  {
    KillGroupKeepsInv(Interrupt(w.(failure := true)), denied);
  }

  ghost predicate Keeps(w: World, e: Event, denied: bool) {
    Inv(Deliver(w, e, denied)) && Later(w, Deliver(w, e, denied))
  }

  lemma StepKeeps(w: World, journal: Journal, denied: bool)
    requires Inv(w)
    ensures Keeps(w, ControllerStep(journal), denied)
  {
    if w.controller.Running? {
      LoggedKeepsInv(w, Stepped);
    }
  }

  lemma StopKeeps(w: World, denied: bool)
    requires Inv(w)
    ensures Keeps(w, StopLands, denied)
  {
  }

  lemma DeadKeeps(w: World, signal: Option<Signal>, next: World)
    requires Inv(w) && !w.controller.Gone? && next == w.(controller := Gone(signal))
    ensures Inv(next) && Later(w, next)
  {
  }

  lemma KillKeeps(w: World, denied: bool)
    requires Inv(w)
    ensures Keeps(w, KillLands, denied)
  {
    if w.killed && !w.controller.Gone? {
      DeadKeeps(w, Some(Sigkill), Deliver(w, KillLands, denied));
    }
  }

  lemma DeathKeeps(w: World, signal: Option<Signal>, denied: bool)
    requires Inv(w)
    ensures Keeps(w, Dies(signal), denied)
  {
    if !w.controller.Gone? {
      DeadKeeps(w, signal, Deliver(w, Dies(signal), denied));
    }
  }

  lemma ExitKeeps(w: World, denied: bool)
    requires Inv(w)
    ensures Keeps(w, Exit, denied)
  {
    if w.controller.Gone? && !w.exited {
      var seen := w.(exited := true, exitSignal := w.controller.signal);
      KillGroupKeepsInv(if w.killed then seen else Interrupt(seen.(unexpectedExit := true)), denied);
    }
  }

  lemma CloseKeeps(w: World, denied: bool)
    requires Inv(w)
    ensures Keeps(w, Close, denied)
  {
    if w.exited && !w.closed {
      LoggedKeepsInv(w, SawClose);
    }
  }

  /** Raising a failure over a flag that was set keeps everything. */
  lemma RaisedKeeps(w: World, flagged: World, next: World, denied: bool)
    requires Inv(w) && Later(w, flagged) && Marks(flagged) && FlagInv(Interrupt(flagged.(failure := true)))
    requires next == Fail(flagged, denied)
    ensures Inv(next) && Later(w, next)
  {
    FailKeepsInv(flagged, denied);
    LaterIsTransitive(w, flagged, next);
  }

  lemma ErrorKeeps(w: World, denied: bool)
    requires Inv(w)
    ensures Keeps(w, Error, denied)
  {
    RaisedKeeps(w, w.(spawnError := true), Deliver(w, Error, denied), denied);
  }

  lemma AbortKeeps(w: World, denied: bool)
    requires Inv(w)
    ensures Keeps(w, Abort, denied)
  {
    RaisedKeeps(w, w.(aborted := true), Deliver(w, Abort, denied), denied);
  }

  lemma DeadlineKeeps(w: World, denied: bool)
    requires Inv(w)
    ensures Keeps(w, Deadline, denied)
  {
    RaisedKeeps(w, w.(timedOut := true), Deliver(w, Deadline, denied), denied);
  }

  lemma CountingKeeps(w: World, bytes: nat, next: World)
    requires Inv(w) && w.outputBytes + bytes <= MAX_OUTPUT_BYTES && next == Counted(w, bytes)
    ensures Inv(next) && Later(w, next)
  {
  }

  lemma ExcessIsFlagged(w: World, bytes: nat, flagged: World)
    requires Inv(w) && flagged == Exceeded(Counted(w, bytes))
    ensures Later(w, flagged) && Marks(flagged) && FlagInv(Interrupt(flagged.(failure := true)))
  {
  }

  lemma OutputKeeps(w: World, bytes: nat, denied: bool)
    requires Inv(w)
    ensures Keeps(w, Output(bytes), denied)
  {
    var next := Deliver(w, Output(bytes), denied);
    if Counted(w, bytes).outputBytes > MAX_OUTPUT_BYTES {
      ExcessIsFlagged(w, bytes, Exceeded(Counted(w, bytes)));
      RaisedKeeps(w, Exceeded(Counted(w, bytes)), next, denied);
    } else {
      CountingKeeps(w, bytes, next);
    }
  }

  lemma DeliverKeeps(w: World, e: Event, denied: bool)
    requires Inv(w)
    ensures Keeps(w, e, denied)
  {
    match e
    case ControllerStep(journal) => StepKeeps(w, journal, denied);
    case StopLands => StopKeeps(w, denied);
    case KillLands => KillKeeps(w, denied);
    case Dies(signal) => DeathKeeps(w, signal, denied);
    case Exit => ExitKeeps(w, denied);
    case Close => CloseKeeps(w, denied);
    case Error => ErrorKeeps(w, denied);
    case Abort => AbortKeeps(w, denied);
    case Deadline => DeadlineKeeps(w, denied);
    case Output(bytes) => OutputKeeps(w, bytes, denied);
  }

  function DeliverAll(w: World, events: seq<Event>, denied: bool): World
    decreases |events|
  {
    if events == [] then w else DeliverAll(Deliver(w, events[0], denied), events[1..], denied)
  }

  lemma {:induction false} EveryOrderKeepsInv(w: World, events: seq<Event>, denied: bool)
    requires Inv(w)
    ensures Inv(DeliverAll(w, events, denied)) && Later(w, DeliverAll(w, events, denied))
    decreases |events|
  {
    if events != [] {
      DeliverKeeps(w, events[0], denied);
      EveryOrderKeepsInv(Deliver(w, events[0], denied), events[1..], denied);
    }
  }

  /**
   * Under every order of events, starting from a freshly spawned controller,
   * the group is killed at most once and never after close, and a raised
   * failure is never forgotten.
   */
  lemma {:induction false} KilledAtMostOnceInEveryOrder(
    journal: Journal, before: seq<Event>, after: seq<Event>, denied: bool)
    ensures var w := DeliverAll(Spawned(journal), before, denied);
      var x := DeliverAll(w, after, denied);
      KillDiscipline(x.log) && (w.failure ==> x.failure) &&
      (x.aborted || x.timedOut || x.outputLimitExceeded || x.spawnError ==> x.failure) &&
      (x.unexpectedExit || x.failure ==> x.killed || x.closed)
  {
    EveryOrderKeepsInv(Spawned(journal), before, denied);
    EveryOrderKeepsInv(DeliverAll(Spawned(journal), before, denied), after, denied);
  }

  // ---- what the flags tell ----

  function BytesOf(events: seq<Event>): nat
    decreases |events|
  {
    if events == [] then 0 else (if events[0].Output? then events[0].bytes else 0) + BytesOf(events[1..])
  }

  predicate SameFlags(w: World, x: World) {
    x.aborted == w.aborted && x.timedOut == w.timedOut && x.spawnError == w.spawnError && x.outputBytes == w.outputBytes &&
    x.outputLimitExceeded == w.outputLimitExceeded
  }

  /** The flags after one event. */
  predicate FlagsAfter(w: World, e: Event, x: World) {
    x.aborted == (w.aborted || e.Abort?) && x.timedOut == (w.timedOut || e.Deadline?) &&
    x.spawnError == (w.spawnError || e.Error?) && x.outputBytes == w.outputBytes + (if e.Output? then e.bytes else 0) &&
    x.outputLimitExceeded == (w.outputLimitExceeded || (e.Output? && x.outputBytes > MAX_OUTPUT_BYTES))
  }

  lemma FailKeepsFlags(w: World, next: World, denied: bool)
    requires next == Fail(w, denied)
    ensures SameFlags(w, next)
  {
  }

  lemma FlagsOfFailure(w: World, e: Event, denied: bool)
    requires e.Error? || e.Abort? || e.Deadline?
    ensures FlagsAfter(w, e, Deliver(w, e, denied))
  {
    var flagged :=
      if e.Error? then w.(spawnError := true) else if e.Abort? then w.(aborted := true) else w.(timedOut := true);
    FailKeepsFlags(flagged, Deliver(w, e, denied), denied);
  }

  lemma FlagsOfOutput(w: World, bytes: nat, denied: bool)
    ensures FlagsAfter(w, Output(bytes), Deliver(w, Output(bytes), denied))
  {
    var counted := Counted(w, bytes);
    if counted.outputBytes > MAX_OUTPUT_BYTES {
      FailKeepsFlags(Exceeded(counted), Deliver(w, Output(bytes), denied), denied);
    }
  }

  lemma KillKeepsFlags(w: World, next: World, denied: bool)
    requires next == KillGroup(w, denied)
    ensures SameFlags(w, next)
  {
  }

  lemma FlagsOfExit(w: World, denied: bool)
    ensures FlagsAfter(w, Exit, Deliver(w, Exit, denied))
  {
    if w.controller.Gone? && !w.exited {
      var seen := w.(exited := true, exitSignal := w.controller.signal);
      var marked := if w.killed then seen else Interrupt(seen.(unexpectedExit := true));
      MarkedKeepsFlags(w, marked);
      KillKeepsFlags(marked, Deliver(w, Exit, denied), denied);
    }
  }

  lemma MarkedKeepsFlags(w: World, marked: World)
    requires w.controller.Gone?
    requires var seen := w.(exited := true, exitSignal := w.controller.signal);
      marked == if w.killed then seen else Interrupt(seen.(unexpectedExit := true))
    ensures SameFlags(w, marked)
  {
  }

  lemma FlagsOfStep(w: World, journal: Journal, denied: bool)
    ensures FlagsAfter(w, ControllerStep(journal), Deliver(w, ControllerStep(journal), denied))
  {
    if w.controller.Running? {
      SteppedKeepsFlags(w, journal, Deliver(w, ControllerStep(journal), denied));
    }
  }

  lemma SteppedKeepsFlags(w: World, journal: Journal, next: World)
    requires next == Logged(w, Stepped).(journal := journal)
    ensures SameFlags(w, next)
  {
  }

  lemma FlagsOfStop(w: World, denied: bool)
    ensures FlagsAfter(w, StopLands, Deliver(w, StopLands, denied))
  {
  }

  lemma FlagsOfKill(w: World, denied: bool)
    ensures FlagsAfter(w, KillLands, Deliver(w, KillLands, denied))
  {
  }

  lemma FlagsOfDeath(w: World, signal: Option<Signal>, denied: bool)
    ensures FlagsAfter(w, Dies(signal), Deliver(w, Dies(signal), denied))
  {
    if !w.controller.Gone? {
      DeathKeepsFlags(w, signal, Deliver(w, Dies(signal), denied));
    }
  }

  lemma DeathKeepsFlags(w: World, signal: Option<Signal>, next: World)
    requires next == w.(controller := Gone(signal))
    ensures SameFlags(w, next)
  {
  }

  lemma FlagsOfClose(w: World, denied: bool)
    ensures FlagsAfter(w, Close, Deliver(w, Close, denied))
  {
  }

  lemma FlagsOfOne(w: World, e: Event, denied: bool)
    ensures FlagsAfter(w, e, Deliver(w, e, denied))
  {
    match e
    case ControllerStep(journal) => FlagsOfStep(w, journal, denied);
    case StopLands => FlagsOfStop(w, denied);
    case KillLands => FlagsOfKill(w, denied);
    case Dies(signal) => FlagsOfDeath(w, signal, denied);
    case Exit => FlagsOfExit(w, denied);
    case Close => FlagsOfClose(w, denied);
    case Error => FlagsOfFailure(w, e, denied);
    case Abort => FlagsOfFailure(w, e, denied);
    case Deadline => FlagsOfFailure(w, e, denied);
    case Output(bytes) => FlagsOfOutput(w, bytes, denied);
  }

  /** Every fault sets its own flag and no other, whatever else happens. */
  lemma {:induction false} FlagsTellEvents(w: World, events: seq<Event>, denied: bool)
    requires w.outputLimitExceeded <==> w.outputBytes > MAX_OUTPUT_BYTES
    ensures var x := DeliverAll(w, events, denied);
      (x.aborted <==> w.aborted || Abort in events) && (x.timedOut <==> w.timedOut || Deadline in events) &&
      (x.spawnError <==> w.spawnError || Error in events) && x.outputBytes == w.outputBytes + BytesOf(events) &&
      (x.outputLimitExceeded <==> x.outputBytes > MAX_OUTPUT_BYTES)
    decreases |events|
  {
    if events != [] {
      FlagsOfOne(w, events[0], denied);
      FlagsTellEvents(Deliver(w, events[0], denied), events[1..], denied);
      assert events == [events[0]] + events[1..];
    }
  }

  /** An exit that no kill came before is unexpected, and interrupts the observation. */
  lemma ExitIsUnexpected(w: World, denied: bool)
    requires Inv(w) && w.controller.Gone? && !w.exited
    ensures var x := Deliver(w, Exit, denied);
      x.exited && x.exitSignal == w.controller.signal && (x.killed || x.closed) && (x.unexpectedExit <==> !w.killed) &&
      (!w.killed ==> x.interrupted)
  {
    ExitKeeps(w, denied);
    var seen := w.(exited := true, exitSignal := w.controller.signal);
    var marked := if w.killed then seen else Interrupt(seen.(unexpectedExit := true));
    assert Deliver(w, Exit, denied) == KillGroup(marked, denied);
    KillGroupKeepsInv(marked, denied);
  }

  /** Whatever goes wrong is remembered as what it is, fails the interruption, and kills the group or finds it reaped. */
  lemma FaultsAreRaised(journal: Journal, events: seq<Event>, denied: bool)
    ensures var x := DeliverAll(Spawned(journal), events, denied);
      (x.aborted <==> Abort in events) && (x.timedOut <==> Deadline in events) && (x.spawnError <==> Error in events) &&
      (x.outputLimitExceeded <==> BytesOf(events) > MAX_OUTPUT_BYTES) &&
      (Abort in events || Deadline in events || Error in events || BytesOf(events) > MAX_OUTPUT_BYTES ==>
         x.failure && x.interrupted && (x.killed || x.closed))
  {
    FlagsTellEvents(Spawned(journal), events, denied);
    EveryOrderKeepsInv(Spawned(journal), events, denied);
  }
}
