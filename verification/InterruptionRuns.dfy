/**
 * Runs of the interruption in which nothing goes wrong: what calm events do to
 * a controller that lives, that is held still, and that was killed.
 */
module InterruptionRuns {
  import opened Options
  import opened Interruption

  /** The controller lives, nobody has signalled the group, and nothing went wrong. */
  predicate Living(w: World) {
    !w.killed && !w.failure && !w.exited && !w.closed && !w.interrupted && !w.unexpectedExit && !w.controller.Gone?
  }

  /** An event that raises no fault; output is counted apart. */
  predicate Harmless(e: Event) {
    !e.Error? && !e.Abort? && !e.Deadline?
  }

  /** A harmless event that leaves the process alive. */
  predicate Calm(e: Event) {
    Harmless(e) && !e.Dies?
  }

  /** Whether the controller is held still, and its journal. */
  datatype Hold = Hold(stopped: bool, journal: Journal)

  function HoldOf(w: World): Hold {
    Hold(w.controller.Stopped?, w.journal)
  }

  /** A stop that was asked for may land, and a controller that is not stopped writes its journal. */
  function HoldAfter(h: Hold, asked: bool, events: seq<Event>): Hold
    decreases |events|
  {
    if events == [] then h
    else
      var e := events[0];
      var next :=
        if h.stopped then h
        else if e.StopLands? && asked then Hold(true, h.journal)
        else if e.ControllerStep? then Hold(false, e.journal)
        else h;
      HoldAfter(next, asked, events[1..])
  }

  /** The same over the events between any number of waits. */
  function HoldThrough(h: Hold, asked: bool, batches: seq<seq<Event>>): Hold
    decreases |batches|
  {
    if batches == [] then h else HoldThrough(HoldAfter(h, asked, batches[0]), asked, batches[1..])
  }

  /** Nothing but calm events until the wait `n`, and not too much output. */
  predicate Peaceful(schedule: seq<seq<Event>>, n: nat, bytes: nat)
    decreases n
  {
    n == 0 ||
    (schedule != [] && (forall e <- schedule[0] :: Calm(e)) && bytes + BytesOf(schedule[0]) <= MAX_OUTPUT_BYTES &&
     Peaceful(schedule[1..], n - 1, bytes + BytesOf(schedule[0])))
  }

  /** What one calm event makes of a living controller. */
  predicate CalmResult(w: World, e: Event, x: World) {
    Living(x) && x.stopPending == w.stopPending && x.outputBytes == w.outputBytes + (if e.Output? then e.bytes else 0) &&
    HoldOf(x) == HoldAfter(HoldOf(w), w.stopPending, [e])
  }

  lemma HoldAfterOne(h: Hold, asked: bool, e: Event)
    ensures HoldAfter(h, asked, [e]) ==
              if h.stopped then h
              else if e.StopLands? && asked then Hold(true, h.journal)
              else if e.ControllerStep? then Hold(false, e.journal)
              else h
  {
    assert [e][1..] == [];
  }

  lemma CalmStep(w: World, journal: Journal, denied: bool)
    requires Living(w)
    ensures CalmResult(w, ControllerStep(journal), Deliver(w, ControllerStep(journal), denied))
  {
    HoldAfterOne(HoldOf(w), w.stopPending, ControllerStep(journal));
    if w.controller.Running? {
      CalmWriting(w, journal, Deliver(w, ControllerStep(journal), denied));
    }
  }

  lemma CalmWriting(w: World, journal: Journal, next: World)
    requires Living(w) && next == Logged(w, Stepped).(journal := journal)
    ensures Living(next) && next.stopPending == w.stopPending && next.outputBytes == w.outputBytes
    ensures next.controller == w.controller && next.journal == journal
  {
  }

  lemma CalmStop(w: World, denied: bool)
    requires Living(w)
    ensures CalmResult(w, StopLands, Deliver(w, StopLands, denied))
  {
    HoldAfterOne(HoldOf(w), w.stopPending, StopLands);
  }

  lemma CalmOutput(w: World, bytes: nat, denied: bool)
    requires Living(w) && w.outputBytes + bytes <= MAX_OUTPUT_BYTES
    ensures CalmResult(w, Output(bytes), Deliver(w, Output(bytes), denied))
  {
    HoldAfterOne(HoldOf(w), w.stopPending, Output(bytes));
    assert Deliver(w, Output(bytes), denied) == Counted(w, bytes);
  }

  /** A kill, an exit and a close that nobody caused cannot happen to a living controller. */
  lemma CalmNothing(w: World, e: Event, denied: bool)
    requires Living(w) && (e.KillLands? || e.Exit? || e.Close?)
    ensures CalmResult(w, e, Deliver(w, e, denied))
  {
    HoldAfterOne(HoldOf(w), w.stopPending, e);
    assert Deliver(w, e, denied) == w;
  }

  lemma CalmOne(w: World, e: Event, denied: bool)
    requires Living(w) && Calm(e) && w.outputBytes + (if e.Output? then e.bytes else 0) <= MAX_OUTPUT_BYTES
    ensures CalmResult(w, e, Deliver(w, e, denied))
  {
    match e
    case ControllerStep(journal) => CalmStep(w, journal, denied);
    case StopLands => CalmStop(w, denied);
    case KillLands => CalmNothing(w, e, denied);
    case Exit => CalmNothing(w, e, denied);
    case Close => CalmNothing(w, e, denied);
    case Output(bytes) => CalmOutput(w, bytes, denied);
  }

  /** What a calm wait leaves. */
  ghost predicate CalmWait(w: World, events: seq<Event>, x: World) {
    Living(x) && x.stopPending == w.stopPending && x.outputBytes == w.outputBytes + BytesOf(events) &&
    HoldOf(x) == HoldAfter(HoldOf(w), w.stopPending, events)
  }

  lemma {:induction false} CalmBatch(w: World, events: seq<Event>, denied: bool)
    requires Living(w) && (forall e <- events :: Calm(e)) && w.outputBytes + BytesOf(events) <= MAX_OUTPUT_BYTES
    ensures CalmWait(w, events, DeliverAll(w, events, denied))
    decreases |events|
  {
    if events != [] {
      CalmOne(w, events[0], denied);
      HoldAfterOne(HoldOf(w), w.stopPending, events[0]);
      CalmBatch(Deliver(w, events[0], denied), events[1..], denied);
    }
  }

  lemma {:induction false} DeliverOneMore(w: World, events: seq<Event>, e: Event, denied: bool)
    ensures DeliverAll(w, events + [e], denied) == Deliver(DeliverAll(w, events, denied), e, denied)
    decreases |events|
  {
    if events == [] {
      assert [e][1..] == [];
      assert DeliverAll(w, [e], denied) == DeliverAll(Deliver(w, e, denied), [], denied);
    } else {
      DeliverOneMore(Deliver(w, events[0], denied), events[1..], e, denied);
      assert (events + [e])[1..] == events[1..] + [e];
    }
  }

  /** Who is held still stays so, with the journal as it is. */
  lemma {:induction false} HeldStays(h: Hold, asked: bool, events: seq<Event>)
    requires h.stopped
    ensures HoldAfter(h, asked, events) == h
    decreases |events|
  {
    if events != [] {
      HeldStays(h, asked, events[1..]);
    }
  }

  function AllBytes(schedule: seq<seq<Event>>): nat
    decreases |schedule|
  {
    if schedule == [] then 0 else BytesOf(schedule[0]) + AllBytes(schedule[1..])
  }

  lemma {:induction false} OneMoreBatch(h: Hold, asked: bool, batches: seq<seq<Event>>, events: seq<Event>)
    ensures HoldThrough(h, asked, batches + [events]) == HoldAfter(HoldThrough(h, asked, batches), asked, events)
    ensures AllBytes(batches + [events]) == AllBytes(batches) + BytesOf(events)
    decreases |batches|
  {
    if batches == [] {
      assert [events][1..] == [];
      assert HoldThrough(h, asked, [events]) == HoldThrough(HoldAfter(h, asked, events), asked, []);
      assert AllBytes([events]) == BytesOf(events) + AllBytes([]);
    } else {
      OneMoreBatch(HoldAfter(h, asked, batches[0]), asked, batches[1..], events);
      assert (batches + [events])[1..] == batches[1..] + [events];
    }
  }

  lemma {:induction false} HeldThrough(h: Hold, asked: bool, batches: seq<seq<Event>>)
    requires h.stopped
    ensures HoldThrough(h, asked, batches) == h
    decreases |batches|
  {
    if batches != [] {
      HeldStays(h, asked, batches[0]);
      HeldThrough(h, asked, batches[1..]);
    }
  }

  /** Who is stopped after some waits is stopped after more of them. */
  lemma {:induction false} StoppedStays(h: Hold, asked: bool, schedule: seq<seq<Event>>, a: nat, b: nat)
    requires a <= b <= |schedule| && HoldThrough(h, asked, schedule[..a]).stopped
    ensures HoldThrough(h, asked, schedule[..b]).stopped
    decreases b
  {
    if a < b {
      StoppedStays(h, asked, schedule, a, b - 1);
      OneMoreBatch(h, asked, schedule[..b - 1], schedule[b - 1]);
      assert schedule[..b] == schedule[..b - 1] + [schedule[b - 1]];
      HeldStays(HoldThrough(h, asked, schedule[..b - 1]), asked, schedule[b - 1]);
    }
  }

  /** After `k` of `n` calm waits, with the stop asked for or not. */
  ghost predicate Calmly(w0: World, schedule0: seq<seq<Event>>, asked: bool, w: World, schedule: seq<seq<Event>>, k: nat, n: nat) {
    k <= n && k <= |schedule0| && schedule == schedule0[k..] && Living(w) && Peaceful(schedule, n - k, w.outputBytes) &&
    w.outputBytes == w0.outputBytes + AllBytes(schedule0[..k]) &&
    HoldOf(w) == HoldThrough(HoldOf(w0), asked, schedule0[..k])
  }

  lemma CalmlyStarts(w: World, schedule: seq<seq<Event>>, asked: bool, n: nat)
    requires Living(w) && Peaceful(schedule, n, w.outputBytes)
    ensures Calmly(w, schedule, asked, w, schedule, 0, n)
  {
    assert schedule[0..] == schedule && schedule[..0] == [];
  }

  lemma CalmlyGoesOn(
    w0: World, schedule0: seq<seq<Event>>, asked: bool, w: World, schedule: seq<seq<Event>>, k: nat, n: nat, x: World)
    requires Calmly(w0, schedule0, asked, w, schedule, k, n) && k < n && w.stopPending == asked
    requires schedule != [] && CalmWait(w, schedule[0], x) && Peaceful(schedule[1..], n - k - 1, x.outputBytes)
    ensures Calmly(w0, schedule0, asked, x, schedule[1..], k + 1, n)
  {
    OneMoreBatch(HoldOf(w0), asked, schedule0[..k], schedule0[k]);
    assert schedule0[..k + 1] == schedule0[..k] + [schedule0[k]];
    assert schedule0[k..][1..] == schedule0[k + 1..] && schedule0[k..][0] == schedule0[k];
  }

  lemma {:induction false} AllBytesInTwoParts(a: seq<seq<Event>>, b: seq<seq<Event>>)
    ensures AllBytes(a + b) == AllBytes(a) + AllBytes(b)
    decreases |a|
  {
    if a == [] {
      assert a + b == b;
    } else {
      AllBytesInTwoParts(a[1..], b);
      assert (a + b)[1..] == a[1..] + b;
    }
  }

  /** `k` waits have passed, with their output. */
  ghost predicate Passed(w0: World, s0: seq<seq<Event>>, w: World, s: seq<seq<Event>>, k: nat) {
    k <= |s0| && s == s0[k..] && w.outputBytes == w0.outputBytes + AllBytes(s0[..k])
  }

  lemma PassedTogether(
    w0: World, s0: seq<seq<Event>>, w1: World, s1: seq<seq<Event>>, a: nat, w2: World, s2: seq<seq<Event>>, b: nat)
    requires Passed(w0, s0, w1, s1, a) && Passed(w1, s1, w2, s2, b)
    ensures Passed(w0, s0, w2, s2, a + b)
  {
    assert s0[a..][b..] == s0[a + b..];
    assert s0[..a + b] == s0[..a] + s0[a..][..b];
    AllBytesInTwoParts(s0[..a], s0[a..][..b]);
  }

  // ---- after the kill ----

  datatype Phase = Signalled | Died | Exited | Reaped

  /** The kill lands, the exit is seen, and the close follows. */
  function PhaseAfter(phase: Phase, events: seq<Event>): Phase
    decreases |events|
  {
    if events == [] then phase
    else
      var e := events[0];
      var next :=
        match phase
        case Signalled => if e.KillLands? then Died else phase
        case Died => if e.Exit? then Exited else phase
        case Exited => if e.Close? then Reaped else phase
        case Reaped => phase;
      PhaseAfter(next, events[1..])
  }

  /** How far a group has come that was killed while its controller was held still. */
  predicate InPhase(w: World, phase: Phase, journal: Journal) {
    w.killed && !w.failure && !w.unexpectedExit && w.journal == journal &&
    w.exited == (phase.Exited? || phase.Reaped?) && w.closed == phase.Reaped? &&
    (if phase.Signalled? then w.controller.Stopped? else w.controller == Gone(Some(Sigkill))) &&
    (w.exited ==> w.exitSignal == Some(Sigkill))
  }

  predicate PhaseResult(w: World, phase: Phase, e: Event, x: World) {
    InPhase(x, PhaseAfter(phase, [e]), w.journal) && x.outputBytes == w.outputBytes + if e.Output? then e.bytes else 0
  }

  lemma PhaseAfterOne(phase: Phase, e: Event)
    ensures PhaseAfter(phase, [e]) ==
              match phase
              case Signalled => if e.KillLands? then Died else phase
              case Died => if e.Exit? then Exited else phase
              case Exited => if e.Close? then Reaped else phase
              case Reaped => phase
  {
    assert [e][1..] == [];
  }

  lemma PhaseKill(w: World, phase: Phase, denied: bool)
    requires InPhase(w, phase, w.journal)
    ensures PhaseResult(w, phase, KillLands, Deliver(w, KillLands, denied))
  {
    PhaseAfterOne(phase, KillLands);
  }

  lemma PhaseExit(w: World, phase: Phase, denied: bool)
    requires InPhase(w, phase, w.journal)
    ensures PhaseResult(w, phase, Exit, Deliver(w, Exit, denied))
  {
    PhaseAfterOne(phase, Exit);
    if phase.Died? {
      PhaseExited(w, Deliver(w, Exit, denied));
    }
  }

  lemma PhaseExited(w: World, next: World)
    requires InPhase(w, Died, w.journal) && next == w.(exited := true, exitSignal := w.controller.signal)
    ensures InPhase(next, Exited, w.journal) && next.outputBytes == w.outputBytes
  {
  }

  lemma PhaseClose(w: World, phase: Phase, denied: bool)
    requires InPhase(w, phase, w.journal)
    ensures PhaseResult(w, phase, Close, Deliver(w, Close, denied))
  {
    PhaseAfterOne(phase, Close);
    if phase.Exited? {
      PhaseClosed(w, Deliver(w, Close, denied));
    }
  }

  lemma PhaseClosed(w: World, next: World)
    requires InPhase(w, Exited, w.journal) && next == Logged(w, SawClose).(closed := true)
    ensures InPhase(next, Reaped, w.journal) && next.outputBytes == w.outputBytes
  {
  }

  lemma PhaseOutput(w: World, phase: Phase, bytes: nat, denied: bool)
    requires InPhase(w, phase, w.journal) && w.outputBytes + bytes <= MAX_OUTPUT_BYTES
    ensures PhaseResult(w, phase, Output(bytes), Deliver(w, Output(bytes), denied))
  {
    PhaseAfterOne(phase, Output(bytes));
    assert Deliver(w, Output(bytes), denied) == Counted(w, bytes);
  }

  lemma PhaseNothing(w: World, phase: Phase, e: Event, denied: bool)
    requires InPhase(w, phase, w.journal)
    requires e.ControllerStep? || (e.Dies? && !phase.Signalled?)
    ensures PhaseResult(w, phase, e, Deliver(w, e, denied))
  {
    PhaseAfterOne(phase, e);
    assert Deliver(w, e, denied) == w;
  }

  lemma PhaseStop(w: World, phase: Phase, denied: bool)
    requires InPhase(w, phase, w.journal)
    ensures PhaseResult(w, phase, StopLands, Deliver(w, StopLands, denied))
  {
    PhaseAfterOne(phase, StopLands);
    assert Deliver(w, StopLands, denied) == w;
  }

  lemma PhaseOne(w: World, phase: Phase, e: Event, denied: bool)
    requires InPhase(w, phase, w.journal) && Harmless(e) && (e.Dies? ==> !phase.Signalled?)
    requires w.outputBytes + (if e.Output? then e.bytes else 0) <= MAX_OUTPUT_BYTES
    ensures PhaseResult(w, phase, e, Deliver(w, e, denied))
  {
    match e
    case ControllerStep(_) => PhaseNothing(w, phase, e, denied);
    case StopLands => PhaseStop(w, phase, denied);
    case KillLands => PhaseKill(w, phase, denied);
    case Dies(_) => PhaseNothing(w, phase, e, denied);
    case Exit => PhaseExit(w, phase, denied);
    case Close => PhaseClose(w, phase, denied);
    case Output(bytes) => PhaseOutput(w, phase, bytes, denied);
  }

  /** Harmless events, of which none is the process dying of something else before the kill lands. */
  predicate Undisturbed(phase: Phase, events: seq<Event>, bytes: nat) {
    (forall e <- events :: Harmless(e) && (phase.Signalled? ==> !e.Dies?)) && bytes + BytesOf(events) <= MAX_OUTPUT_BYTES
  }

  lemma {:induction false} PhaseBatch(w: World, phase: Phase, events: seq<Event>, denied: bool)
    requires InPhase(w, phase, w.journal) && Undisturbed(phase, events, w.outputBytes)
    ensures var x := DeliverAll(w, events, denied);
      InPhase(x, PhaseAfter(phase, events), w.journal) && x.outputBytes == w.outputBytes + BytesOf(events)
    decreases |events|
  {
    if events != [] {
      PhaseOne(w, phase, events[0], denied);
      PhaseAfterOne(phase, events[0]);
      PhaseBatch(Deliver(w, events[0], denied), PhaseAfter(phase, [events[0]]), events[1..], denied);
    }
  }

  lemma {:induction false} ReapedStays(events: seq<Event>)
    ensures PhaseAfter(Reaped, events) == Reaped
    decreases |events|
  {
    if events != [] {
      ReapedStays(events[1..]);
    }
  }

  /** At the wait after the kill the group dies of it, exits, and is reaped; nothing goes wrong then or at the two waits that follow. */
  predicate Reaping(schedule: seq<seq<Event>>, bytes: nat) {
    |schedule| >= 3 && PhaseAfter(Signalled, schedule[0]) == Reaped &&
    Undisturbed(Signalled, schedule[0], bytes) &&
    Undisturbed(Reaped, schedule[1], bytes + BytesOf(schedule[0])) &&
    Undisturbed(Reaped, schedule[2], bytes + BytesOf(schedule[0]) + BytesOf(schedule[1]))
  }

  /** The group was reaped after the kill, with the journal as it was. */
  predicate ReapedWith(w: World, journal: Journal) {
    w.closed && w.exitSignal == Some(Sigkill) && !w.failure && w.journal == journal
  }

  lemma ReapingRuns(killed: World, schedule: seq<seq<Event>>, denied: bool)
    requires InPhase(killed, Signalled, killed.journal) && Reaping(schedule, killed.outputBytes)
    ensures var reaped := DeliverAll(killed, schedule[0], denied);
      var read := DeliverAll(reaped, schedule[1], denied);
      ReapedWith(reaped, killed.journal) && ReapedWith(read, killed.journal) &&
      ReapedWith(DeliverAll(read, schedule[2], denied), killed.journal)
  {
    var reaped := DeliverAll(killed, schedule[0], denied);
    PhaseBatch(killed, Signalled, schedule[0], denied);
    ReapedStays(schedule[1]);
    PhaseBatch(reaped, Reaped, schedule[1], denied);
    ReapedStays(schedule[2]);
    PhaseBatch(DeliverAll(reaped, schedule[1], denied), Reaped, schedule[2], denied);
  }

  lemma KilledAfterHold(held: World, killed: World, journal: Journal)
    requires Living(held) && HoldOf(held) == Hold(true, journal) && killed == KillGroup(held.(decided := true), false)
    ensures InPhase(killed, Signalled, journal) && killed.journal == journal && killed.outputBytes == held.outputBytes
  {
  }
}
