/** The interruption's own steps, with process events falling between any two of them. */
module InterruptionHost {
  import opened Options
  import opened Interruption
  import opened InterruptionRuns

  datatype Outcome = Completed | Faulted

  /** What one look for the awaited child comes to; the listing, a command line or the stop itself may fail. */
  datatype Look = Failing | Absent | Found

  /**
   * What the target's independent observer, the process listings and the journal
   * answer; `rows` says of each listing whether the controller can be read in it.
   */
  datatype Answers = Answers(
    pending: Journal, rows: seq<bool>, stoppedJournal: bool, healthy: bool, observedJournal: bool,
    reapedJournal: bool, listed: bool, survivors: bool)

  /** Seen stopped, then observed healthy, then killed, then reaped. */
  ghost predicate Boundary(log: seq<Mark>) {
    exists i, j, k, l :: 0 <= i < j < k < l < |log| &&
      log[i] == SawStopped && log[j] == SawHealthy && log[k] == SentKill && log[l] == SawClose
  }

  predicate Alive(w: World) {
    !w.failure && !w.exited && !w.closed
  }

  lemma KeepsPair(a: seq<Mark>, b: seq<Mark>)
    requires a <= b && exists i, j :: 0 <= i < j < |a| && a[i] == SawStopped && a[j] == SawHealthy
    ensures exists i, j :: 0 <= i < j < |b| && b[i] == SawStopped && b[j] == SawHealthy
  {
    var i, j :| 0 <= i < j < |a| && a[i] == SawStopped && a[j] == SawHealthy;
    assert b[i] == SawStopped && b[j] == SawHealthy;
  }

  lemma MakesBoundary(mid: seq<Mark>, log: seq<Mark>)
    requires mid <= log
    requires exists i, j :: 0 <= i < j < |mid| && mid[i] == SawStopped && mid[j] == SawHealthy
    requires exists k, l :: |mid| <= k < l < |log| && log[k] == SentKill && log[l] == SawClose
    ensures Boundary(log)
  {
    var i, j :| 0 <= i < j < |mid| && mid[i] == SawStopped && mid[j] == SawHealthy;
    assert log[i] == SawStopped && log[j] == SawHealthy;
  }

  // ---- when an interruption is completed ----

  /** The look `i` is the first that finds the child, and none before it fails. */
  predicate Finds(looks: seq<Look>, i: nat) {
    i < |looks| && looks[i] == Found && forall j :: 0 <= j < i ==> looks[j] == Absent
  }

  /** The listing `n` is the first that shows the controller stopped, and it can be read in all up to this one. */
  predicate Shows(h: Hold, schedule: seq<seq<Event>>, rows: seq<bool>, n: nat) {
    n < |schedule| && !HoldThrough(h, true, schedule[..n]).stopped && HoldThrough(h, true, schedule[..n + 1]).stopped &&
    forall j :: 0 <= j <= n && j < |rows| ==> rows[j]
  }

  /** What holding and observing needs: the stop shows in listing `m`, the journal is the pending one, and all is calm. */
  predicate Holds(w: World, schedule: seq<seq<Event>>, answers: Answers, m: nat, n: nat) {
    Living(w) && w.stopPending && m + 3 <= n && Peaceful(schedule, n, w.outputBytes) &&
    Shows(HoldOf(w), schedule, answers.rows, m) && HoldThrough(HoldOf(w), true, schedule[..m + 1]).journal == answers.pending &&
    answers.stoppedJournal && answers.healthy
  }

  /**
   * Events, looks and answers that bring the interruption about: the child is found
   * by look `i`, the stop shows in listing `m` after it with the journal pending, up
   * to the kill all is calm, and after it the group is reaped.
   */
  predicate Favourable(
    schedule: seq<seq<Event>>, hold: Hold, bytes: nat, looks: seq<Look>, answers: Answers, i: nat, m: nat)
  {
    var kill := i + m + 6;
    |schedule| >= kill + 3 && Finds(looks, i) && Peaceful(schedule, kill, bytes) &&
    (var h, left := HoldThrough(hold, false, schedule[..i + 1]), schedule[i + 1..];
     Shows(h, left, answers.rows, m) && HoldThrough(h, true, left[..m + 1]).journal == answers.pending) &&
    answers.stoppedJournal && answers.healthy && answers.observedJournal &&
    Reaping(schedule[kill..], bytes + AllBytes(schedule[..kill])) &&
    answers.reapedJournal && answers.listed && !answers.survivors
  }

  /** The listings up to the one that shows the stop can be read, and none before it shows it. */
  lemma StopIsShown(h: Hold, schedule: seq<seq<Event>>, rows: seq<bool>, m: nat, k: nat)
    requires Shows(h, schedule, rows, m) && 0 < k <= m + 1
    ensures k <= |rows| ==> rows[k - 1]
    ensures HoldThrough(h, true, schedule[..k]).stopped <==> k == m + 1
  {
    if k <= m && HoldThrough(h, true, schedule[..k]).stopped {
      StoppedStays(h, true, schedule, k, m);
    }
  }

  /** A close that was not there at the kill came after it. */
  lemma ClosesLater(killed: seq<Mark>, log: seq<Mark>, k: nat)
    requires killed <= log && k < |killed| && k == |killed| - 1 && killed[k] == SentKill
    requires SawClose !in killed && SawClose in log
    ensures exists j, l :: k <= j < l < |log| && log[j] == SentKill && log[l] == SawClose
  {
    var l :| 0 <= l < |log| && log[l] == SawClose;
    assert forall j :: 0 <= j < |killed| ==> log[j] == killed[j] && killed[j] in killed;
    assert log[k] == SentKill;
  }

  class Harness {
    var w: World
    /** The process events between one wait of the harness and the next. */
    var schedule: seq<seq<Event>>
    /** Whether the operating system refuses to signal the group. */
    const denied: bool

    constructor (journal: Journal, schedule: seq<seq<Event>>, denied: bool)
      ensures w == Spawned(journal) && this.schedule == schedule && this.denied == denied && Inv(w)
    {
      this.w, this.schedule, this.denied := Spawned(journal), schedule, denied;
    }

    /** Let events happen; when nothing more is scheduled, the deadline is what happens. */
    method Await()
      requires Inv(w)
      modifies this
      ensures Inv(w) && Later(old(w), w)
      ensures |schedule| < |old(schedule)| || (schedule == old(schedule) == [] && w.failure)
      ensures old(schedule) != [] ==> schedule == old(schedule)[1..] && w == DeliverAll(old(w), old(schedule)[0], denied)
    {
      if schedule == [] {
        DeliverKeeps(w, Deadline, denied);
        w := Deliver(w, Deadline, denied);
        return;
      }
      var batch := schedule[0];
      schedule := schedule[1..];
      for n := 0 to |batch|
        invariant Inv(w) && Later(old(w), w) && schedule == old(schedule)[1..]
        invariant w == DeliverAll(old(w), batch[..n], denied)
      {
        ghost var before := w;
        DeliverKeeps(w, batch[n], denied);
        w := Deliver(w, batch[n], denied);
        LaterIsTransitive(old(w), before, w);
        DeliverOneMore(old(w), batch[..n], batch[n], denied);
        assert batch[..n + 1] == batch[..n] + [batch[n]];
      }
      assert batch[..|batch|] == batch;
    }

    /** Wait, with all calm if `n` waits are. */
    method CalmAwait(ghost n: nat)
      requires Inv(w)
      modifies this
      ensures Inv(w) && Later(old(w), w)
      ensures |schedule| < |old(schedule)| || (schedule == old(schedule) == [] && w.failure)
      ensures old(schedule) != [] ==> schedule == old(schedule)[1..] && w == DeliverAll(old(w), old(schedule)[0], denied)
      ensures Living(old(w)) && n > 0 && Peaceful(old(schedule), n, old(w).outputBytes) ==>
                old(schedule) != [] && schedule == old(schedule)[1..] && CalmWait(old(w), old(schedule)[0], w) &&
                Peaceful(schedule, n - 1, w.outputBytes)
    {
      if schedule != [] && (forall e <- schedule[0] :: Calm(e)) && Living(w) && w.outputBytes + BytesOf(schedule[0]) <= MAX_OUTPUT_BYTES {
        CalmBatch(w, schedule[0], denied);
      }
      Await();
    }

    /** One wait more, of a stretch that is calm if it is fine. */
    method GoOn(ghost fine: bool, ghost w0: World, ghost s0: seq<seq<Event>>, ghost asked: bool, ghost k: nat, ghost n: nat)
      requires Inv(w) && Later(w0, w)
      requires fine ==> k < n && w.stopPending == asked && Calmly(w0, s0, asked, w, schedule, k, n)
      modifies this
      ensures Inv(w) && Later(w0, w)
      ensures |schedule| < |old(schedule)| || (schedule == old(schedule) == [] && w.failure)
      ensures fine ==> w.stopPending == asked && Calmly(w0, s0, asked, w, schedule, k + 1, n)
    {
      ghost var before, ahead := w, schedule;
      CalmAwait(if fine then n - k else 0);
      LaterIsTransitive(w0, before, w);
      if fine {
        CalmlyGoesOn(w0, s0, asked, before, ahead, k, n, w);
      }
    }

    /** Send the stop; it lands later. */
    method AskToStop(ghost w0: World)
      requires Inv(w) && Alive(w) && Later(w0, w)
      modifies this`w
      ensures Inv(w) && Later(w0, w) && w == Logged(old(w), SentStop).(stopPending := true)
    {
      ghost var before := w;
      LoggedKeepsInv(w, SentStop);
      w := Logged(w, SentStop).(stopPending := true);
      LaterIsTransitive(w0, before, w);
    }

    method MarkStopped(ghost w0: World)
      requires Inv(w) && w.controller.Stopped? && Later(w0, w)
      modifies this`w
      ensures Inv(w) && Later(w0, w) && w == Logged(old(w), SawStopped)
    {
      ghost var before := w;
      LoggedKeepsInv(w, SawStopped);
      w := Logged(w, SawStopped);
      LaterIsTransitive(w0, before, w);
    }

    /** Look for the awaited child until it starts, and then ask the controller to stop. */
    method StopController(looks: seq<Look>, ghost i: nat, ghost n: nat) returns (ok: bool)
      requires Inv(w) && !w.stopPending
      modifies this
      ensures Inv(w) && Later(old(w), w)
      ensures ok ==> Found in looks && Alive(w) && w.stopPending
      ensures ok ==> |w.log| > |old(w).log| && w.log[|w.log| - 1] == SentStop
      ensures !ok ==> !Alive(w) || Failing in looks
      ensures Finds(looks, i) && Living(old(w)) && i < n && Peaceful(old(schedule), n, old(w).outputBytes) ==>
                ok && Calmly(old(w), old(schedule), false, w, schedule, i + 1, n)
    {
      var left := looks;
      ghost var k := 0;
      ghost var fine := Finds(looks, i) && Living(w) && i < n && Peaceful(schedule, n, w.outputBytes);
      if fine {
        CalmlyStarts(w, schedule, false, n);
      }
      while Alive(w)
        invariant Inv(w) && Later(old(w), w)
        invariant forall look <- left :: look in looks
        invariant fine ==> k <= i && left == looks[k..] && !w.stopPending && Calmly(old(w), old(schedule), false, w, schedule, k, n)
        decreases |schedule| + if w.failure then 0 else 1
      {
        GoOn(fine, old(w), old(schedule), false, k, n);
        if fine {
          assert looks[k..][0] == looks[k] && looks[k..][1..] == looks[k + 1..];
          k := k + 1;
        }
        var look := if left == [] then Absent else left[0];
        if look == Failing {
          return false;
        }
        if look == Found && Alive(w) {
          AskToStop(old(w));
          return true;
        }
        left := if left == [] then [] else left[1..];
      }
      ok := false;
    }

    /** Wait until the process listing itself shows the controller stopped. */
    method ConfirmStopped(rows: seq<bool>, ghost m: nat, ghost n: nat) returns (ok: bool)
      requires Inv(w)
      modifies this
      ensures Inv(w) && Later(old(w), w)
      ensures ok ==> |w.log| > |old(w).log| && w.log[|w.log| - 1] == SawStopped && w.controller.Stopped?
      ensures !ok ==> !Alive(w) || false in rows
      ensures Shows(HoldOf(old(w)), old(schedule), rows, m) && Living(old(w)) && old(w).stopPending && m < n &&
              Peaceful(old(schedule), n, old(w).outputBytes) ==>
                ok && w.stopPending && Calmly(old(w), old(schedule), true, w, schedule, m + 1, n)
    {
      var left := rows;
      ghost var k := 0;
      ghost var fine :=
        Shows(HoldOf(w), schedule, rows, m) && Living(w) && w.stopPending && m < n && Peaceful(schedule, n, w.outputBytes);
      if fine {
        CalmlyStarts(w, schedule, true, n);
      }
      while Alive(w)
        invariant Inv(w) && Later(old(w), w)
        invariant forall row <- left :: row in rows
        invariant fine ==> k <= m && left == (if k <= |rows| then rows[k..] else []) && w.stopPending
        invariant fine ==> Calmly(old(w), old(schedule), true, w, schedule, k, n)
        decreases |schedule| + if w.failure then 0 else 1
      {
        GoOn(fine, old(w), old(schedule), true, k, n);
        if fine {
          k := k + 1;
          StopIsShown(HoldOf(old(w)), old(schedule), rows, m, k);
        }
        var row := left == [] || left[0];
        if !row || w.exited {
          return false;
        }
        if w.controller.Stopped? {
          MarkStopped(old(w));
          return true;
        }
        left := if left == [] then [] else left[1..];
      }
      ok := false;
    }

    method ReadJournal(readable: bool, ghost n: nat) returns (journal: Option<Journal>)
      requires Inv(w)
      modifies this
      ensures Inv(w) && Later(old(w), w)
      ensures journal == if readable then Some(w.journal) else None
      ensures old(schedule) != [] ==> schedule == old(schedule)[1..] && w == DeliverAll(old(w), old(schedule)[0], denied)
      ensures Living(old(w)) && n > 0 && Peaceful(old(schedule), n, old(w).outputBytes) ==>
                old(schedule) != [] && CalmWait(old(w), old(schedule)[0], w) && Peaceful(schedule, n - 1, w.outputBytes)
    {
      CalmAwait(n);
      journal := if readable then Some(w.journal) else None;
    }

    /** Observe the target independently and require it healthy. */
    method ObserveTarget(answers: Answers, ghost n: nat) returns (ok: bool)
      requires Inv(w)
      modifies this
      ensures Inv(w) && Later(old(w), w)
      ensures ok ==> |w.log| > |old(w).log| && w.log[|w.log| - 1] == SawHealthy && answers.healthy
      ensures Living(old(w)) && n > 0 && Peaceful(old(schedule), n, old(w).outputBytes) && answers.healthy ==>
                ok && old(schedule) != [] && schedule == old(schedule)[1..] && CalmWait(old(w), old(schedule)[0], w) &&
                Peaceful(schedule, n - 1, w.outputBytes)
    {
      CalmAwait(n);
      if w.interrupted || !Alive(w) || !answers.healthy {
        return false;
      }
      ghost var seen := w;
      LoggedKeepsInv(w, SawHealthy);
      w := Logged(w, SawHealthy);
      LaterIsTransitive(old(w), seen, w);
      return true;
    }

    /** Hold the controller still, and require its journal to be the pending one. */
    method HoldPending(answers: Answers, ghost m: nat, ghost n: nat) returns (ok: bool)
      requires Inv(w)
      modifies this
      ensures Inv(w) && Later(old(w), w)
      ensures ok ==> w.journal == answers.pending && !w.controller.Running? && SawStopped in w.log
      ensures Holds(old(w), old(schedule), answers, m, n) ==>
                ok && w.stopPending && Calmly(old(w), old(schedule), true, w, schedule, m + 2, n) &&
                HoldOf(w) == Hold(true, answers.pending)
    {
      ghost var fine := Holds(w, schedule, answers, m, n);
      ok := ConfirmStopped(answers.rows, m, n);
      if !ok {
        return;
      }
      ghost var stopped, s1 := w, schedule;
      var journal := ReadJournal(answers.stoppedJournal, if fine then n - m - 1 else 0);
      LaterIsTransitive(old(w), stopped, w);
      if fine {
        CalmlyGoesOn(old(w), old(schedule), true, stopped, s1, m + 1, n, w);
        HeldStays(HoldOf(stopped), true, s1[0]);
      }
      assert w.log[|stopped.log| - 1] == SawStopped;
      ok := journal == Some(answers.pending);
    }

    /** The target, observed while the controller is held still. */
    method HoldAndObserve(answers: Answers, ghost m: nat, ghost n: nat) returns (ok: bool)
      requires Inv(w)
      modifies this
      ensures Inv(w) && Later(old(w), w)
      ensures ok ==> answers.healthy && SawStopped in w.log && w.journal == answers.pending
      ensures ok ==> exists i, j :: 0 <= i < j < |w.log| && w.log[i] == SawStopped && w.log[j] == SawHealthy
      ensures Holds(old(w), old(schedule), answers, m, n) ==>
                ok && w.stopPending && Calmly(old(w), old(schedule), true, w, schedule, m + 3, n) &&
                HoldOf(w) == Hold(true, answers.pending)
    {
      ghost var fine := Holds(w, schedule, answers, m, n);
      ok := HoldPending(answers, m, n);
      if !ok {
        return;
      }
      ghost var read, s2 := w, schedule;
      ok := ObserveTarget(answers, if fine then n - m - 2 else 0);
      LaterIsTransitive(old(w), read, w);
      if fine {
        CalmlyGoesOn(old(w), old(schedule), true, read, s2, m + 2, n, w);
        HeldStays(HoldOf(read), true, s2[0]);
      }
      if ok {
        ghost var i :| 0 <= i < |read.log| && read.log[i] == SawStopped;
        assert w.log[i] == SawStopped && w.log[|w.log| - 1] == SawHealthy;
      }
    }

    /** Read the journal again, and publish the boundary. */
    method PublishBoundary(answers: Answers, ghost n: nat) returns (ok: bool)
      requires Inv(w)
      modifies this
      ensures Inv(w) && Later(old(w), w)
      ensures ok ==> Alive(w)
      ensures Living(old(w)) && old(w).stopPending && HoldOf(old(w)) == Hold(true, answers.pending) && answers.observedJournal &&
              n >= 2 && Peaceful(old(schedule), n, old(w).outputBytes) ==>
                ok && Calmly(old(w), old(schedule), true, w, schedule, 2, n) && HoldOf(w) == Hold(true, answers.pending)
    {
      ghost var fine := Living(w) && w.stopPending && HoldOf(w) == Hold(true, answers.pending) && answers.observedJournal &&
                        n >= 2 && Peaceful(schedule, n, w.outputBytes);
      ghost var s0 := schedule;
      var journal := ReadJournal(answers.observedJournal, if fine then n else 0);
      ghost var read, s1 := w, schedule;
      if fine {
        CalmlyStarts(old(w), s0, true, n);
        CalmlyGoesOn(old(w), s0, true, old(w), s0, 0, n, read);
        HeldStays(HoldOf(old(w)), true, s0[0]);
      }
      if journal != Some(answers.pending) {
        return false;
      }
      CalmAwait(if fine then n - 1 else 0);
      LaterIsTransitive(old(w), read, w);
      if fine {
        CalmlyGoesOn(old(w), s0, true, read, s1, 1, n, w);
        HeldStays(HoldOf(read), true, s1[0]);
      }
      ok := Alive(w) && !w.interrupted;
    }

    /** Kill the held group and wait for its exit. */
    method KillAndReap(answers: Answers) returns (ok: bool)
      requires Inv(w) && Alive(w) && !w.decided && SawStopped in w.log && w.journal == answers.pending
      modifies this
      ensures Inv(w) && old(w).log <= w.log
      ensures ok ==> !w.failure && !w.unexpectedExit && w.closed && w.controller == Gone(Some(Sigkill)) && w.journal == answers.pending
      ensures ok ==> answers.listed && !answers.survivors
      ensures ok ==> exists k, l :: |old(w).log| <= k < l < |w.log| && w.log[k] == SentKill && w.log[l] == SawClose
      ensures Living(old(w)) && HoldOf(old(w)) == Hold(true, answers.pending) && !denied &&
              Reaping(old(schedule), old(w).outputBytes) && answers.reapedJournal && answers.listed && !answers.survivors ==>
                ok
    {
      KillGroupKeepsInv(w.(decided := true), denied);
      w := KillGroup(w.(decided := true), denied);
      ghost var killed := w;
      ghost var k := |old(w).log|;
      if Living(old(w)) && HoldOf(old(w)) == Hold(true, answers.pending) && !denied {
        KilledAfterHold(old(w), killed, answers.pending);
      }
      ok := Reap(answers);
      if ok {
        ClosesLater(killed.log, w.log, k);
      }
    }

    /** Wait for the exit of the killed group, and look once more. */
    method Reap(answers: Answers) returns (ok: bool)
      requires Inv(w) && w.killed && !w.closed && !w.unexpectedExit
      modifies this
      ensures Inv(w) && Later(old(w), w)
      ensures ok ==> !w.failure && !w.unexpectedExit && w.closed && w.controller == Gone(Some(Sigkill)) && w.journal == answers.pending
      ensures ok ==> answers.listed && !answers.survivors
      ensures InPhase(old(w), Signalled, answers.pending) && Reaping(old(schedule), old(w).outputBytes) &&
              answers.reapedJournal && answers.listed && !answers.survivors ==>
                ok
    {
      if InPhase(w, Signalled, answers.pending) && Reaping(schedule, w.outputBytes) {
        ReapingRuns(w, schedule, denied);
      }
      Await();
      if !w.closed || w.exitSignal != Some(Sigkill) || w.failure {
        return false;
      }
      ghost var reaped := w;
      var journal := ReadJournal(answers.reapedJournal, 0);
      LaterIsTransitive(old(w), reaped, w);
      if journal != Some(answers.pending) {
        return false;
      }
      ghost var read := w;
      Await();
      LaterIsTransitive(old(w), read, w);
      ok := answers.listed && !answers.survivors && !w.failure;
    }

    /**
     * Stop the controller at its frontier, observe the target behind it, and
     * kill it there.  Success means the whole boundary happened in order, with
     * the journal untouched from the stop on; and whatever the events, it comes
     * about when they, the looks and the answers are favourable.
     */
    method InterruptUpdate(looks: seq<Look>, answers: Answers, ghost i: nat, ghost m: nat) returns (r: Outcome)
      requires Inv(w) && !w.stopPending && !w.decided
      modifies this
      ensures Inv(w)
      ensures r.Completed? ==> Boundary(w.log) && w.journal == answers.pending
      ensures r.Completed? ==> !w.failure && !w.unexpectedExit && w.controller == Gone(Some(Sigkill)) && answers.healthy
      ensures r.Faulted? ==> w.killed || w.closed
      ensures Living(old(w)) && !denied && Favourable(old(schedule), HoldOf(old(w)), old(w).outputBytes, looks, answers, i, m) ==>
                r == Completed
    {
      var ok := ReachBoundary(looks, answers, i, m);
      if ok {
        return Completed;
      }
      r := Faulted;
      KillGroupKeepsInv(w.(decided := true), denied);
      w := KillGroup(w.(decided := true), denied);
      Await();
    }

    method ReachBoundary(looks: seq<Look>, answers: Answers, ghost i: nat, ghost m: nat) returns (ok: bool)
      requires Inv(w) && !w.stopPending && !w.decided
      modifies this
      ensures Inv(w)
      ensures ok ==> Boundary(w.log) && w.journal == answers.pending
      ensures ok ==> !w.failure && !w.unexpectedExit && w.controller == Gone(Some(Sigkill)) && answers.healthy
      ensures Living(old(w)) && !denied && Favourable(old(schedule), HoldOf(old(w)), old(w).outputBytes, looks, answers, i, m) ==>
                ok
    {
      ghost var fine := Favourable(schedule, HoldOf(w), w.outputBytes, looks, answers, i, m) && Living(w);
      ok := HoldAtFrontier(looks, answers, i, m);
      if !ok {
        return;
      }
      ghost var held, s1 := w, schedule;
      ok := PublishBoundary(answers, 2);
      if !ok {
        return;
      }
      ghost var published := w;
      if fine {
        PassedTogether(old(w), old(schedule), held, s1, i + m + 4, published, schedule, 2);
      }
      ok := KillAndReap(answers);
      if ok {
        KeepsPair(held.log, published.log);
        MakesBoundary(published.log, w.log);
      }
    }

    /** Stop the controller once its child has started, and observe the target behind it. */
    method HoldAtFrontier(looks: seq<Look>, answers: Answers, ghost i: nat, ghost m: nat) returns (ok: bool)
      requires Inv(w) && !w.stopPending && !w.decided
      modifies this
      ensures Inv(w) && Later(old(w), w)
      ensures ok ==> answers.healthy && SawStopped in w.log && w.journal == answers.pending
      ensures ok ==> exists i, j :: 0 <= i < j < |w.log| && w.log[i] == SawStopped && w.log[j] == SawHealthy
      ensures Living(old(w)) && Favourable(old(schedule), HoldOf(old(w)), old(w).outputBytes, looks, answers, i, m) ==>
                ok && Living(w) && w.stopPending && HoldOf(w) == Hold(true, answers.pending) &&
                Passed(old(w), old(schedule), w, schedule, i + m + 4) && Peaceful(schedule, 2, w.outputBytes)
    {
      ghost var fine := Favourable(schedule, HoldOf(w), w.outputBytes, looks, answers, i, m) && Living(w);
      ok := StopController(looks, i, i + m + 6);
      if !ok {
        return;
      }
      ghost var asked, s1 := w, schedule;
      ok := HoldAndObserve(answers, m, if fine then m + 5 else 0);
      LaterIsTransitive(old(w), asked, w);
      if fine {
        PassedTogether(old(w), old(schedule), asked, s1, i + 1, w, schedule, m + 3);
      }
    }
  }

  /** One such run: the first look finds the child, the stop lands at once, and the group dies as soon as it is killed. */
  lemma QuietRunIsFavourable(journal: Journal) returns (schedule: seq<seq<Event>>, answers: Answers)
    ensures Favourable(schedule, HoldOf(Spawned(journal)), 0, [Found], answers, 0, 0) && Living(Spawned(journal))
  {
    var reaping := [KillLands, Exit, Close];
    schedule := [[], [StopLands], [], [], [], [], reaping, [], []];
    answers := Answers(journal, [], true, true, true, true, true, false);
    QuietlyPeaceful(schedule);
    assert schedule[..1] == [[]] && schedule[1..][..0] == [] && schedule[1..][..1] == [[StopLands]];
    HoldAfterOne(Hold(false, journal), true, StopLands);
    ThroughOne(Hold(false, journal), false, []);
    ThroughOne(Hold(false, journal), true, [StopLands]);
    ReapsInOrder();
    assert schedule[6..] == [reaping, [], []];
  }

  lemma ThroughOne(h: Hold, asked: bool, events: seq<Event>)
    ensures HoldThrough(h, asked, [events]) == HoldAfter(h, asked, events)
  {
    assert [events][1..] == [];
  }

  lemma ReapsInOrder()
    ensures PhaseAfter(Signalled, [KillLands, Exit, Close]) == Reaped && BytesOf([KillLands, Exit, Close]) == 0
  {
    assert [KillLands, Exit, Close][1..] == [Exit, Close] && [Exit, Close][1..] == [Close] && [Close][1..] == [];
    assert PhaseAfter(Signalled, [KillLands, Exit, Close]) == PhaseAfter(Died, [Exit, Close]) ==
           PhaseAfter(Exited, [Close]) == PhaseAfter(Reaped, []);
    assert BytesOf([Close]) == 0 && BytesOf([Exit, Close]) == 0;
  }

  lemma QuietlyPeaceful(schedule: seq<seq<Event>>)
    requires |schedule| >= 6 && schedule[..6] == [[], [StopLands], [], [], [], []]
    ensures Peaceful(schedule, 6, 0) && AllBytes(schedule[..6]) == 0
  {
    var six: seq<seq<Event>> := [[], [StopLands], [], [], [], []];
    assert forall k :: 0 <= k < 6 ==> schedule[k] == schedule[..6][k] == six[k];
    assert BytesOf([StopLands]) == 0 by {
      assert [StopLands][1..] == [];
    }
    PeacefulEmpty(schedule[2..], 4);
    TailOfTail(schedule);
    assert Peaceful(schedule[1..], 5, 0);
    assert six[1..][1..] == [[], [], [], []];
    EmptyBytes(six[1..][1..]);
  }

  lemma TailOfTail(schedule: seq<seq<Event>>)
    requires |schedule| >= 2
    ensures schedule[1..][1..] == schedule[2..] && schedule[1..][0] == schedule[1]
  {
  }

  lemma {:induction false} PeacefulEmpty(schedule: seq<seq<Event>>, n: nat)
    requires n <= |schedule| && forall k :: 0 <= k < n ==> schedule[k] == []
    ensures Peaceful(schedule, n, 0)
    decreases n
  {
    if n > 0 {
      assert forall k :: 0 <= k < n - 1 ==> schedule[1..][k] == schedule[k + 1];
      PeacefulEmpty(schedule[1..], n - 1);
    }
  }

  lemma {:induction false} EmptyBytes(schedule: seq<seq<Event>>)
    requires forall k :: 0 <= k < |schedule| ==> schedule[k] == []
    ensures AllBytes(schedule) == 0
    decreases |schedule|
  {
    if schedule != [] {
      EmptyBytes(schedule[1..]);
    }
  }
}
