/** Concurrent builds in one process: one claim, four redirected directories, one private workspace a build. */
module BuildClaim {
  import opened Options

  type CallId = nat

  /** The static fields of the two resource classes. */
  datatype Directories = Directories(nodeTemp: string, nodeBinaries: string, seaBuilds: string, seaBinaries: string)

  function Inside(workspace: string): Directories {
    Directories(
      workspace + "/node-downloads", workspace + "/node-binaries", workspace + "/sea-builds", workspace + "/sea-binaries")
  }

  lemma Under(workspace: string, name: string)
    requires |name| > 0 && name[0] == '/'
    ensures workspace + "/" <= workspace + name && |workspace + name| == |workspace| + |name|
  {
    var path := workspace + name;
    assert path[..|workspace| + 1] == workspace + [path[|workspace|]];
  }

  /** The four directories of a build lie in its own workspace and are four. */
  lemma InsideIsPrivate(workspace: string)
    ensures var d := Inside(workspace);
      var four := {d.nodeTemp, d.nodeBinaries, d.seaBuilds, d.seaBinaries};
      |four| == 4 && forall directory <- four :: workspace + "/" <= directory
  {
    Under(workspace, "/node-downloads");
    Under(workspace, "/node-binaries");
    Under(workspace, "/sea-builds");
    Under(workspace, "/sea-binaries");
    var d := Inside(workspace);
    assert |d.nodeTemp| > |d.nodeBinaries| > |d.seaBinaries| > |d.seaBuilds|;
  }

  datatype Outcome = ClaimRefused | Built | BuildFailed | CleanupIncomplete

  /** Where one call stands; each of the middle states is an await. */
  datatype Call =
    | Making(originals: Directories)
    | Securing(originals: Directories, workspace: string)
    | Building(originals: Directories, workspace: string)
    | Removing(failed: bool, workspace: string)
    | Settled(outcome: Outcome)

  datatype State = State(
    claimed: bool, directories: Directories, calls: map<CallId, Call>, disk: map<string, CallId>, removals: set<string>)

  datatype Event =
    | Call(id: CallId)
    | Made(id: CallId, workspace: Option<string>)
    | Secured(id: CallId, ok: bool)
    | BuildEnded(id: CallId, ok: bool)
    | Removed(id: CallId, ok: bool)

  function Start(directories: Directories): State {
    State(false, directories, map[], map[], {})
  }

  function Move(s: State, id: CallId, call: Call): State {
    s.(calls := s.calls[id := call])
  }

  /** Everything between the end of the work and the next await: restore, release, and go on to the removal. */
  function CleanUp(s: State, id: CallId, originals: Directories, workspace: Option<string>, failed: bool): State {
    var restored := s.(directories := originals, claimed := false);
    match workspace
    case Some(path) => Move(restored, id, Removing(failed, path)).(removals := s.removals + {path})
    case None => Move(restored, id, Settled(BuildFailed))
  }

  /** The originals are read before the claim is tested. */
  function Begin(s: State, id: CallId): State {
    var originals := s.directories;
    if s.claimed then Move(s, id, Settled(ClaimRefused))
    else Move(s, id, Making(originals)).(claimed := true)
  }

  function Finish(s: State, id: CallId, failed: bool, workspace: string, ok: bool): State {
    var settled := Move(s, id, Settled(if !ok then CleanupIncomplete else if failed then BuildFailed else Built));
    if ok then settled.(disk := s.disk - {workspace}) else settled
  }

  predicate Enabled(s: State, event: Event) {
    match event
    case Call(id) => id !in s.calls
    case Made(id, workspace) =>
      id in s.calls && s.calls[id].Making? && (workspace.Some? ==> workspace.value !in s.disk)
    case Secured(id, _) => id in s.calls && s.calls[id].Securing?
    case BuildEnded(id, _) => id in s.calls && s.calls[id].Building?
    case Removed(id, _) => id in s.calls && s.calls[id].Removing?
  }

  function Step(s: State, event: Event): State
    requires Enabled(s, event)
  {
    match event
    case Call(id) => Begin(s, id)
    case Made(id, None) => CleanUp(s, id, s.calls[id].originals, None, true)
    case Made(id, Some(path)) => Move(s, id, Securing(s.calls[id].originals, path)).(disk := s.disk[path := id])
    case Secured(id, ok) =>
      var call := s.calls[id];
      if ok then Move(s, id, Building(call.originals, call.workspace)).(directories := Inside(call.workspace))
      else CleanUp(s, id, call.originals, Some(call.workspace), true)
    case BuildEnded(id, ok) =>
      var call := s.calls[id];
      CleanUp(s, id, call.originals, Some(call.workspace), !ok)
    case Removed(id, ok) => Finish(s, id, s.calls[id].failed, s.calls[id].workspace, ok)
  }

  function Deliver(s: State, event: Event): State {
    if Enabled(s, event) then Step(s, event) else s
  }

  function Run(s: State, events: seq<Event>): State
    decreases |events|
  {
    if events == [] then s else Run(Deliver(s, events[0]), events[1..])
  }

  // ---- the claim ----

  predicate Holding(call: Call) {
    call.Making? || call.Securing? || call.Building?
  }

  /** That call and no other holds the claim. */
  ghost predicate HeldBy(s: State, holder: Option<CallId>) {
    (s.claimed <==> holder.Some?) &&
    (holder.Some? ==> holder.value in s.calls) &&
    forall id <- s.calls :: Holding(s.calls[id]) <==> holder == Some(id)
  }

  /** Whoever holds the claim remembers the originals, and only a building holder has redirected them. */
  ghost predicate Redirected(s: State, originals: Directories, holder: Option<CallId>) {
    (holder.Some? && holder.value in s.calls && Holding(s.calls[holder.value]) ==> s.calls[holder.value].originals == originals) &&
    s.directories ==
      if holder.Some? && holder.value in s.calls && s.calls[holder.value].Building? then Inside(s.calls[holder.value].workspace)
      else originals
  }

  /** Every workspace on disk belongs to a call that has yet to remove it, or whose removal failed. */
  ghost predicate Owned(s: State, path: string)
    requires path in s.disk
  {
    var id := s.disk[path];
    id in s.calls &&
    match s.calls[id]
    case Making(_) => false
    case Securing(_, workspace) => workspace == path
    case Building(_, workspace) => workspace == path
    case Removing(_, workspace) => workspace == path && path in s.removals
    case Settled(outcome) => outcome == CleanupIncomplete && path in s.removals
  }

  /** A call that still has a workspace to remove has it on disk. */
  ghost predicate Has(s: State, id: CallId)
    requires id in s.calls
  {
    match s.calls[id]
    case Securing(_, workspace) => workspace in s.disk && s.disk[workspace] == id
    case Building(_, workspace) => workspace in s.disk && s.disk[workspace] == id
    case Removing(_, workspace) => workspace in s.disk && s.disk[workspace] == id
    case _ => true
  }

  ghost predicate InvFor(s: State, originals: Directories, holder: Option<CallId>) {
    HeldBy(s, holder) && Redirected(s, originals, holder) &&
    (forall path <- s.disk :: Owned(s, path)) && (forall id <- s.calls :: Has(s, id))
  }

  ghost predicate Inv(s: State, originals: Directories) {
    exists holder :: InvFor(s, originals, holder)
  }

  ghost function NextHolder(s: State, event: Event, holder: Option<CallId>): Option<CallId>
    requires Enabled(s, event)
  {
    match event
    case Call(id) => if s.claimed then holder else Some(id)
    case Made(id, workspace) => if workspace.None? then None else holder
    case Secured(id, ok) => if ok then holder else None
    case BuildEnded(_, _) => None
    case Removed(_, _) => holder
  }

  lemma StepKeepsTheClaim(s: State, event: Event, originals: Directories, holder: Option<CallId>)
    requires Enabled(s, event) && HeldBy(s, holder) && Redirected(s, originals, holder)
    ensures HeldBy(Step(s, event), NextHolder(s, event, holder))
    ensures Redirected(Step(s, event), originals, NextHolder(s, event, holder))
  {
  }

  lemma PathStaysOwned(s: State, event: Event, path: string)
    requires Enabled(s, event) && path in Step(s, event).disk
    requires path in s.disk ==> Owned(s, path)
    requires event.id in s.calls ==> Has(s, event.id)
    ensures Owned(Step(s, event), path)
  {
  }

  lemma CallStillHas(s: State, event: Event, id: CallId)
    requires Enabled(s, event) && id in Step(s, event).calls
    requires id in s.calls ==> Has(s, id)
    requires event.id in s.calls ==> Has(s, event.id)
    ensures Has(Step(s, event), id)
  {
  }

  lemma StepKeepsTheDisk(s: State, event: Event)
    requires Enabled(s, event)
    requires (forall path <- s.disk :: Owned(s, path)) && (forall id <- s.calls :: Has(s, id))
    ensures forall path <- Step(s, event).disk :: Owned(Step(s, event), path)
    ensures forall id <- Step(s, event).calls :: Has(Step(s, event), id)
  {
    forall path <- Step(s, event).disk
      ensures Owned(Step(s, event), path)
    {
      PathStaysOwned(s, event, path);
    }
    forall id <- Step(s, event).calls
      ensures Has(Step(s, event), id)
    {
      CallStillHas(s, event, id);
    }
  }

  lemma {:induction false} EveryInterleavingKeepsInv(s: State, events: seq<Event>, originals: Directories)
    requires Inv(s, originals)
    ensures Inv(Run(s, events), originals)
    decreases |events|
  {
    if events != [] {
      var event := events[0];
      if Enabled(s, event) {
        var holder :| InvFor(s, originals, holder);
        StepKeepsTheClaim(s, event, originals, holder);
        StepKeepsTheDisk(s, event);
        assert InvFor(Step(s, event), originals, NextHolder(s, event, holder));
      }
      EveryInterleavingKeepsInv(Deliver(s, event), events[1..], originals);
    }
  }

  lemma StartIsFree(originals: Directories)
    ensures Inv(Start(originals), originals)
  {
    assert InvFor(Start(originals), originals, None);
  }

  /** Two calls never hold the claim at once, and the directories are the originals unless the holder builds. */
  lemma ClaimIsExclusive(originals: Directories, events: seq<Event>, a: CallId, b: CallId)
    ensures var s := Run(Start(originals), events);
            a in s.calls && b in s.calls && Holding(s.calls[a]) && Holding(s.calls[b]) ==> a == b
    ensures var s := Run(Start(originals), events);
            a in s.calls && s.calls[a].Building? ==> s.claimed && s.directories == Inside(s.calls[a].workspace)
    ensures var s := Run(Start(originals), events);
            s.directories != originals ==>
              s.claimed && exists id :: id in s.calls && s.calls[id].Building? && s.directories == Inside(s.calls[id].workspace)
  {
    StartIsFree(originals);
    EveryInterleavingKeepsInv(Start(originals), events, originals);
  }

  ghost predicate AllSettled(s: State) {
    forall id <- s.calls :: s.calls[id].Settled?
  }

  /** Once every call has settled, nothing is left of the builds but what could not be removed. */
  lemma NothingIsLeft(originals: Directories, events: seq<Event>)
    requires AllSettled(Run(Start(originals), events))
    ensures var s := Run(Start(originals), events);
            !s.claimed && s.directories == originals &&
            forall path <- s.disk ::
              path in s.removals && s.disk[path] in s.calls && s.calls[s.disk[path]] == Settled(CleanupIncomplete)
  {
    StartIsFree(originals);
    EveryInterleavingKeepsInv(Start(originals), events, originals);
    var s := Run(Start(originals), events);
    var holder :| InvFor(s, originals, holder);
    forall path <- s.disk
      ensures path in s.removals && s.disk[path] in s.calls && s.calls[s.disk[path]] == Settled(CleanupIncomplete)
    {
      assert Owned(s, path);
      assert s.calls[s.disk[path]].Settled?;
    }
  }

  /** What other calls do changes neither this call nor, while it holds the claim, the claim and the directories. */
  lemma OthersKeepOut(s: State, event: Event, originals: Directories, me: CallId)
    requires Inv(s, originals) && me in s.calls && event.id != me
    ensures var t := Deliver(s, event);
            me in t.calls && t.calls[me] == s.calls[me] &&
            (Holding(s.calls[me]) ==> t.claimed && t.directories == s.directories)
  {
  }

  /** What one call's own awaits come to. */
  datatype Answers = Answers(workspace: Option<string>, secured: bool, built: bool, removed: bool)

  class BuildProcess {
    const originals: Directories
    var s: State
    /** What the other calls do at each of the next awaits. */
    var others: seq<seq<Event>>

    constructor (originals: Directories, s: State, others: seq<seq<Event>>)
      requires Inv(s, originals)
      ensures this.originals == originals && this.s == s && this.others == others && Inv(this.s, originals)
    {
      this.originals, this.s, this.others := originals, s, others;
    }

    /** Let the other calls run until this one's await is answered. */
    method Await(me: CallId)
      requires Inv(s, originals) && me in s.calls
      modifies this
      ensures Inv(s, originals) && me in s.calls && s.calls[me] == old(s.calls[me])
      ensures Holding(s.calls[me]) ==> s.claimed && s.directories == old(s.directories)
    {
      if |others| == 0 {
        return;
      }
      var events := others[0];
      others := others[1..];
      for n := 0 to |events|
        invariant Inv(s, originals) && me in s.calls && s.calls[me] == old(s.calls[me])
        invariant Holding(s.calls[me]) ==> s.claimed && s.directories == old(s.directories)
      {
        if events[n].id != me {
          OthersKeepOut(s, events[n], originals, me);
          EveryInterleavingKeepsInv(s, [events[n]], originals);
          assert Run(s, [events[n]]) == Deliver(s, events[n]);
          s := Deliver(s, events[n]);
        }
      }
    }

    /** This call's own next step. */
    method Take(me: CallId, event: Event)
      requires Inv(s, originals) && me in s.calls && event.id == me && Enabled(s, event)
      modifies `s
      ensures Inv(s, originals) && me in s.calls && s.calls[me] == CallAfter(old(s.calls[me]), event)
      ensures s.calls[me].Building? ==> s.directories == Inside(s.calls[me].workspace)
      ensures !Holding(s.calls[me]) && Holding(old(s.calls[me])) ==> !s.claimed && s.directories == originals
    {
      EveryInterleavingKeepsInv(s, [event], originals);
      assert Run(s, [event]) == Deliver(s, event);
      HolderKnowsTheOriginals(s, originals, me);
      s := Step(s, event);
    }

    /** Read the originals, and claim the build unless it is claimed. */
    method Enter(me: CallId)
      requires Inv(s, originals) && me !in s.calls
      modifies `s
      ensures Inv(s, originals) && me in s.calls
      ensures if old(s.claimed) then s.calls[me] == Settled(ClaimRefused) else s.calls[me].Making?
    {
      EveryInterleavingKeepsInv(s, [Call(me)], originals);
      assert Run(s, [Call(me)]) == Deliver(s, Call(me));
      s := Begin(s, me);
    }

    /**
     * One build call, with the other calls running at each of its awaits. It builds
     * in its own directories, leaves the originals behind, and returns a result
     * exactly when the claim was free and every one of its own steps went well.
     * `made` is the workspace that it was given: a name in use is never given out.
     */
    method Build(me: CallId, answers: Answers) returns (outcome: Outcome, made: Option<string>)
      requires Inv(s, originals) && me !in s.calls
      modifies this
      ensures Inv(s, originals) && me in s.calls && s.calls[me] == Settled(outcome)
      ensures made.Some? ==> made == answers.workspace
      ensures outcome ==
                if old(s.claimed) then ClaimRefused
                else if made.None? then BuildFailed
                else if !answers.removed then CleanupIncomplete
                else if answers.secured && answers.built then Built else BuildFailed
    {
      Enter(me);
      made := None;
      if s.calls[me].Settled? {
        return ClaimRefused, None;
      }
      Await(me);
      if answers.workspace.Some? && answers.workspace.value !in s.disk {
        made := answers.workspace;
      }
      Take(me, Made(me, made));
      if made.None? {
        return BuildFailed, None;
      }
      Await(me);
      Take(me, Secured(me, answers.secured));
      if answers.secured {
        Await(me);
        assert s.directories == Inside(made.value);
        Take(me, BuildEnded(me, answers.built));
      }
      Await(me);
      Take(me, Removed(me, answers.removed));
      outcome := s.calls[me].outcome;
    }
  }

  /** What a step makes of the call that takes it. */
  function CallAfter(call: Call, event: Event): Call {
    match (call, event)
    case (Making(originals), Made(_, Some(path))) => Securing(originals, path)
    case (Making(_), Made(_, None)) => Settled(BuildFailed)
    case (Securing(originals, path), Secured(_, true)) => Building(originals, path)
    case (Securing(_, path), Secured(_, false)) => Removing(true, path)
    case (Building(_, path), BuildEnded(_, ok)) => Removing(!ok, path)
    case (Removing(failed, _), Removed(_, ok)) => Settled(if !ok then CleanupIncomplete else if failed then BuildFailed else Built)
    case _ => call
  }

  lemma HolderKnowsTheOriginals(s: State, originals: Directories, me: CallId)
    requires Inv(s, originals) && me in s.calls
    ensures Holding(s.calls[me]) ==> s.claimed && s.calls[me].originals == originals
  {
  }
}
