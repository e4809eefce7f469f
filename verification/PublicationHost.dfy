/**
 * One publisher's own program, running while the other publishers of the
 * directory take any steps they like at every point where it waits.
 */
module PublicationHost {
  import opened Options
  import opened Publication
  import opened PublicationSafety
  import opened PublicationReader

  datatype Read =
    | Content(bytes: Bytes)
    | Missing
    | BadSize                  // the expected size is not positive
    | SizeConflict
    | ChangedBeforeRead
    | ChangedDuringRead
    | Unstable                 // neither of the two attempts was stable

  datatype Outcome = Published | Refused(reason: Reason) | Invalid

  /** Every publisher that ever used this file name supplied this very pair. */
  ghost predicate Agreeing(s: State, input: Input) {
    forall p <- s.pubs :: s.pubs[p].input.file == input.file ==> s.pubs[p].input == input
  }

  /** A name that holds other bytes was linked by a publisher that disagrees. */
  lemma ConflictMeansDisagreement(s: State, t: State, input: Input, kind: Kind)
    requires Inv(s) && Grows(s, t)
    requires input.Final(kind) in s.entries && !Holds(s, input.Final(kind), input.Supplied(kind))
    ensures !Agreeing(t, input)
  {
    var n := input.Final(kind);
    assert EntryOk(s, n) && FileOk(s, s.entries[n]);
    var q := s.entries[n].owner;
    assert t.pubs[q].input == s.pubs[q].input;
  }

  class OutputDirectory {
    var s: State
    /** What the others do at each of the next points where this publisher waits. */
    var others: seq<seq<Event>>

    constructor (s: State, others: seq<seq<Event>>)
      ensures this.s == s && this.others == others
    {
      this.s, this.others := s, others;
    }

    method Await(me: Pid)
      requires Inv(s)
      modifies this
      ensures Inv(s) && Rely(me, old(s), s)
      ensures old(others) == [] ==> s == old(s) && others == []
    {
      if others == [] {
        return;
      }
      var batch := others[0];
      others := others[1..];
      for k := 0 to |batch|
        invariant Inv(s) && Rely(me, old(s), s)
      {
        var e := batch[k];
        if Foreign(me, e) && Enabled(s, e) {
          ghost var before := s;
          ForeignStepIsRelied(me, s, e);
          StepKeepsInv(s, e);
          s := Step(s, e);
          RelyIsTransitive(me, old(s), before, s);
        }
      }
    }

    method Take(e: Event)
      requires Inv(s) && Enabled(s, e) && !e.PowerLoss?
      modifies this`s
      ensures s == Step(old(s), e) && Inv(s) && Grows(old(s), s)
    {
      StepKeepsInv(s, e);
      StepGrows(s, e);
      s := Step(s, e);
    }

    /** Wait, and then look once more at a file that the path already led to. */
    method Observe(me: Pid, path: Path, file: Ino) returns (stats: Stats)
      requires Inv(s) && Resolve(s, me, path) == Some(file)
      modifies this
      ensures Inv(s) && Rely(me, old(s), s)
      ensures old(others) == [] ==> s == old(s) && others == []
      ensures Resolve(s, me, path) == Some(file) && stats == StatOf(s, file)
      ensures s.inodes[file].bytes == old(s.inodes[file].bytes)
      ensures s.inodes[file].staged ==> old(s.inodes[file].staged)
      ensures ClassifyReadSnapshot(old(StatOf(s, file)), stats) ==
              if old(s.inodes[file].staged) == s.inodes[file].staged then Stable else Retry
    {
      Await(me);
      ObservationsAgree(old(s), s, me, path, file);
      stats := StatOf(s, file);
    }

    /** The observations of one attempt after its first look; no answer asks for another attempt. */
    method ReadOnce(me: Pid, path: Path, file: Ino, before: Stats, expectedSize: nat) returns (r: Option<Read>)
      requires Inv(s) && Resolve(s, me, path) == Some(file) && before == StatOf(s, file)
      modifies this
      ensures Inv(s) && Rely(me, old(s), s)
      ensures old(others) == [] ==> s == old(s) && others == []
      ensures Resolve(s, me, path) == Some(file) && s.inodes[file].bytes == old(s.inodes[file].bytes)
      ensures r.None? ==> old(s.inodes[file].staged) && !s.inodes[file].staged
      ensures r.Some? ==>
                var bytes := s.inodes[file].bytes;
                r.value == if |bytes| == expectedSize then Content(bytes) else SizeConflict
    {
      var atOpen := Observe(me, path, file);
      var openTransition := ClassifyReadSnapshot(before, atOpen);
      if openTransition == Changed {
        return Some(ChangedBeforeRead);
      }
      if openTransition == Retry {
        return None;
      }
      if atOpen.size != expectedSize {
        return Some(SizeConflict);
      }
      ghost var s1 := s;
      var _ := Observe(me, path, file);
      RelyIsTransitive(me, old(s), s1, s);
      var bytes := s.inodes[file].bytes;
      ghost var s2 := s;
      var after := Observe(me, path, file);
      RelyIsTransitive(me, s1, s2, s);
      ObservationsAgree(s1, s, me, path, file);
      RelyIsTransitive(me, old(s), s1, s);
      ghost var s3 := s;
      var afterPath := Observe(me, path, file);
      RelyIsTransitive(me, old(s), s3, s);
      var readTransition := ClassifyReadSnapshot(atOpen, after);
      var pathTransition := ClassifyReadSnapshot(after, afterPath);
      if readTransition == Changed || pathTransition == Changed || |bytes| != atOpen.size {
        return Some(ChangedDuringRead);
      }
      if readTransition == Retry || pathTransition == Retry {
        return None;
      }
      return Some(Content(bytes));
    }

    /** Read one regular file, discarding a read during which its staged link was removed. */
    method ReadRegularFile(me: Pid, path: Path, expectedSize: nat) returns (r: Read)
      requires Inv(s)
      modifies this
      ensures Inv(s) && Rely(me, old(s), s)
      ensures old(others) == [] ==> s == old(s) && others == []
      ensures r.BadSize? <==> expectedSize < 1
      ensures !r.ChangedBeforeRead? && !r.ChangedDuringRead? && !r.Unstable?
      ensures r.Missing? ==> Resolve(old(s), me, path).None?
      ensures r.Content? || r.SizeConflict? ==>
                Resolve(s, me, path).Some? &&
                var bytes := s.inodes[Resolve(s, me, path).value].bytes;
                r == if |bytes| == expectedSize then Content(bytes) else SizeConflict
    {
      if expectedSize < 1 {
        return BadSize;
      }
      for attempt := 0 to 2
        invariant Inv(s) && Rely(me, old(s), s)
        invariant old(others) == [] ==> s == old(s) && others == []
        invariant attempt < 2  // a second retry would need a second staged link
        invariant attempt > 0 ==> Resolve(s, me, path).Some? && !s.inodes[Resolve(s, me, path).value].staged
      {
        ghost var s0 := s;
        Await(me);
        RelyIsTransitive(me, old(s), s0, s);
        if Resolve(s0, me, path).Some? {
          ObservationsAgree(s0, s, me, path, Resolve(s0, me, path).value);
        }
        if Resolve(s, me, path).None? {
          return Missing;
        }
        var file := Resolve(s, me, path).value;
        ghost var s1 := s;
        var once := ReadOnce(me, path, file, StatOf(s, file), expectedSize);
        RelyIsTransitive(me, old(s), s1, s);
        if once.Some? {
          return once.value;
        }
      }
      r := Unstable;
      assert false;
    }
  
    /** Whether the path, which exists, holds exactly `expected`. */
    method Matches(me: Pid, path: Path, expected: Bytes) returns (same: bool)
      requires Inv(s) && |expected| >= 1 && Resolve(s, me, path).Some?
      modifies this
      ensures Inv(s) && Rely(me, old(s), s)
      ensures old(others) == [] ==> s == old(s) && others == []
      ensures Resolve(s, me, path).Some?
      ensures same <==> s.inodes[Resolve(s, me, path).value].bytes == expected
    {
      var read := ReadRegularFile(me, path, |expected|);
      same := read == Content(expected);
    }

    /** Require the exact staged or final pair; both names exist. */
    method MatchesPair(me: Pid, artifact: Path, sidecar: Path, input: Input) returns (same: bool)
      requires Inv(s) && |input.artifact| >= 1 && |input.record| >= 1
      requires Resolve(s, me, artifact).Some? && Resolve(s, me, sidecar).Some?
      modifies this
      ensures Inv(s) && Rely(me, old(s), s)
      ensures old(others) == [] ==> s == old(s) && others == []
      ensures Resolve(s, me, artifact).Some? && Resolve(s, me, sidecar).Some?
      ensures same <==>
              s.inodes[Resolve(s, me, artifact).value].bytes == input.artifact &&
              s.inodes[Resolve(s, me, sidecar).value].bytes == input.record
    {
      var first := Matches(me, artifact, input.artifact);
      ghost var s1 := s;
      var second := Matches(me, sidecar, input.record);
      RelyIsTransitive(me, old(s), s1, s);
      ObservationsAgree(s1, s, me, artifact, Resolve(s1, me, artifact).value);
      same := first && second;
    }

    /** Link create-if-absent; the winner of a lost race is accepted only with equal bytes. */
    method LinkOrReuse(me: Pid, kind: Kind, ctime: nat) returns (accepted: bool)
      requires Inv(s) && me in s.pubs && |s.pubs[me].input.Supplied(kind)| >= 1
      requires s.pubs[me].pc == (if kind == Artifact then LinkingArtifact else LinkingSidecar)
      modifies this
      ensures Inv(s) && Grows(old(s), s)
      ensures old(others) == [] ==> others == [] && s == Step(old(s), LinkFinal(me, ctime))
      ensures s.pubs[me].pc == (if accepted then AfterLink(kind) else Failed(Conflict(kind)))
      ensures KeepsStaging(s, me)
      ensures var input := s.pubs[me].input;
        input.Final(kind) in s.entries && (accepted <==> Holds(s, input.Final(kind), input.Supplied(kind)))
    {
      var input := s.pubs[me].input;
      var final := input.Final(kind);
      Await(me);
      accepted := true;
      if final in s.entries {
        assert EntryOk(s, final);
        accepted := Matches(me, Final(final), input.Supplied(kind));
      }
      LinkOutcome(s, me, kind, ctime);
      Take(LinkFinal(me, ctime));
    }

    method ForceDirectory(me: Pid)
      requires Inv(s) && me in s.pubs && (s.pubs[me].pc == SyncingArtifact || s.pubs[me].pc == SyncingSidecar)
      modifies this
      ensures Inv(s) && Grows(old(s), s)
      ensures old(others) == [] ==> others == [] && s == Step(old(s), SyncDirectory(me))
      ensures me in s.pubs && s.pubs[me].pc == if old(s.pubs[me].pc).SyncingArtifact? then LinkingSidecar else Validating
    {
      Await(me);
      Take(SyncDirectory(me));
    }

    /** Remove the staging directory, whatever the transaction came to. */
    method RemoveStaging(me: Pid, ctime: nat)
      requires Inv(s) && me in s.pubs && (s.pubs[me].pc.Committed? || s.pubs[me].pc.Failed?)
      requires KeepsStaging(s, me)
      modifies this
      ensures Inv(s) && Grows(old(s), s)
      ensures me in s.pubs && s.pubs[me] == old(s.pubs[me])
      ensures forall k: Kind :: Ino(me, k) in s.inodes && !s.inodes[Ino(me, k)].staged
      ensures me in s.committed <==> me in old(s).committed
    {
      RemoveStaged(me, Artifact, ctime);
      RemoveStaged(me, Sidecar, ctime);
      forall k: Kind
        ensures Ino(me, k) in s.inodes && !s.inodes[Ino(me, k)].staged
      {
        assert k == Artifact || k == Sidecar;
      }
    }

    method RemoveStaged(me: Pid, kind: Kind, ctime: nat)
      requires Inv(s) && me in s.pubs && (s.pubs[me].pc.Committed? || s.pubs[me].pc.Failed?)
      requires Ino(me, kind) in s.inodes && s.inodes[Ino(me, kind)].staged
      modifies this
      ensures Inv(s) && Grows(old(s), s)
      ensures me in s.pubs && s.pubs[me] == old(s.pubs[me])
      ensures Ino(me, kind) in s.inodes && !s.inodes[Ino(me, kind)].staged
      ensures forall k: Kind {:trigger Ino(me, k)} :: k != kind && Ino(me, k) in old(s.inodes) ==>
                Ino(me, k) in s.inodes && s.inodes[Ino(me, k)].staged == old(s.inodes[Ino(me, k)].staged)
      ensures me in s.committed <==> me in old(s).committed
    {
      Await(me);
      Take(Unstage(me, kind, ctime));
    }

    method WriteStaged(me: Pid, kind: Kind, meta: Meta, ctime: nat)
      requires Inv(s) && me in s.pubs && s.pubs[me].pc.Staging? && Ino(me, kind) !in s.inodes
      modifies this
      ensures Inv(s) && Grows(old(s), s) && WrittenSince(me, kind, old(s), s)
      ensures Ino(me, kind) in s.inodes && s.inodes[Ino(me, kind)].staged
      ensures old(others) == [] ==> others == []
    {
      Await(me);
      Take(Write(me, kind, meta, ctime));
    }

    method SyncStaged(me: Pid, kind: Kind)
      requires Inv(s) && me in s.pubs && s.pubs[me].pc.Staging? && Ino(me, kind) in s.inodes
      modifies this
      ensures Inv(s) && Grows(old(s), s) && WrittenSince(me, kind, old(s), s)
      ensures Ino(me, kind) in s.inodes && s.inodes[Ino(me, kind)].synced
      ensures s.inodes[Ino(me, kind)].staged == old(s.inodes[Ino(me, kind)].staged)
      ensures old(others) == [] ==> others == []
    {
      Await(me);
      Take(SyncFile(me, kind));
    }

    /** Read the private pair back before anything is linked. */
    method CheckStagedPair(me: Pid)
      requires Inv(s) && me in s.pubs && s.pubs[me].pc.Staging?
      requires |s.pubs[me].input.artifact| >= 1 && |s.pubs[me].input.record| >= 1
      requires forall k: Kind {:trigger Ino(me, k)} :: Ino(me, k) in s.inodes && s.inodes[Ino(me, k)].synced && s.inodes[Ino(me, k)].staged
      modifies this
      ensures Inv(s) && Grows(old(s), s)
      ensures old(others) == [] ==> others == []
      ensures me in s.pubs && s.pubs[me] == Publisher(old(s.pubs[me].input), Looking([]))
    {
      var same := MatchesPair(me, Staged(Artifact), Staged(Sidecar), s.pubs[me].input);
      CheckStagedPasses(s, me);
      assert same by {
        assert FileOk(s, Ino(me, Artifact)) && FileOk(s, Ino(me, Sidecar));
      }
      Take(CheckStaged(me));
    }

    method WritePair(me: Pid, input: Input, meta: Meta, ctime: nat)
      requires Inv(s) && me !in s.pubs
      modifies this
      ensures Inv(s) && Grows(old(s), s)
      ensures old(others) == [] ==> others == []
      ensures me in s.pubs && s.pubs[me] == Publisher(input, Staging)
      ensures forall k: Kind {:trigger Ino(me, k)} :: Ino(me, k) in s.inodes && s.inodes[Ino(me, k)].staged
    {
      assert FileOk(s, Ino(me, Artifact)) && FileOk(s, Ino(me, Sidecar));
      Take(Start(me, input));
      ghost var s0 := s;
      WriteStaged(me, Artifact, meta, ctime);
      ghost var s1 := s;
      GrowsIsTransitive(old(s), s0, s1);
      WriteStaged(me, Sidecar, meta, ctime);
      GrowsIsTransitive(old(s), s1, s);
      forall k: Kind
        ensures Ino(me, k) in s.inodes && s.inodes[Ino(me, k)].staged
      {
        assert k == Artifact || k == Sidecar;
      }
    }

    method SyncPair(me: Pid)
      requires Inv(s) && me in s.pubs && s.pubs[me].pc.Staging?
      requires forall k: Kind {:trigger Ino(me, k)} :: Ino(me, k) in s.inodes && s.inodes[Ino(me, k)].staged
      modifies this
      ensures Inv(s) && Grows(old(s), s)
      ensures old(others) == [] ==> others == []
      ensures me in s.pubs && s.pubs[me] == old(s.pubs[me])
      ensures forall k: Kind {:trigger Ino(me, k)} ::
                Ino(me, k) in s.inodes && s.inodes[Ino(me, k)].synced && s.inodes[Ino(me, k)].staged
    {
      SyncStaged(me, Artifact);
      ghost var s1 := s;
      SyncStaged(me, Sidecar);
      GrowsIsTransitive(old(s), s1, s);
      forall k: Kind
        ensures Ino(me, k) in s.inodes && s.inodes[Ino(me, k)].synced && s.inodes[Ino(me, k)].staged
      {
        assert k == Artifact || k == Sidecar;
      }
    }

    /** Write both files privately, force them to disk, and check them. */
    method Stage(me: Pid, input: Input, meta: Meta, ctime: nat)
      requires Inv(s) && me !in s.pubs && |input.artifact| >= 1 && |input.record| >= 1
      modifies this
      ensures Inv(s) && Grows(old(s), s)
      ensures old(others) == [] ==> others == []
      ensures me in s.pubs && s.pubs[me] == Publisher(input, Looking([]))
      ensures forall k: Kind {:trigger Ino(me, k)} :: Secured(s, Ino(me, k), input.Supplied(k))
    {
      WritePair(me, input, meta, ctime);
      ghost var s1 := s;
      SyncPair(me);
      ghost var s2 := s;
      GrowsIsTransitive(old(s), s1, s2);
      CheckStagedPair(me);
      GrowsIsTransitive(old(s), s2, s);
      assert StageInv(s, me);
      forall k: Kind
        ensures Secured(s, Ino(me, k), input.Supplied(k))
      {
        assert k == Artifact || k == Sidecar;
        assert FileOk(s, Ino(me, k));
      }
    }

    method LookOnce(me: Pid, kind: Kind) returns (seen: bool)
      requires Inv(s) && me in s.pubs && s.pubs[me].pc.Looking? && Saw(s.pubs[me].pc.looks, kind).None?
      modifies this
      ensures Inv(s) && Grows(old(s), s)
      ensures old(others) == [] ==> others == [] && s.entries == old(s.entries)
      ensures me in s.pubs && s.pubs[me] == Publisher(old(s.pubs[me].input), Looking(old(s.pubs[me].pc.looks) + [Look(kind, seen)]))
      ensures seen <==> s.pubs[me].input.Final(kind) in s.entries
    {
      Await(me);
      seen := s.pubs[me].input.Final(kind) in s.entries;
      Take(LookAt(me, kind));
    }

    /** The two concurrent looks at the final names, answered in either order. */
    method LookAtFinals(me: Pid, sidecarFirst: bool) returns (artifact: bool, sidecar: bool)
      requires Inv(s) && me in s.pubs && s.pubs[me].pc == Looking([])
      modifies this
      ensures Inv(s) && Grows(old(s), s)
      ensures old(others) == [] ==> others == []
      ensures me in s.pubs && s.pubs[me].input == old(s.pubs[me].input)
      ensures s.pubs[me].pc.Looking? && |s.pubs[me].pc.looks| == 2
      ensures Saw(s.pubs[me].pc.looks, Artifact) == Some(artifact) && Saw(s.pubs[me].pc.looks, Sidecar) == Some(sidecar)
      ensures artifact ==> s.pubs[me].input.Final(Artifact) in s.entries
      ensures sidecar ==> s.pubs[me].input.Final(Sidecar) in s.entries
      ensures sidecar && !artifact ==> !sidecarFirst && old(others) != []
    {
      var first, second := if sidecarFirst then Sidecar else Artifact, if sidecarFirst then Artifact else Sidecar;
      var firstSeen := LookOnce(me, first);
      SawTwo(Look(first, firstSeen), second, false);
      ghost var between := s;
      assert MarkerOk(s, s.pubs[me].input.Final(Sidecar)) && EntryOk(s, s.pubs[me].input.Final(Sidecar));
      var secondSeen := LookOnce(me, second);
      SawTwo(Look(first, firstSeen), second, secondSeen);
      GrowsIsTransitive(old(s), between, s);
      artifact, sidecar := if sidecarFirst then secondSeen else firstSeen, if sidecarFirst then firstSeen else secondSeen;
    }

    /** Read what the looks found; the answer is the decision the protocol takes next. */
    method ReadFinals(me: Pid, artifact: bool, sidecar: bool) returns (acceptable: bool)
      requires Inv(s) && me in s.pubs && s.pubs[me].pc.Looking?
      requires |s.pubs[me].input.artifact| >= 1 && |s.pubs[me].input.record| >= 1
      requires Saw(s.pubs[me].pc.looks, Artifact) == Some(artifact) && Saw(s.pubs[me].pc.looks, Sidecar) == Some(sidecar)
      requires artifact ==> s.pubs[me].input.Final(Artifact) in s.entries
      requires sidecar ==> s.pubs[me].input.Final(Sidecar) in s.entries
      modifies this
      ensures Inv(s) && Rely(me, old(s), s)
      ensures old(others) == [] ==> others == []
      ensures acceptable <==> Decision(s, s.pubs[me].input, s.pubs[me].pc.looks) == LinkingArtifact
    {
      var input := s.pubs[me].input;
      assert EntryOk(s, input.Final(Artifact)) && EntryOk(s, input.Final(Sidecar));
      acceptable := !sidecar || artifact;
      if acceptable && artifact {
        acceptable := Matches(me, Final(input.Final(Artifact)), input.artifact);
      }
      ghost var s1 := s;
      if acceptable && sidecar {
        assert EntryOk(s, input.Final(Sidecar));
        acceptable := MatchesPair(me, Final(input.Final(Artifact)), Final(input.Final(Sidecar)), input);
        RelyIsTransitive(me, old(s), s1, s);
      }
    }

    /** Decide after both looks. */
    method Conclude(me: Pid)
      requires Inv(s) && me in s.pubs && s.pubs[me].pc.Looking?
      requires Saw(s.pubs[me].pc.looks, Artifact).Some? && Saw(s.pubs[me].pc.looks, Sidecar).Some?
      modifies this`s
      ensures Inv(s) && Grows(old(s), s) && Inspected(s, me) && KeepsStaging(s, me)
      ensures me in s.pubs && s.pubs[me].input == old(s).pubs[me].input
      ensures s.pubs[me].pc == Decision(old(s), s.pubs[me].input, old(s).pubs[me].pc.looks)
    {
      forall k: Kind
        ensures Saw(s.pubs[me].pc.looks, k).Some?
      {
        assert k == Artifact || k == Sidecar;
      }
      DecisionIsVisible(s, me);
      assert StageInv(s, me);
      Take(Decide(me));
    }

    /** Refuse, or go on, on what stands under the final names already. */
    method InspectFinals(me: Pid, sidecarFirst: bool) returns (acceptable: bool)
      requires Inv(s) && me in s.pubs && s.pubs[me].pc == Looking([])
      requires |s.pubs[me].input.artifact| >= 1 && |s.pubs[me].input.record| >= 1
      modifies this
      ensures Inv(s) && Grows(old(s), s)
      ensures old(others) == [] ==> others == []
      ensures me in s.pubs && s.pubs[me].input == old(s.pubs[me].input)
      ensures acceptable <==> s.pubs[me].pc == LinkingArtifact
      ensures Inspected(s, me) && KeepsStaging(s, me)
      ensures s.pubs[me].pc == Failed(OrphanSidecar) ==> !sidecarFirst && old(others) != []
    {
      var artifact, sidecar := LookAtFinals(me, sidecarFirst);
      ghost var s1 := s;
      acceptable := ReadFinals(me, artifact, sidecar);
      ghost var s2 := s;
      GrowsIsTransitive(old(s), s1, s2);
      Conclude(me);
      GrowsIsTransitive(old(s), s2, s);
    }

    /** Link one name and force it to disk. */
    method LinkAndForce(me: Pid, kind: Kind, ctime: nat) returns (accepted: bool)
      requires Inv(s) && me in s.pubs && |s.pubs[me].input.Supplied(kind)| >= 1
      requires s.pubs[me].pc == (if kind == Artifact then LinkingArtifact else LinkingSidecar)
      modifies this
      ensures Inv(s) && Grows(old(s), s)
      ensures me in s.pubs && s.pubs[me].input == old(s.pubs[me].input)
      ensures accepted ==> s.pubs[me].pc == (if kind == Artifact then LinkingSidecar else Validating)
      ensures KeepsStaging(s, me)
      ensures !accepted ==> s.pubs[me].pc == Failed(Conflict(kind)) && Disputed(s, s.pubs[me].input, kind)
    {
      accepted := LinkOrReuse(me, kind, ctime);
      if accepted {
        ghost var s1 := s;
        ForceDirectory(me);
        GrowsIsTransitive(old(s), s1, s);
        assert StageInv(s, me);
      }
    }

    /** Everything between the staged pair and the validated final one. */
    method LinkPair(me: Pid, ctime: nat) returns (committed: bool)
      requires Inv(s) && me in s.pubs && s.pubs[me].pc == LinkingArtifact
      requires |s.pubs[me].input.artifact| >= 1 && |s.pubs[me].input.record| >= 1
      modifies this
      ensures Inv(s) && Grows(old(s), s)
      ensures me in s.pubs && s.pubs[me].input == old(s.pubs[me].input)
      ensures KeepsStaging(s, me)
      ensures committed ==> s.pubs[me].pc == Committed && me in s.committed
      ensures committed ==>
                forall k: Kind :: s.pubs[me].input.Final(k) in s.durable && Holds(s, s.pubs[me].input.Final(k), s.pubs[me].input.Supplied(k))
      ensures !committed ==>
                exists kind :: s.pubs[me].pc == Failed(Conflict(kind)) && Disputed(s, s.pubs[me].input, kind)
    {
      committed := LinkAndForce(me, Artifact, ctime);
      if !committed {
        return;
      }
      ghost var s1 := s;
      committed := LinkAndForce(me, Sidecar, ctime);
      GrowsIsTransitive(old(s), s1, s);
      if !committed {
        return;
      }
      ghost var s2 := s;
      var input := s.pubs[me].input;
      assert StageInv(s, me);
      committed := MatchesPair(me, Final(input.Final(Artifact)), Final(input.Final(Sidecar)), input);
      assert StageInv(s, me);
      assert committed;
      ghost var s3 := s;
      GrowsIsTransitive(old(s), s2, s3);
      ValidateKeepsInv(s, me);
      Take(ValidatePair(me));
      GrowsIsTransitive(old(s), s3, s);
      assert StageInv(s, me) && CommitOk(s, me);
    }

    /**
     * Publish one pair.  When it succeeds the pair stands under its final names
     * and on disk; when every publisher of the name supplies the same pair, the
     * only thing that can stop it is the other publishers' links falling between
     * its two looks, artifact first.
     */
    method Publish(me: Pid, input: Input, meta: Meta, ctime: nat, sidecarFirst: bool) returns (r: Outcome)
      requires Inv(s) && me !in s.pubs
      modifies this
      ensures Inv(s) && Grows(old(s), s)
      ensures r.Invalid? <==> |input.artifact| < 1 || |input.record| < 1
      ensures r.Invalid? ==> s == old(s)
      ensures !r.Invalid? ==> Settled(s, me, input)
      ensures r.Published? ==> me in s.committed
      ensures r.Published? ==>
                forall k: Kind :: input.Final(k) in s.durable && Holds(s, input.Final(k), input.Supplied(k))
      ensures !r.Invalid? && Agreeing(s, input) ==>
                r.Published? || (r == Refused(OrphanSidecar) && !sidecarFirst && old(others) != [])
      ensures r.Refused? ==> Justified(s, input, r.reason) && (r.reason == OrphanSidecar ==> !sidecarFirst && old(others) != [])
    {
      if |input.artifact| < 1 || |input.record| < 1 {
        return Invalid;
      }
      Stage(me, input, meta, ctime);
      ghost var s1 := s;
      var acceptable := InspectFinals(me, sidecarFirst);
      ghost var s2 := s;
      GrowsIsTransitive(old(s), s1, s2);
      if acceptable {
        acceptable := LinkPair(me, ctime);
      }
      ghost var s3 := s;
      GrowsIsTransitive(old(s), s2, s3);
      r := if acceptable then Published else Refused(s.pubs[me].pc.reason);
      RemoveStaging(me, ctime);
      GrowsIsTransitive(old(s), s3, s);
      if acceptable {
        assert StageInv(s, me) && CommitOk(s, me);
      } else if r != Refused(OrphanSidecar) {
        ghost var kind :| s3.pubs[me].pc == Failed(Conflict(kind)) && Disputed(s3, input, kind);
        ConflictMeansDisagreement(s3, s, input, kind);
        DisputeStays(s3, s, input, kind);
      }
    }
  }

  /** A refusal names the stale look, or the kind of a final name that does hold other bytes. */
  ghost predicate Justified(s: State, input: Input, reason: Reason) {
    reason == OrphanSidecar || exists kind :: reason == Conflict(kind) && Disputed(s, input, kind)
  }

  lemma DisputeStays(s: State, t: State, input: Input, kind: Kind)
    requires Inv(s) && Grows(s, t) && Disputed(s, input, kind)
    ensures Disputed(t, input, kind)
  {
    assert EntryOk(s, input.Final(kind));
  }

  /** Where a link leads: on, if the name was free or holds the same bytes, and else to a conflict. */
  lemma LinkOutcome(s: State, me: Pid, kind: Kind, ctime: nat)
    requires Inv(s) && me in s.pubs
    requires s.pubs[me].pc == (if kind == Artifact then LinkingArtifact else LinkingSidecar)
    ensures Enabled(s, LinkFinal(me, ctime))
    ensures var t, input := Step(s, LinkFinal(me, ctime)), s.pubs[me].input;
      KeepsStaging(t, me) && input.Final(kind) in t.entries &&
      (Disputed(t, input, kind) <==> Disputed(s, input, kind)) &&
      t.pubs[me] == Publisher(input, if Disputed(s, input, kind) then Failed(Conflict(kind)) else AfterLink(kind))
  {
    assert StageInv(s, me) && FileOk(s, Ino(me, kind));
  }

  /** A publisher whose transaction and cleanup are over. */
  ghost predicate Settled(s: State, me: Pid, input: Input) {
    me in s.pubs && s.pubs[me].input == input && (s.pubs[me].pc.Committed? || s.pubs[me].pc.Failed?) &&
    forall k: Kind :: Ino(me, k) in s.inodes && !s.inodes[Ino(me, k)].staged
  }

  /** The file is private, on disk, and holds these bytes. */
  ghost predicate Secured(s: State, i: Ino, bytes: Bytes) {
    i in s.inodes && s.inodes[i].staged && s.inodes[i].synced && s.inodes[i].bytes == bytes
  }

  /** Both of the publisher's own files still have their staged names. */
  ghost predicate KeepsStaging(s: State, me: Pid) {
    forall k: Kind {:trigger Ino(me, k)} :: Ino(me, k) in s.inodes && s.inodes[Ino(me, k)].staged
  }

  /** Where the inspection leaves a publisher: at its first link, or refused for a reason that is visible. */
  ghost predicate Inspected(s: State, me: Pid)
    requires me in s.pubs
  {
    var pub := s.pubs[me];
    pub.pc == LinkingArtifact || pub.pc == Failed(OrphanSidecar) ||
    exists kind :: pub.pc == Failed(Conflict(kind)) && Disputed(s, pub.input, kind)
  }

  /** The final name stands for other bytes than the ones supplied. */
  ghost predicate Disputed(s: State, input: Input, kind: Kind) {
    input.Final(kind) in s.entries && !Holds(s, input.Final(kind), input.Supplied(kind))
  }

  lemma DecisionIsVisible(s: State, me: Pid)
    requires Inv(s) && Enabled(s, Decide(me))
    ensures var t := Step(s, Decide(me)); Inspected(t, me) && t.entries == s.entries
  {
    assert StageInv(s, me);
    var looks, input := s.pubs[me].pc.looks, s.pubs[me].input;
    UnseenKind(looks, Artifact);
    UnseenKind(looks, Sidecar);
    PresentLook(looks, Artifact);
    PresentLook(looks, Sidecar);
    var t := Step(s, Decide(me));
    if t.pubs[me].pc == Failed(Conflict(Artifact)) {
      assert Disputed(t, input, Artifact);
    } else if t.pubs[me].pc == Failed(Conflict(Sidecar)) {
      assert Disputed(t, input, Sidecar);
    }
  }

  lemma {:induction false} PresentLook(looks: seq<Look>, kind: Kind)
    ensures Saw(looks, kind) == Some(true) ==> Look(kind, true) in looks
  {
    if looks != [] && looks[0].kind != kind {
      PresentLook(looks[1..], kind);
    }
  }

  lemma SawTwo(first: Look, second: Kind, seen: bool)
    requires first.kind != second
    ensures Saw([] + [first], second).None?
    ensures var looks := [] + [first] + [Look(second, seen)];
      |looks| == 2 && Saw(looks, first.kind) == Some(first.present) && Saw(looks, second) == Some(seen)
  {
    var looks := [] + [first] + [Look(second, seen)];
    assert looks[1..] == [Look(second, seen)];
    assert ([] + [first])[1..] == [];
  }

  lemma GrowsIsTransitive(s: State, t: State, u: State)
    requires Grows(s, t) && Grows(t, u)
    ensures Grows(s, u)
  {
  }

  /** Publisher `me` only worked on one staged file. */
  ghost predicate WrittenSince(me: Pid, kind: Kind, s: State, t: State) {
    me in s.pubs && me in t.pubs && t.pubs[me] == s.pubs[me] &&
    forall k: Kind {:trigger Ino(me, k)} :: k != kind ==>
      (Ino(me, k) in s.inodes <==> Ino(me, k) in t.inodes) &&
      (Ino(me, k) in s.inodes ==> t.inodes[Ino(me, k)] == s.inodes[Ino(me, k)])
  }
}
