/**
 * The promises of the publication protocol, for any number of publishers, any
 * interleaving, any crash and any number of power losses.
 */
module PublicationTheorems {
  import opened Options
  import opened Publication
  import opened PublicationSafety

  lemma RunFromEmpty(run: seq<Event>)
    requires Legal(EMPTY, run)
    ensures Inv(Run(EMPTY, run))
  {
    RunKeepsInv(EMPTY, run);
  }

  /**
   * A sidecar that is left after a power loss always has its artifact beside
   * it, byte for byte the one its publisher supplied, whoever linked it.
   */
  lemma SidecarSurvivesOnlyWithArtifact(
    run: seq<Event>, keep: set<Name>, keepStaged: set<Ino>, torn: map<Ino, Bytes>, file: string)
    requires Legal(EMPTY, run)
    ensures var t := PowerLossStep(Run(EMPTY, run), keep, keepStaged, torn);
      Name(Sidecar, file) in t.entries ==>
        var publisher := t.entries[Name(Sidecar, file)].owner;
        publisher in t.pubs && t.pubs[publisher].input.file == file &&
        Holds(t, Name(Sidecar, file), t.pubs[publisher].input.record) &&
        Name(Artifact, file) in t.durable &&
        Holds(t, Name(Artifact, file), t.pubs[publisher].input.artifact)
  {
    RunFromEmpty(run);
    var s := Run(EMPTY, run);
    PowerLossKeepsInv(s, keep, keepStaged, torn);
    var t := PowerLossStep(s, keep, keepStaged, torn);
    var n := Name(Sidecar, file);
    assert MarkerOk(t, n) && EntryOk(t, n);
    if n in t.entries {
      assert FileOk(t, t.entries[n]);
    }
  }

  /** Once linked, a final name keeps its file and its bytes; only a name that was not yet durable can be lost. */
  lemma {:induction false} NamesAreWrittenOnce(before: seq<Event>, after: seq<Event>, n: Name)
    requires Legal(EMPTY, before) && Legal(Run(EMPTY, before), after)
    requires n in Run(EMPTY, before).entries
    requires n in Run(EMPTY, before).durable || forall e <- after :: !e.PowerLoss?
    ensures var s, t := Run(EMPTY, before), Run(Run(EMPTY, before), after);
      n in t.entries && t.entries[n] == s.entries[n] && s.entries[n] in s.inodes && s.entries[n] in t.inodes &&
      t.inodes[t.entries[n]].bytes == s.inodes[s.entries[n]].bytes
  {
    RunFromEmpty(before);
    NameStays(Run(EMPTY, before), after, n);
  }

  lemma {:induction false} NameStays(s: State, run: seq<Event>, n: Name)
    requires Inv(s) && Legal(s, run) && n in s.entries
    requires n in s.durable || forall e <- run :: !e.PowerLoss?
    ensures var t := Run(s, run);
      n in t.entries && t.entries[n] == s.entries[n] && s.entries[n] in s.inodes && s.entries[n] in t.inodes &&
      t.inodes[t.entries[n]].bytes == s.inodes[s.entries[n]].bytes
    decreases |run|
  {
    assert EntryOk(s, n);
    if run != [] {
      var next := Step(s, run[0]);
      StepKeepsInv(s, run[0]);
      if run[0].PowerLoss? {
        PowerLossKeeps(s, run[0].keep, run[0].keepStaged, run[0].torn);
      } else {
        StepGrows(s, run[0]);
      }
      NameStays(next, run[1..], n);
    }
  }

  /** Two publishers that ever committed one file name supplied identical pairs. */
  lemma CommitsAgree(run: seq<Event>, p: Pid, q: Pid)
    requires Legal(EMPTY, run)
    requires p in Run(EMPTY, run).committed && q in Run(EMPTY, run).committed
    requires p in Run(EMPTY, run).pubs && q in Run(EMPTY, run).pubs
    requires Run(EMPTY, run).pubs[p].input.file == Run(EMPTY, run).pubs[q].input.file
    ensures Run(EMPTY, run).pubs[p].input == Run(EMPTY, run).pubs[q].input
  {
    RunFromEmpty(run);
    var s := Run(EMPTY, run);
    assert CommitOk(s, p) && CommitOk(s, q);
    var a, b := s.pubs[p].input, s.pubs[q].input;
    assert forall k: Kind :: a.Final(k) == b.Final(k) && a.Supplied(k) == b.Supplied(k) by {
      forall k: Kind
        ensures a.Supplied(k) == b.Supplied(k)
      {
        assert Holds(s, a.Final(k), a.Supplied(k)) && Holds(s, b.Final(k), b.Supplied(k));
      }
    }
    assert a.Supplied(Artifact) == b.Supplied(Artifact) && a.Supplied(Sidecar) == b.Supplied(Sidecar);
  }

  /** A publisher that ever committed still finds its own bytes under both names, even after power losses. */
  lemma CommitLasts(run: seq<Event>, p: Pid, kind: Kind)
    requires Legal(EMPTY, run) && p in Run(EMPTY, run).committed
    ensures var s := Run(EMPTY, run);
      p in s.pubs && s.pubs[p].input.Final(kind) in s.durable &&
      Holds(s, s.pubs[p].input.Final(kind), s.pubs[p].input.Supplied(kind))
  {
    RunFromEmpty(run);
    assert CommitOk(Run(EMPTY, run), p);
  }

  /** The state the transaction refuses, a sidecar without its artifact, cannot be reached. */
  lemma NoOrphanIsReachable(run: seq<Event>, file: string)
    requires Legal(EMPTY, run)
    ensures var s := Run(EMPTY, run); Name(Sidecar, file) in s.entries ==> Name(Artifact, file) in s.entries
  {
    RunFromEmpty(run);
    var s := Run(EMPTY, run);
    assert MarkerOk(s, Name(Sidecar, file)) && EntryOk(s, Name(Sidecar, file));
  }

  /**
   * The refusal itself can be reached, because the two looks are not one
   * instant: exactly when the artifact was looked for first and missed, and the
   * sidecar was found by the later look.
   */
  lemma RefusedExactlyOnStaleLook(run: seq<Event>, p: Pid)
    requires Legal(EMPTY, run) && Enabled(Run(EMPTY, run), Decide(p))
    ensures var s := Run(EMPTY, run);
      Step(s, Decide(p)).pubs[p].pc == Failed(OrphanSidecar) <==>
      s.pubs[p].pc.looks == [Look(Artifact, false), Look(Sidecar, true)]
  {
    RunFromEmpty(run);
    var s := Run(EMPTY, run);
    assert StageInv(s, p);
    var looks := s.pubs[p].pc.looks;
    assert Saw(looks, Artifact).Some? && Saw(looks, Sidecar).Some?;
    UnseenKind(looks, Artifact);
    UnseenKind(looks, Sidecar);
    assert looks == [looks[0], looks[1]];
    assert Saw(looks[1..], looks[1].kind) == Some(looks[1].present);
  }

  lemma {:induction false} RunExtends(s: State, run: seq<Event>, e: Event)
    requires Legal(s, run) && Enabled(Run(s, run), e)
    ensures Legal(s, run + [e]) && Run(s, run + [e]) == Step(Run(s, run), e)
    decreases |run|
  {
    if run == [] {
      assert [e][1..] == [];
      assert Run(Step(s, e), []) == Step(s, e);
    } else {
      RunExtends(Step(s, run[0]), run[1..], e);
      assert (run + [e])[0] == run[0] && (run + [e])[1..] == run[1..] + [e];
    }
  }

  /** One more event of a run under construction. */
  lemma Then(run: seq<Event>, e: Event) returns (longer: seq<Event>, s: State)
    requires Legal(EMPTY, run) && Enabled(Run(EMPTY, run), e)
    ensures Legal(EMPTY, longer) && s == Run(EMPTY, longer) == Step(Run(EMPTY, run), e)
  {
    RunExtends(EMPTY, run, e);
    longer := run + [e];
    s := Run(EMPTY, longer);
  }

  /** Publisher `p` writes one file of its pair and forces it to disk. */
  lemma StageFile(run: seq<Event>, p: Pid, kind: Kind, meta: Meta) returns (longer: seq<Event>, s: State)
    requires Legal(EMPTY, run) && p in Run(EMPTY, run).pubs && Run(EMPTY, run).pubs[p].pc == Staging
    requires Ino(p, kind) !in Run(EMPTY, run).inodes
    ensures Legal(EMPTY, longer) && s == Run(EMPTY, longer)
    ensures var before := Run(EMPTY, run);
            s == before.(inodes := before.inodes[
                Ino(p, kind) := Inode(before.pubs[p].input.Supplied(kind), true, true, meta, 0)])
  {
    longer, s := Then(run, Write(p, kind, meta, 0));
    longer, s := Then(longer, SyncFile(p, kind));
  }

  /** Publisher `p` stages its pair and checks it, with nothing else happening. */
  lemma StagePair(run: seq<Event>, p: Pid, input: Input, meta: Meta) returns (longer: seq<Event>, s: State)
    requires Legal(EMPTY, run) && p !in Run(EMPTY, run).pubs
    requires forall k :: Ino(p, k) !in Run(EMPTY, run).inodes
    ensures Legal(EMPTY, longer) && s == Run(EMPTY, longer)
    ensures s.pubs == Run(EMPTY, run).pubs[p := Publisher(input, Looking([]))]
    ensures s.entries == Run(EMPTY, run).entries
    ensures forall i :: i in s.inodes <==> i in Run(EMPTY, run).inodes || i.owner == p
  {
    longer, s := Then(run, Start(p, input));
    longer, s := StageFile(longer, p, Artifact, meta);
    longer, s := StageFile(longer, p, Sidecar, meta);
    EitherKind(p);
    forall k: Kind
      ensures Ino(p, k) in s.inodes && s.inodes[Ino(p, k)].synced
    {
      assert Ino(p, k).owner == p;
    }
    longer, s := Then(longer, CheckStaged(p));
  }

  /** A publisher has one private file of each kind. */
  lemma EitherKind(p: Pid)
    ensures forall i: Ino :: i.owner == p <==> i == Ino(p, Artifact) || i == Ino(p, Sidecar)
  {
    forall i: Ino | i.owner == p
      ensures i == Ino(p, Artifact) || i == Ino(p, Sidecar)
    {
      assert i.kind == Artifact || i.kind == Sidecar;
    }
  }

  /** Publisher `p` looks at both final names, which are free. */
  lemma LookAtBoth(run: seq<Event>, p: Pid) returns (longer: seq<Event>, s: State)
    requires Legal(EMPTY, run) && p in Run(EMPTY, run).pubs && Run(EMPTY, run).pubs[p].pc == Looking([])
    requires forall k :: Run(EMPTY, run).pubs[p].input.Final(k) !in Run(EMPTY, run).entries
    ensures Legal(EMPTY, longer) && s == Run(EMPTY, longer)
    ensures s == Goto(Run(EMPTY, run), p, Looking([Look(Artifact, false), Look(Sidecar, false)]))
  {
    longer, s := Then(run, LookAt(p, Artifact));
    assert s.pubs[p].pc.looks == [Look(Artifact, false)];
    assert Saw([Look(Artifact, false)][1..], Sidecar) == None;
    longer, s := Then(longer, LookAt(p, Sidecar));
    assert s.pubs[p].pc.looks == [Look(Artifact, false), Look(Sidecar, false)];
  }

  /** Publisher `p` finds both final names free and turns to its first link. */
  lemma FindFree(run: seq<Event>, p: Pid) returns (longer: seq<Event>, s: State)
    requires Legal(EMPTY, run) && p in Run(EMPTY, run).pubs && Run(EMPTY, run).pubs[p].pc == Looking([])
    requires forall k :: Run(EMPTY, run).pubs[p].input.Final(k) !in Run(EMPTY, run).entries
    ensures Legal(EMPTY, longer) && s == Run(EMPTY, longer)
    ensures s == Goto(Run(EMPTY, run), p, LinkingArtifact)
  {
    longer, s := LookAtBoth(run, p);
    var looks := s.pubs[p].pc.looks;
    assert looks[1..] == [Look(Sidecar, false)];
    assert Saw(looks, Artifact) == Some(false) && Saw(looks, Sidecar) == Some(false);
    longer, s := Then(longer, Decide(p));
  }

  /** Publisher `p` links its pair under free names. */
  lemma LinkPair(run: seq<Event>, p: Pid) returns (longer: seq<Event>, s: State)
    requires Legal(EMPTY, run) && p in Run(EMPTY, run).pubs && Run(EMPTY, run).pubs[p].pc == LinkingArtifact
    requires forall k :: Ino(p, k) in Run(EMPTY, run).inodes &&
                         Run(EMPTY, run).pubs[p].input.Final(k) !in Run(EMPTY, run).entries
    ensures Legal(EMPTY, longer) && s == Run(EMPTY, longer)
    ensures s.pubs == Goto(Run(EMPTY, run), p, SyncingSidecar).pubs
    ensures forall k :: Run(EMPTY, run).pubs[p].input.Final(k) in s.entries
  {
    longer, s := Then(run, LinkFinal(p, 1));
    longer, s := Then(longer, SyncDirectory(p));
    longer, s := Then(longer, LinkFinal(p, 2));
    var input := Run(EMPTY, run).pubs[p].input;
    forall k: Kind
      ensures input.Final(k) in s.entries
    {
      assert k == Artifact || k == Sidecar;
    }
  }

  /** Publisher 1 looks at the artifact's name before publisher 0 links the pair, and at the sidecar's after. */
  lemma LooksAround(run: seq<Event>, input: Input) returns (longer: seq<Event>, s: State)
    requires Legal(EMPTY, run)
    requires Run(EMPTY, run).pubs == map[0 := Publisher(input, LinkingArtifact), 1 := Publisher(input, Looking([]))]
    requires Run(EMPTY, run).entries == map[]
    requires forall k :: Ino(0, k) in Run(EMPTY, run).inodes
    ensures Legal(EMPTY, longer) && s == Run(EMPTY, longer)
    ensures s.pubs == map[
              0 := Publisher(input, SyncingSidecar), 1 := Publisher(input, Looking([Look(Artifact, false), Look(Sidecar, true)]))]
  {
    longer, s := Then(run, LookAt(1, Artifact));
    longer, s := LinkPair(longer, 0);
    assert s.pubs[1].pc.looks == [Look(Artifact, false)];
    UnseenKind([Look(Artifact, false)], Sidecar);
    longer, s := Then(longer, LookAt(1, Sidecar));
    assert s.pubs[1].pc.looks == [Look(Artifact, false), Look(Sidecar, true)];
  }

  /** Two publishers of one identical pair: the second is refused although nothing is wrong. */
  lemma StaleLookHappens(input: Input, meta: Meta) returns (run: seq<Event>)
    ensures Legal(EMPTY, run)
    ensures Run(EMPTY, run).pubs ==
            map[0 := Publisher(input, SyncingSidecar), 1 := Publisher(input, Failed(OrphanSidecar))]
  {
    var s: State;
    run, s := StagePair([], 0, input, meta);
    run, s := StagePair(run, 1, input, meta);
    run, s := FindFree(run, 0);
    run, s := LooksAround(run, input);
    var looks := [Look(Artifact, false), Look(Sidecar, true)];
    assert looks[1..] == [Look(Sidecar, true)];
    assert Saw(looks, Artifact) == Some(false) && Saw(looks, Sidecar) == Some(true);
    run, s := Then(run, Decide(1));
  }
}
