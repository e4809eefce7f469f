/**
 * What every run of the publication protocol keeps, and what follows from it:
 * the sidecar is a commit marker that survives power loss, final names are
 * written once, and successful publishers of one name agree.
 */
module PublicationSafety {
  import opened Options
  import opened Publication

  /** How far a living publisher has come; failed and dead ones claim nothing. */
  function Rank(pc: Pc): nat {
    match pc
    case Staging => 0
    case Looking(_) => 1
    case LinkingArtifact => 2
    case SyncingArtifact => 3
    case LinkingSidecar => 4
    case SyncingSidecar => 5
    case Validating => 6
    case Committed => 7
    case Failed(_) => 0
    case Dead => 0
  }

  /** Still in the transaction, so both staged names are untouched. */
  predicate Busy(pc: Pc) {
    pc.Staging? || 1 <= Rank(pc) < 7
  }

  /** A file holds what its publisher supplied, unless a power loss tore it before it was synced. */
  ghost predicate FileOk(s: State, i: Ino) {
    i in s.inodes ==>
      i.owner in s.pubs &&
      (s.inodes[i].bytes == s.pubs[i.owner].input.Supplied(i.kind) ||
       (!s.inodes[i].synced && s.pubs[i.owner].pc.Dead?))
  }

  /** A final name stands for a synced file of its own kind and file name. */
  ghost predicate EntryOk(s: State, n: Name) {
    n in s.entries ==>
      var i := s.entries[n];
      i in s.inodes && s.inodes[i].synced && i.kind == n.kind && i.owner in s.pubs &&
      s.pubs[i.owner].input.file == n.file
  }

  ghost predicate DurableInv(s: State) {
    forall n <- s.durable :: n in s.entries && s.entries[n] == s.durable[n]
  }

  /** The artifact that must stand beside a sidecar published by `owner`. */
  ghost predicate ArtifactBeside(s: State, owner: Pid) {
    owner in s.pubs &&
    var input := s.pubs[owner].input;
    input.Final(Artifact) in s.durable && Holds(s, input.Final(Artifact), input.artifact)
  }

  /** The sidecar is the commit marker: its artifact is durable already. */
  ghost predicate MarkerOk(s: State, n: Name) {
    n in s.entries && n.kind == Sidecar ==> ArtifactBeside(s, s.entries[n].owner)
  }

  /** A look that found a name is never contradicted, and a sidecar found first means a present artifact. */
  ghost predicate LooksOk(s: State, input: Input, looks: seq<Look>) {
    (forall l <- looks :: l.present ==> input.Final(l.kind) in s.entries) &&
    (looks == [] || |looks| == 1 || (|looks| == 2 && looks[0].kind != looks[1].kind)) &&
    (|looks| == 2 && looks[0] == Look(Sidecar, true) ==> looks[1].present)
  }

  /** What a publisher at each stage of the transaction has already secured. */
  ghost predicate StageInv(s: State, p: Pid)
    requires p in s.pubs
  {
    var pub := s.pubs[p];
    var rank := Rank(pub.pc);
    (rank >= 1 ==> forall k :: Ino(p, k) in s.inodes && s.inodes[Ino(p, k)].synced) &&
    (rank >= 3 ==> Holds(s, pub.input.Final(Artifact), pub.input.artifact)) &&
    (rank >= 4 ==> pub.input.Final(Artifact) in s.durable) &&
    (rank >= 5 ==> Holds(s, pub.input.Final(Sidecar), pub.input.record)) &&
    (rank >= 6 ==> pub.input.Final(Sidecar) in s.durable) &&
    (rank == 7 ==> p in s.committed) &&
    (Busy(pub.pc) ==> forall k :: Ino(p, k) in s.inodes ==> s.inodes[Ino(p, k)].staged) &&
    (pub.pc.Looking? ==> LooksOk(s, pub.input, pub.pc.looks))
  }

  /** A publisher that ever committed left its pair on disk for good. */
  ghost predicate CommitOk(s: State, p: Pid) {
    p in s.committed ==>
      p in s.pubs &&
      forall k :: s.pubs[p].input.Final(k) in s.durable &&
                  Holds(s, s.pubs[p].input.Final(k), s.pubs[p].input.Supplied(k))
  }

  ghost predicate Inv(s: State) {
    (forall i: Ino :: FileOk(s, i)) &&
    (forall n: Name :: EntryOk(s, n)) &&
    DurableInv(s) &&
    (forall n: Name :: MarkerOk(s, n)) &&
    (forall p: Pid {:trigger StageInv(s, p)} :: p in s.pubs ==> StageInv(s, p)) &&
    (forall p: Pid :: CommitOk(s, p))
  }

  /** `t` only added to what `s` had published, so nothing secured in `s` is lost. */
  ghost predicate Grows(s: State, t: State) {
    (forall n <- s.entries :: n in t.entries && t.entries[n] == s.entries[n]) &&
    (forall n <- s.durable :: n in t.durable && t.durable[n] == s.durable[n]) &&
    (forall i <- s.inodes :: i in t.inodes && t.inodes[i].bytes == s.inodes[i].bytes &&
       (s.inodes[i].synced ==> t.inodes[i].synced)) &&
    (forall p <- s.pubs :: p in t.pubs && t.pubs[p].input == s.pubs[p].input)
  }

  lemma HoldsGrows(s: State, t: State, n: Name, bytes: Bytes)
    requires Grows(s, t) && Holds(s, n, bytes)
    ensures Holds(t, n, bytes)
  {
  }

  /** A stage once secured stays secured while the directory only grows. */
  lemma StageGrows(s: State, t: State, p: Pid)
    requires Grows(s, t) && s.committed <= t.committed
    requires p in s.pubs && StageInv(s, p) && t.pubs[p] == s.pubs[p]
    requires Busy(s.pubs[p].pc) ==> forall k :: Ino(p, k) in t.inodes ==> t.inodes[Ino(p, k)].staged
    ensures StageInv(t, p)
  {
    var input := s.pubs[p].input;
    if Rank(s.pubs[p].pc) >= 3 {
      HoldsGrows(s, t, input.Final(Artifact), input.artifact);
    }
    if Rank(s.pubs[p].pc) >= 5 {
      HoldsGrows(s, t, input.Final(Sidecar), input.record);
    }
  }

  lemma BesideGrows(s: State, t: State, owner: Pid)
    requires Grows(s, t) && ArtifactBeside(s, owner)
    ensures ArtifactBeside(t, owner)
  {
    var input := s.pubs[owner].input;
    HoldsGrows(s, t, input.Final(Artifact), input.artifact);
  }

  /** All of the invariant that speaks of files, names and commits survives growth. */
  lemma SecuredGrows(s: State, t: State)
    requires Inv(s) && Grows(s, t) && DurableInv(t)
    requires forall i: Ino {:trigger FileOk(t, i)} ::
      i !in s.inodes || t.inodes[i].synced != s.inodes[i].synced ==> FileOk(t, i)
    requires forall p <- s.pubs :: s.pubs[p].pc.Dead? ==> t.pubs[p].pc.Dead?
    requires forall n: Name {:trigger EntryOk(t, n)} {:trigger MarkerOk(t, n)} ::
      n !in s.entries ==> EntryOk(t, n) && MarkerOk(t, n)
    requires forall p: Pid {:trigger CommitOk(t, p)} :: p !in s.committed ==> CommitOk(t, p)
    ensures forall i: Ino :: FileOk(t, i)
    ensures forall n: Name :: EntryOk(t, n)
    ensures forall n: Name :: MarkerOk(t, n)
    ensures forall p: Pid :: CommitOk(t, p)
  {
    forall i: Ino
      ensures FileOk(t, i)
    {
      assert FileOk(s, i);
    }
    forall n: Name
      ensures EntryOk(t, n)
    {
      assert EntryOk(s, n);
    }
    forall n: Name
      ensures MarkerOk(t, n)
    {
      assert MarkerOk(s, n);
      if n in s.entries && n.kind == Sidecar {
        BesideGrows(s, t, s.entries[n].owner);
      }
    }
    forall p: Pid
      ensures CommitOk(t, p)
    {
      assert CommitOk(s, p);
      if p in s.committed {
        forall k: Kind
          ensures Holds(t, t.pubs[p].input.Final(k), t.pubs[p].input.Supplied(k))
        {
          HoldsGrows(s, t, s.pubs[p].input.Final(k), s.pubs[p].input.Supplied(k));
        }
      }
    }
  }

  /** Growth in which every publisher but `p` stays where it was. */
  lemma OthersGrow(s: State, t: State, p: Pid)
    requires Inv(s) && Grows(s, t) && s.committed <= t.committed
    requires forall q <- t.pubs :: q != p ==> q in s.pubs && t.pubs[q] == s.pubs[q]
    requires forall i <- t.inodes :: i !in s.inodes || t.inodes[i].staged != s.inodes[i].staged ==>
      t.inodes[i].staged || (i.owner in s.pubs && !Busy(s.pubs[i.owner].pc))
    ensures forall q <- t.pubs :: q != p ==> StageInv(t, q)
  {
    forall q <- t.pubs | q != p
      ensures StageInv(t, q)
    {
      assert StageInv(s, q);
      StageGrows(s, t, q);
    }
  }

  /** Moving one publisher on is safe as soon as its new stage is secured. */
  lemma GotoKeepsInv(s: State, p: Pid, pc: Pc)
    requires Inv(s) && p in s.pubs
    requires StageInv(Goto(s, p, pc), p) && (s.pubs[p].pc.Dead? ==> pc.Dead?)
    ensures Inv(Goto(s, p, pc))
  {
    var t := Goto(s, p, pc);
    SecuredGrows(s, t);
    OthersGrow(s, t, p);
  }

  /** Replacing one file that keeps its bytes and its sync is safe. */
  lemma TouchKeepsInv(s: State, i: Ino, f: Inode)
    requires Inv(s) && i in s.inodes
    requires f.bytes == s.inodes[i].bytes && (s.inodes[i].synced ==> f.synced)
    requires f.synced && !s.inodes[i].synced ==> Running(s, i.owner)
    requires f.staged != s.inodes[i].staged ==> i.owner in s.pubs && !Busy(s.pubs[i.owner].pc)
    ensures Inv(s.(inodes := s.inodes[i := f])) && Grows(s, s.(inodes := s.inodes[i := f]))
  {
    var t := s.(inodes := s.inodes[i := f]);
    assert FileOk(s, i);
    SecuredGrows(s, t);
    OthersGrow(s, t, i.owner);
    assert StageInv(s, i.owner);
    StageGrows(s, t, i.owner);
  }

  lemma StartKeepsInv(s: State, p: Pid, input: Input)
    requires Inv(s) && Enabled(s, Start(p, input))
    ensures Inv(Step(s, Start(p, input)))
  {
    var t := Step(s, Start(p, input));
    forall i: Ino | i in s.inodes
      ensures i.owner != p
    {
      assert FileOk(s, i);
    }
    SecuredGrows(s, t);
    OthersGrow(s, t, p);
    assert StageInv(t, p);
  }

  lemma WriteKeepsInv(s: State, p: Pid, kind: Kind, meta: Meta, ctime: nat)
    requires Inv(s) && Enabled(s, Write(p, kind, meta, ctime))
    ensures Inv(Step(s, Write(p, kind, meta, ctime)))
  {
    var t := Step(s, Write(p, kind, meta, ctime));
    SecuredGrows(s, t);
    OthersGrow(s, t, p);
    assert StageInv(s, p);
    StageGrows(s, t, p);
  }

  /** A new final name for a synced file is safe; a sidecar needs its artifact on disk first. */
  lemma NewNameKeepsInv(s: State, p: Pid, kind: Kind)
    requires Inv(s) && p in s.pubs && Ino(p, kind) in s.inodes && s.inodes[Ino(p, kind)].synced
    requires s.pubs[p].input.Final(kind) !in s.entries
    requires kind == Sidecar ==> ArtifactBeside(s, p)
    ensures Inv(s.(entries := s.entries[s.pubs[p].input.Final(kind) := Ino(p, kind)]))
    ensures Grows(s, s.(entries := s.entries[s.pubs[p].input.Final(kind) := Ino(p, kind)]))
  {
    var name := s.pubs[p].input.Final(kind);
    var t := s.(entries := s.entries[name := Ino(p, kind)]);
    if kind == Sidecar {
      BesideGrows(s, t, p);
    }
    SecuredGrows(s, t);
    OthersGrow(s, t, p);
    assert StageInv(s, p);
    StageGrows(s, t, p);
  }

  lemma DirectorySyncKeepsInv(s: State)
    requires Inv(s)
    ensures Inv(s.(durable := s.entries)) && Grows(s, s.(durable := s.entries))
  {
    var t := s.(durable := s.entries);
    SecuredGrows(s, t);
    forall q <- t.pubs
      ensures StageInv(t, q)
    {
      assert StageInv(s, q);
      StageGrows(s, t, q);
    }
  }

  /** Linking a name that nobody has taken, seen as three harmless changes. */
  lemma FreshLinkKeepsInv(s: State, p: Pid, kind: Kind, ctime: nat)
    requires Inv(s) && p in s.pubs && s.pubs[p].pc == (if kind == Artifact then LinkingArtifact else LinkingSidecar)
    requires s.pubs[p].input.Final(kind) !in s.entries && Ino(p, kind) in s.inodes
    ensures Inv(Goto(s, p, AfterLink(kind))
                .(entries := s.entries[s.pubs[p].input.Final(kind) := Ino(p, kind)],
                  inodes := s.inodes[Ino(p, kind) := s.inodes[Ino(p, kind)].(ctime := ctime)]))
  {
    assert StageInv(s, p) && FileOk(s, Ino(p, kind));
    var name, i := s.pubs[p].input.Final(kind), Ino(p, kind);
    var touched := s.(inodes := s.inodes[i := s.inodes[i].(ctime := ctime)]);
    TouchKeepsInv(s, i, s.inodes[i].(ctime := ctime));
    assert StageInv(touched, p);
    NewNameKeepsInv(touched, p, kind);
    var linked := touched.(entries := touched.entries[name := i]);
    assert StageInv(linked, p);
    assert Holds(linked, name, s.pubs[p].input.Supplied(kind));
    GotoKeepsInv(linked, p, AfterLink(kind));
    assert Goto(linked, p, AfterLink(kind)) ==
           Goto(s, p, AfterLink(kind)).(entries := s.entries[name := i], inodes := touched.inodes);
  }

  lemma LinkKeepsInv(s: State, p: Pid, ctime: nat)
    requires Inv(s) && Enabled(s, LinkFinal(p, ctime))
    ensures Inv(LinkStep(s, p, ctime))
  {
    assert StageInv(s, p);
    var input := s.pubs[p].input;
    var kind := LinkKind(s.pubs[p].pc);
    if input.Final(kind) in s.entries {
      GotoKeepsInv(s, p,
        if Holds(s, input.Final(kind), input.Supplied(kind)) then AfterLink(kind) else Failed(Conflict(kind)));
    } else {
      FreshLinkKeepsInv(s, p, kind, ctime);
    }
  }

  lemma SyncDirectoryKeepsInv(s: State, p: Pid)
    requires Inv(s) && Enabled(s, SyncDirectory(p))
    ensures Inv(Step(s, SyncDirectory(p)))
  {
    assert StageInv(s, p);
    var synced := s.(durable := s.entries);
    DirectorySyncKeepsInv(s);
    assert StageInv(synced, p);
    var pc := if s.pubs[p].pc.SyncingArtifact? then LinkingSidecar else Validating;
    GotoKeepsInv(synced, p, pc);
    assert Step(s, SyncDirectory(p)) == Goto(synced, p, pc);
  }

  /** A publisher that has come this far finds its own bytes under both names. */
  lemma ValidateKeepsInv(s: State, p: Pid)
    requires Inv(s) && Enabled(s, ValidatePair(p))
    ensures Inv(Step(s, ValidatePair(p)))
    ensures Step(s, ValidatePair(p)).pubs[p].pc == Committed
  {
    assert StageInv(s, p);
    var t := Step(s, ValidatePair(p));
    assert t == Goto(s, p, Committed).(committed := s.committed + {p});
    forall k: Kind
      ensures Holds(t, s.pubs[p].input.Final(k), s.pubs[p].input.Supplied(k))
    {
      HoldsGrows(s, t, s.pubs[p].input.Final(k), s.pubs[p].input.Supplied(k));
    }
    assert CommitOk(t, p);
    SecuredGrows(s, t);
    OthersGrow(s, t, p);
  }

  /** What is durable outlives the power loss, and nothing is left that was not there before. */
  lemma PowerLossKeeps(s: State, keep: set<Name>, keepStaged: set<Ino>, torn: map<Ino, Bytes>)
    requires Inv(s)
    ensures var t := PowerLossStep(s, keep, keepStaged, torn);
      (forall n <- t.entries :: n in s.entries && t.entries[n] == s.entries[n]) &&
      forall n, bytes {:trigger Holds(t, n, bytes)} :: n in t.entries && Holds(s, n, bytes) ==> Holds(t, n, bytes)
  {
    var t := PowerLossStep(s, keep, keepStaged, torn);
    forall n, bytes {:trigger Holds(t, n, bytes)} | n in t.entries && Holds(s, n, bytes)
      ensures Holds(t, n, bytes)
    {
      assert EntryOk(s, n);
    }
  }

  lemma PowerLossKeepsInv(s: State, keep: set<Name>, keepStaged: set<Ino>, torn: map<Ino, Bytes>)
    requires Inv(s)
    ensures Inv(PowerLossStep(s, keep, keepStaged, torn))
  {
    var t := PowerLossStep(s, keep, keepStaged, torn);
    PowerLossKeeps(s, keep, keepStaged, torn);
    forall i: Ino
      ensures FileOk(t, i)
    {
      assert FileOk(s, i);
    }
    forall n: Name
      ensures EntryOk(t, n)
    {
      assert EntryOk(s, n);
    }
    forall n: Name
      ensures MarkerOk(t, n)
    {
      assert MarkerOk(s, n);
    }
    forall p: Pid
      ensures CommitOk(t, p)
    {
      assert CommitOk(s, p);
    }
  }

  /** Nobody else touches a private staging directory, so its check never refuses. */
  lemma CheckStagedPasses(s: State, p: Pid)
    requires Inv(s) && Enabled(s, CheckStaged(p))
    ensures Step(s, CheckStaged(p)) == Goto(s, p, Looking([]))
    ensures StageInv(Goto(s, p, Looking([])), p)
  {
    assert StageInv(s, p);
    assert FileOk(s, Ino(p, Artifact)) && FileOk(s, Ino(p, Sidecar));
  }

  lemma {:induction false} UnseenKind(looks: seq<Look>, kind: Kind)
    ensures Saw(looks, kind).None? <==> forall l <- looks :: l.kind != kind
  {
    if looks != [] {
      UnseenKind(looks[1..], kind);
      assert forall l :: l in looks <==> l == looks[0] || l in looks[1..];
    }
  }

  lemma LookKeepsInv(s: State, p: Pid, kind: Kind)
    requires Inv(s) && Enabled(s, LookAt(p, kind))
    ensures Inv(Step(s, LookAt(p, kind)))
  {
    assert StageInv(s, p);
    assert MarkerOk(s, s.pubs[p].input.Final(Sidecar)) && EntryOk(s, s.pubs[p].input.Final(Sidecar));
    UnseenKind(s.pubs[p].pc.looks, kind);
    var looks := s.pubs[p].pc.looks + [Look(kind, s.pubs[p].input.Final(kind) in s.entries)];
    GotoKeepsInv(s, p, Looking(looks));
  }

  /** Short of a power loss nothing that was published or written is ever taken back. */
  lemma StepGrows(s: State, e: Event)
    requires Inv(s) && Enabled(s, e) && !e.PowerLoss?
    ensures Grows(s, Step(s, e))
  {
    if e.Write? || e.SyncFile? || e.Unstage? {
      FileStepGrows(s, e);
    } else if e.LinkFinal? || e.SyncDirectory? {
      NameStepGrows(s, e);
    } else {
      PublisherStepGrows(s, e);
    }
  }

  /** Events that move a publisher on and touch no file and no name. */
  predicate MovesOn(e: Event) {
    !e.Write? && !e.SyncFile? && !e.Unstage? && !e.LinkFinal? && !e.SyncDirectory? && !e.PowerLoss?
  }

  lemma SamePlaces(s: State, e: Event)
    requires Enabled(s, e) && MovesOn(e)
    ensures var t := Step(s, e); t.entries == s.entries && t.durable == s.durable && t.inodes == s.inodes
  {
  }

  lemma InputsStay(s: State, e: Event)
    requires Enabled(s, e) && MovesOn(e)
    ensures var t := Step(s, e); forall p <- s.pubs :: p in t.pubs && t.pubs[p].input == s.pubs[p].input
  {
  }

  lemma PublisherStepGrows(s: State, e: Event)
    requires Enabled(s, e) && MovesOn(e)
    ensures Grows(s, Step(s, e))
  {
    SamePlaces(s, e);
    InputsStay(s, e);
  }

  lemma FileStepGrows(s: State, e: Event)
    requires Inv(s) && Enabled(s, e) && (e.Write? || e.SyncFile? || e.Unstage?)
    ensures Grows(s, Step(s, e))
  {
  }

  lemma NameStepGrows(s: State, e: Event)
    requires Inv(s) && Enabled(s, e) && (e.LinkFinal? || e.SyncDirectory?)
    ensures Grows(s, Step(s, e))
  {
    assert DurableInv(s);
  }

  lemma StepKeepsInv(s: State, e: Event)
    requires Inv(s) && Enabled(s, e)
    ensures Inv(Step(s, e))
  {
    match e
    case Start(p, input) => StartKeepsInv(s, p, input);
    case Write(p, kind, meta, ctime) => WriteKeepsInv(s, p, kind, meta, ctime);
    case SyncFile(p, kind) => TouchKeepsInv(s, Ino(p, kind), s.inodes[Ino(p, kind)].(synced := true));
    case CheckStaged(p) =>
      CheckStagedPasses(s, p);
      GotoKeepsInv(s, p, Looking([]));
    case LookAt(p, kind) => LookKeepsInv(s, p, kind);
    case Decide(p) =>
      assert StageInv(s, p);
      GotoKeepsInv(s, p, Decision(s, s.pubs[p].input, s.pubs[p].pc.looks));
    case LinkFinal(p, ctime) => LinkKeepsInv(s, p, ctime);
    case SyncDirectory(p) => SyncDirectoryKeepsInv(s, p);
    case ValidatePair(p) => ValidateKeepsInv(s, p);
    case Unstage(p, kind, ctime) =>
      TouchKeepsInv(s, Ino(p, kind), s.inodes[Ino(p, kind)].(staged := false, ctime := ctime));
    case Fail(p) => GotoKeepsInv(s, p, Failed(Interrupted));
    case Crash(p) => GotoKeepsInv(s, p, Dead);
    case PowerLoss(keep, keepStaged, torn) => PowerLossKeepsInv(s, keep, keepStaged, torn);
  }

  lemma {:induction false} RunKeepsInv(s: State, run: seq<Event>)
    requires Inv(s) && Legal(s, run)
    ensures Inv(Run(s, run))
    decreases |run|
  {
    if run != [] {
      StepKeepsInv(s, run[0]);
      RunKeepsInv(Step(s, run[0]), run[1..]);
    }
  }
}
