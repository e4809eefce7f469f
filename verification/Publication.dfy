/**
 * The immutable publication protocol as a state machine.
 *
 * Any number of publishers share one output directory.  Each stages a binary
 * and a sidecar privately, forces both to disk, and then links the binary and
 * after it the sidecar under their final names, forcing the directory to disk
 * after each link.  A file is identified by the staged file it was written as,
 * so one `Ino` never stands for two files.
 */
module Publication {
  import opened Options

  type Bytes = seq<bv8>
  type Pid = nat

  datatype Kind = Artifact | Sidecar

  /** A final name in the output directory. */
  datatype Name = Name(kind: Kind, file: string)

  /** The file that publisher `owner` staged as its binary or as its sidecar. */
  datatype Ino = Ino(owner: Pid, kind: Kind)

  datatype Input = Input(file: string, artifact: Bytes, record: Bytes) {
    function Supplied(kind: Kind): Bytes {
      if kind == Artifact then artifact else record
    }

    function Final(kind: Kind): Name {
      Name(kind, file)
    }
  }

  /** The attributes that no later step of a publisher changes. */
  datatype Meta = Meta(dev: nat, mtime: nat, mode: nat, uid: nat, gid: nat)

  /** `synced`: the bytes survive a power loss.  `staged`: the staged name still exists. */
  datatype Inode = Inode(bytes: Bytes, synced: bool, staged: bool, meta: Meta, ctime: nat)

  datatype Reason =
    | OrphanSidecar      // a sidecar was seen and its artifact was not
    | Conflict(kind: Kind)
    | Interrupted        // an operation of the publisher itself failed

  /** One answer of the two concurrent looks at the final names. */
  datatype Look = Look(kind: Kind, present: bool)

  datatype Pc =
    | Staging
    | Looking(looks: seq<Look>)
    | LinkingArtifact
    | SyncingArtifact
    | LinkingSidecar
    | SyncingSidecar
    | Validating
    | Committed
    | Failed(reason: Reason)
    | Dead

  datatype Publisher = Publisher(input: Input, pc: Pc)

  /**
   * `entries` is what a running process sees of the final names, `durable` what
   * a power loss is certain to leave, and `committed` remembers every publisher
   * that ever reached the end of the transaction.
   */
  datatype State = State(
    pubs: map<Pid, Publisher>,
    inodes: map<Ino, Inode>,
    entries: map<Name, Ino>,
    durable: map<Name, Ino>,
    committed: set<Pid>)

  const EMPTY := State(map[], map[], map[], map[], {})

  datatype Event =
    | Start(p: Pid, input: Input)
    | Write(p: Pid, kind: Kind, meta: Meta, ctime: nat)
    | SyncFile(p: Pid, kind: Kind)
    | CheckStaged(p: Pid)
    | LookAt(p: Pid, kind: Kind)
    | Decide(p: Pid)
    | LinkFinal(p: Pid, ctime: nat)
    | SyncDirectory(p: Pid)
    | ValidatePair(p: Pid)
    | Unstage(p: Pid, kind: Kind, ctime: nat)
    | Fail(p: Pid)
    | Crash(p: Pid)
    | PowerLoss(keep: set<Name>, keepStaged: set<Ino>, torn: map<Ino, Bytes>)

  function Saw(looks: seq<Look>, kind: Kind): Option<bool> {
    if looks == [] then None
    else if looks[0].kind == kind then Some(looks[0].present)
    else Saw(looks[1..], kind)
  }

  /** The final name `n` stands for a file that holds exactly `bytes`. */
  predicate Holds(s: State, n: Name, bytes: Bytes) {
    n in s.entries && s.entries[n] in s.inodes && s.inodes[s.entries[n]].bytes == bytes
  }

  predicate Running(s: State, p: Pid) {
    p in s.pubs && !s.pubs[p].pc.Dead?
  }

  predicate Enabled(s: State, e: Event) {
    match e
    case Start(p, input) => p !in s.pubs
    case Write(p, k, _, _) => Running(s, p) && s.pubs[p].pc.Staging? && Ino(p, k) !in s.inodes
    case SyncFile(p, k) => Running(s, p) && s.pubs[p].pc.Staging? && Ino(p, k) in s.inodes
    case CheckStaged(p) =>
      Running(s, p) && s.pubs[p].pc.Staging? &&
      forall k :: Ino(p, k) in s.inodes && s.inodes[Ino(p, k)].synced
    case LookAt(p, k) => Running(s, p) && s.pubs[p].pc.Looking? && Saw(s.pubs[p].pc.looks, k).None?
    case Decide(p) =>
      Running(s, p) && s.pubs[p].pc.Looking? && forall k :: Saw(s.pubs[p].pc.looks, k).Some?
    case LinkFinal(p, _) => Running(s, p) && (s.pubs[p].pc.LinkingArtifact? || s.pubs[p].pc.LinkingSidecar?)
    case SyncDirectory(p) => Running(s, p) && (s.pubs[p].pc.SyncingArtifact? || s.pubs[p].pc.SyncingSidecar?)
    case ValidatePair(p) => Running(s, p) && s.pubs[p].pc.Validating?
    case Unstage(p, k, _) =>
      Running(s, p) && (s.pubs[p].pc.Committed? || s.pubs[p].pc.Failed?) &&
      Ino(p, k) in s.inodes && s.inodes[Ino(p, k)].staged
    case Fail(p) => Running(s, p) && !s.pubs[p].pc.Committed? && !s.pubs[p].pc.Failed?
    case Crash(p) => Running(s, p)
    case PowerLoss(_, _, _) => true
  }

  function Goto(s: State, p: Pid, pc: Pc): State
    requires p in s.pubs
  {
    s.(pubs := s.pubs[p := s.pubs[p].(pc := pc)])
  }

  /** Where the two looks and the reads they ask for lead. */
  function Decision(s: State, input: Input, looks: seq<Look>): Pc {
    var artifact, sidecar := Saw(looks, Artifact) == Some(true), Saw(looks, Sidecar) == Some(true);
    if sidecar && !artifact then Failed(OrphanSidecar)
    else if artifact && !Holds(s, input.Final(Artifact), input.artifact) then Failed(Conflict(Artifact))
    else if sidecar && !Holds(s, input.Final(Sidecar), input.record) then Failed(Conflict(Sidecar))
    else LinkingArtifact
  }

  function LinkKind(pc: Pc): Kind {
    if pc.LinkingArtifact? then Artifact else Sidecar
  }

  function AfterLink(kind: Kind): Pc {
    if kind == Artifact then SyncingArtifact else SyncingSidecar
  }

  /** Link create-if-absent; an existing name is accepted only with equal bytes. */
  function LinkStep(s: State, p: Pid, ctime: nat): State
    requires Enabled(s, LinkFinal(p, ctime))
  {
    var input := s.pubs[p].input;
    var kind := LinkKind(s.pubs[p].pc);
    var name, i := input.Final(kind), Ino(p, kind);
    if name in s.entries then
      Goto(s, p, if Holds(s, name, input.Supplied(kind)) then AfterLink(kind) else Failed(Conflict(kind)))
    else if i in s.inodes then
      Goto(s, p, AfterLink(kind))
      .(entries := s.entries[name := i], inodes := s.inodes[i := s.inodes[i].(ctime := ctime)])
    else
      Goto(s, p, Failed(Interrupted))
  }

  /**
   * Power fails: every process dies, a file whose bytes were never forced to
   * disk may hold anything, and of the final names exactly the durable ones and
   * an arbitrary choice of the others survive.
   */
  function PowerLossStep(s: State, keep: set<Name>, keepStaged: set<Ino>, torn: map<Ino, Bytes>): State {
    var left := (map n | n in s.entries && n in keep :: s.entries[n]) + s.durable;
    State(
      map p | p in s.pubs :: s.pubs[p].(pc := Dead),
      map i | i in s.inodes ::
        s.inodes[i].(
          staged := s.inodes[i].staged && i in keepStaged,
          bytes := if s.inodes[i].synced || i !in torn then s.inodes[i].bytes else torn[i]),
      left,
      left,
      s.committed)
  }

  function Step(s: State, e: Event): State
    requires Enabled(s, e)
  {
    match e
    case Start(p, input) => s.(pubs := s.pubs[p := Publisher(input, Staging)])
    case Write(p, k, meta, ctime) =>
      s.(inodes := s.inodes[Ino(p, k) := Inode(s.pubs[p].input.Supplied(k), false, true, meta, ctime)])
    case SyncFile(p, k) => s.(inodes := s.inodes[Ino(p, k) := s.inodes[Ino(p, k)].(synced := true)])
    case CheckStaged(p) =>
      var input := s.pubs[p].input;
      if s.inodes[Ino(p, Artifact)].bytes != input.artifact then Goto(s, p, Failed(Conflict(Artifact)))
      else if s.inodes[Ino(p, Sidecar)].bytes != input.record then Goto(s, p, Failed(Conflict(Sidecar)))
      else Goto(s, p, Looking([]))
    case LookAt(p, k) =>
      var pub := s.pubs[p];
      Goto(s, p, Looking(pub.pc.looks + [Look(k, pub.input.Final(k) in s.entries)]))
    case Decide(p) => Goto(s, p, Decision(s, s.pubs[p].input, s.pubs[p].pc.looks))
    case LinkFinal(p, ctime) => LinkStep(s, p, ctime)
    case SyncDirectory(p) =>
      Goto(s, p, if s.pubs[p].pc.SyncingArtifact? then LinkingSidecar else Validating)
      .(durable := s.entries)
    case ValidatePair(p) =>
      var input := s.pubs[p].input;
      if !Holds(s, input.Final(Artifact), input.artifact) then Goto(s, p, Failed(Conflict(Artifact)))
      else if !Holds(s, input.Final(Sidecar), input.record) then Goto(s, p, Failed(Conflict(Sidecar)))
      else Goto(s, p, Committed).(committed := s.committed + {p})
    case Unstage(p, k, ctime) =>
      s.(inodes := s.inodes[Ino(p, k) := s.inodes[Ino(p, k)].(staged := false, ctime := ctime)])
    case Fail(p) => Goto(s, p, Failed(Interrupted))
    case Crash(p) => Goto(s, p, Dead)
    case PowerLoss(keep, keepStaged, torn) => PowerLossStep(s, keep, keepStaged, torn)
  }

  predicate Legal(s: State, run: seq<Event>)
    decreases |run|
  {
    run == [] || (Enabled(s, run[0]) && Legal(Step(s, run[0]), run[1..]))
  }

  function Run(s: State, run: seq<Event>): State
    requires Legal(s, run)
    decreases |run|
  {
    if run == [] then s else Run(Step(s, run[0]), run[1..])
  }
}
