/**
 * What one publisher can rely on while others run, and why its snapshots of a
 * file show either no change or the one expected transition: the staged link
 * of the winning publisher goes away and nlink drops from two to one.
 */
module PublicationReader {
  import opened Options
  import opened Publication
  import opened PublicationSafety

  datatype Stats = Stats(
    ino: Ino, size: nat, dev: nat, mtime: nat, mode: nat, uid: nat, gid: nat, nlink: nat, ctime: nat)

  datatype Transition = Stable | Retry | Changed

  /** Compare two snapshots of one file, in the order they were taken. */
  function ClassifyReadSnapshot(before: Stats, after: Stats): Transition {
    if before.dev != after.dev || before.ino != after.ino || before.size != after.size ||
       before.mtime != after.mtime || before.mode != after.mode || before.uid != after.uid ||
       before.gid != after.gid then Changed
    else if before.nlink == after.nlink && before.ctime == after.ctime then Stable
    else if before.nlink == 2 && after.nlink == 1 then Retry
    else Changed
  }

  /**
   * Whatever the two snapshots are: they are stable exactly when they are equal, and
   * to be taken again exactly when nothing but the change time differs and one link
   * of two is gone.
   */
  lemma EveryPairIsClassified(before: Stats, after: Stats)
    ensures ClassifyReadSnapshot(before, after).Stable? <==> after == before
    ensures ClassifyReadSnapshot(before, after).Retry? <==>
              before.nlink == 2 && after == before.(nlink := 1, ctime := after.ctime)
  {
  }

  /** The file stands under its final name. */
  predicate Published(s: State, i: Ino) {
    i.owner in s.pubs &&
    var name := s.pubs[i.owner].input.Final(i.kind);
    name in s.entries && s.entries[name] == i
  }

  function Nlink(s: State, i: Ino): nat
    requires i in s.inodes
  {
    (if s.inodes[i].staged then 1 else 0) + (if Published(s, i) then 1 else 0)
  }

  function StatOf(s: State, i: Ino): Stats
    requires i in s.inodes
  {
    var f := s.inodes[i];
    Stats(i, |f.bytes|, f.meta.dev, f.meta.mtime, f.meta.mode, f.meta.uid, f.meta.gid, Nlink(s, i), f.ctime)
  }

  /** A published file may lose its staged link, once; nothing else about it changes. */
  predicate Settles(a: Inode, b: Inode) {
    b == a || (a.staged && !b.staged && b == a.(staged := false, ctime := b.ctime))
  }

  /** Nothing that belongs to publisher `me` differs between the two states. */
  ghost predicate LeavesAlone(me: Pid, s: State, t: State) {
    (me in s.pubs <==> me in t.pubs) &&
    (me in s.pubs ==> t.pubs[me] == s.pubs[me]) &&
    (me in t.committed <==> me in s.committed) &&
    (forall k: Kind {:trigger Ino(me, k)} ::
       (Ino(me, k) in s.inodes <==> Ino(me, k) in t.inodes) &&
       (Ino(me, k) in s.inodes ==> t.inodes[Ino(me, k)] == s.inodes[Ino(me, k)])) &&
    (forall n <- t.entries :: t.entries[n].owner == me ==> n in s.entries && s.entries[n] == t.entries[n])
  }

  ghost predicate AllSettle(s: State, t: State) {
    forall i: Ino {:trigger Published(s, i)} ::
      Published(s, i) && i in s.inodes ==> i in t.inodes && Settles(s.inodes[i], t.inodes[i])
  }

  /** What every step of the other publishers leaves to publisher `me`. */
  ghost predicate Rely(me: Pid, s: State, t: State) {
    Grows(s, t) && LeavesAlone(me, s, t) && AllSettle(s, t)
  }

  predicate Foreign(me: Pid, e: Event) {
    !e.PowerLoss? && e.p != me
  }

  lemma StepSettles(s: State, e: Event, i: Ino)
    requires Inv(s) && Enabled(s, e) && !e.PowerLoss?
    requires Published(s, i) && i in s.inodes
    ensures i in Step(s, e).inodes && Settles(s.inodes[i], Step(s, e).inodes[i])
  {
    assert FileOk(s, i) && EntryOk(s, s.pubs[i.owner].input.Final(i.kind));
  }

  lemma StepLeavesAlone(me: Pid, s: State, e: Event)
    requires Enabled(s, e) && Foreign(me, e)
    ensures LeavesAlone(me, s, Step(s, e))
  {
  }

  lemma ForeignStepIsRelied(me: Pid, s: State, e: Event)
    requires Inv(s) && Enabled(s, e) && Foreign(me, e)
    ensures Rely(me, s, Step(s, e))
  {
    StepGrows(s, e);
    StepLeavesAlone(me, s, e);
    forall i: Ino | Published(s, i) && i in s.inodes
      ensures i in Step(s, e).inodes && Settles(s.inodes[i], Step(s, e).inodes[i])
    {
      StepSettles(s, e, i);
    }
  }

  lemma RelyIsTransitive(me: Pid, s: State, t: State, u: State)
    requires Rely(me, s, t) && Rely(me, t, u)
    ensures Rely(me, s, u)
  {
    forall i: Ino | Published(s, i) && i in s.inodes
      ensures i in u.inodes && Settles(s.inodes[i], u.inodes[i])
    {
      assert Published(t, i);
    }
  }

  /** The reader's own view of a path: a file it staged, or whatever a final name stands for. */
  datatype Path = Staged(kind: Kind) | Final(name: Name)

  function Resolve(s: State, me: Pid, path: Path): Option<Ino> {
    match path
    case Staged(kind) =>
      if Ino(me, kind) in s.inodes && s.inodes[Ino(me, kind)].staged then Some(Ino(me, kind)) else None
    case Final(name) =>
      if name in s.entries && s.entries[name] in s.inodes then Some(s.entries[name]) else None
  }

  /** A file that `me` can reach and whose own staging, if any, is over or its own. */
  ghost predicate Reachable(s: State, me: Pid, i: Ino) {
    i in s.inodes && (i.owner == me || Published(s, i))
  }

  lemma ResolvedIsReachable(s: State, me: Pid, path: Path)
    requires Inv(s) && Resolve(s, me, path).Some?
    ensures Reachable(s, me, Resolve(s, me, path).value)
  {
    if path.Final? {
      assert EntryOk(s, path.name);
    }
  }

  /**
   * Two ordered observations of one file with other publishers running between
   * them: the path still leads to it, its bytes are the same, and either no
   * field differs or its staged link went away in between.
   */
  lemma ObservationsAgree(s: State, t: State, me: Pid, path: Path, i: Ino)
    requires Inv(s) && Inv(t) && Rely(me, s, t) && Resolve(s, me, path) == Some(i)
    ensures Resolve(t, me, path) == Some(i) && t.inodes[i].bytes == s.inodes[i].bytes
    ensures ClassifyReadSnapshot(StatOf(s, i), StatOf(t, i)) ==
            if s.inodes[i].staged == t.inodes[i].staged then Stable else Retry
    ensures t.inodes[i].staged ==> s.inodes[i].staged
  {
    ResolvedIsReachable(s, me, path);
    if i.owner == me {
      assert t.inodes[i] == s.inodes[i];
      assert FileOk(s, i);
    } else {
      assert Published(t, i);
    }
  }

  /** The order matters: the same two observations taken as path before handle read as a change. */
  lemma ReversedObservationsMislead(s: State, t: State, me: Pid, path: Path, i: Ino)
    requires Inv(s) && Inv(t) && Rely(me, s, t) && Resolve(s, me, path) == Some(i)
    requires i in t.inodes && s.inodes[i].staged && !t.inodes[i].staged
    ensures ClassifyReadSnapshot(StatOf(t, i), StatOf(s, i)) == Changed
  {
    ObservationsAgree(s, t, me, path, i);
  }
}
