/** The native inspector at work on a filesystem that may change between any two calls. */
module PathInspectionHost {
  import opened Options
  import opened AbsolutePath
  import opened PathInspection

  /** What each call sees at its moment, and how many bytes each read is willing to give. */
  datatype Host = Host(
    look: (nat, string) -> Node, stat: (nat, Inode) -> Meta, content: (nat, Inode) -> Bytes, willing: nat -> nat)

  /** Nothing changes: what is seen at any moment is what was seen at the first one. */
  ghost predicate Stable(host: Host) {
    (forall now, path :: host.look(now, path) == host.look(0, path)) &&
    (forall now, inode :: host.stat(now, inode) == host.stat(0, inode)) &&
    (forall now, inode :: host.content(now, inode) == host.content(0, inode))
  }

  predicate MetaOk(meta: Meta) {
    0 <= meta.uid <= MAX_SAFE_INTEGER && 0 <= meta.gid <= MAX_SAFE_INTEGER && 0 <= meta.size <= MAX_SAFE_INTEGER &&
    -MAX_SAFE_INTEGER <= meta.mode <= MAX_SAFE_INTEGER
  }

  // ---- what a stable filesystem has at a path ----

  predicate GoesOn(host: Host, path: string) {
    var node := host.look(0, path);
    node.Link? && MetaOk(node.meta) && TargetOk(node.target)
  }

  function NextPath(host: Host, path: string): string
    requires GoesOn(host, path)
  {
    LeadsTo(path, host.look(0, path).target)
  }

  /** Where at most `left` more links lead to something that is no link. */
  function EndOf(host: Host, path: string, left: nat): Option<string>
    decreases left
  {
    if GoesOn(host, path) then
      if left == 0 then None else EndOf(host, NextPath(host, path), left - 1)
    else Some(path)
  }

  /** A regular file that can be read whole: within the limit, and as long as its metadata says. */
  predicate Readable(host: Host, requested: string, path: string, maxBytes: nat) {
    var node := host.look(0, path);
    node.Regular? && MetaOk(node.meta) && node.meta.size <= maxBytes && host.stat(0, node.inode) == node.meta &&
    |host.content(0, node.inode)| <= maxBytes &&
    ((requested == BOOT_ID && path == requested) || |host.content(0, node.inode)| == node.meta.size)
  }

  // ---- the walk along the links ----

  /** The entry holds what the path's own metadata say, and the target of a link. */
  predicate Describes(entry: ChainEntry, node: Node) {
    !node.Missing? && entry.uid == node.meta.uid && entry.gid == node.meta.gid && entry.mode == node.meta.mode % 0x1000 &&
    (node.Link? ==> entry.size == node.meta.size && entry.linkTarget == Some(node.target))
  }

  /** Every entry describes what a stable filesystem has at its path. */
  ghost predicate Described(host: Host, chain: seq<ChainEntry>) {
    forall i :: 0 <= i < |chain| ==> Describes(chain[i], host.look(0, chain[i].path))
  }

  /** The chain so far is what the links of a stable filesystem give. */
  ghost predicate Walked(host: Host, chain: seq<ChainEntry>, current: string) {
    forall i :: 0 <= i < |chain| ==> Step(host, chain, current, i)
  }

  function At(chain: seq<ChainEntry>, current: string, i: nat): string
    requires i <= |chain|
  {
    if i < |chain| then chain[i].path else current
  }

  ghost predicate Step(host: Host, chain: seq<ChainEntry>, current: string, i: nat)
    requires i < |chain|
  {
    GoesOn(host, chain[i].path) && NextPath(host, chain[i].path) == At(chain, current, i + 1)
  }

  lemma WalkedStep(host: Host, chain: seq<ChainEntry>, current: string, i: nat)
    requires Walked(host, chain, current) && i < |chain|
    ensures GoesOn(host, chain[i].path) && NextPath(host, chain[i].path) == At(chain, current, i + 1)
  {
    assert Step(host, chain, current, i);
  }

  lemma OneLink(host: Host, path: string, next: string, left: nat)
    requires GoesOn(host, path) && NextPath(host, path) == next
    ensures EndOf(host, path, left) == if left == 0 then None else EndOf(host, next, left - 1)
  {
  }

  lemma {:induction false} EndAlongTheWalk(host: Host, chain: seq<ChainEntry>, current: string, i: nat, left: nat)
    requires Walked(host, chain, current) && i <= |chain|
    ensures EndOf(host, At(chain, current, i), left) ==
              if left >= |chain| - i then EndOf(host, current, left - (|chain| - i)) else None
    decreases |chain| - i
  {
    if i < |chain| {
      WalkedStep(host, chain, current, i);
      OneLink(host, chain[i].path, At(chain, current, i + 1), left);
      if left > 0 {
        EndAlongTheWalk(host, chain, current, i + 1, left - 1);
      }
    }
  }

  /** A walk that comes back to where it was has no end. */
  lemma {:induction false} CycleHasNoEnd(host: Host, chain: seq<ChainEntry>, current: string, i: nat, left: nat)
    requires Walked(host, chain, current) && i < |chain| && chain[i].path == current
    ensures EndOf(host, current, left) == None
    decreases left
  {
    EndAlongTheWalk(host, chain, current, i, left);
    if left >= |chain| - i {
      CycleHasNoEnd(host, chain, current, i, left - (|chain| - i));
    }
  }

  lemma WalkedOn(host: Host, chain: seq<ChainEntry>, current: string, entry: ChainEntry)
    requires Walked(host, chain, current) && entry.path == current && GoesOn(host, current)
    ensures Walked(host, chain + [entry], NextPath(host, current))
  {
    var longer, next := chain + [entry], NextPath(host, current);
    forall i | 0 <= i < |longer|
      ensures Step(host, longer, next, i)
    {
      if i < |chain| {
        assert Step(host, chain, current, i);
      }
    }
  }

  ghost predicate NoPathTwice(chain: seq<ChainEntry>) {
    forall i, j :: 0 <= i < j < |chain| ==> chain[i].path != chain[j].path
  }

  /** What looking at one path came to. */
  datatype Visit = Failed | Gone | Followed(entry: ChainEntry) | Ended(entry: ChainEntry, hashed: Bytes)

  /** In a stable filesystem a look tells what is there. */
  ghost predicate Seen(host: Host, requested: string, current: string, maxBytes: nat, visit: Visit) {
    (visit.Gone? <==> host.look(0, current).Missing?) && (visit.Followed? <==> GoesOn(host, current)) &&
    (visit.Followed? ==> After(visit.entry) == NextPath(host, current)) &&
    (visit.Ended? <==> Readable(host, requested, current, maxBytes)) &&
    (visit.Ended? ==> visit.hashed == host.content(0, host.look(0, current).inode)) &&
    (visit.Followed? || visit.Ended? ==> Describes(visit.entry, host.look(0, current)))
  }

  /** The right answer for a stable filesystem. */
  ghost predicate Right(host: Host, path: string, maxBytes: nat, r: Option<Inspection>) {
    var end := EndOf(host, path, MAX_SYMLINKS);
    (r == Some(AbsentPath(path, [])) <==> host.look(0, path).Missing?) &&
    (r.Some? && r.value.PresentPath? <==> end.Some? && Readable(host, path, end.value, maxBytes)) &&
    (r.Some? && r.value.PresentPath? ==>
       r.value.resolvedPath == end.value && r.value.hashed == host.content(0, host.look(0, end.value).inode) &&
       Described(host, r.value.chain))
  }

  ghost predicate WalkOk(host: Host, chain: seq<ChainEntry>, path: string, current: string) {
    Linked(chain, path, current) && CanonicalAbsolute(current) && NoPathTwice(chain) && Course(host, chain, path, current)
  }

  ghost predicate Course(host: Host, chain: seq<ChainEntry>, path: string, current: string) {
    At(chain, current, 0) == path && (Stable(host) ==> Walked(host, chain, current) && Described(host, chain))
  }

  function Paths(chain: seq<ChainEntry>): (paths: set<string>)
    ensures forall path :: path in paths <==> exists i :: 0 <= i < |chain| && chain[i].path == path
  {
    set entry <- chain :: entry.path
  }

  /** In a stable filesystem the rest of the walk decides, and a repeated path decides against it. */
  lemma RestDecides(host: Host, chain: seq<ChainEntry>, path: string, current: string)
    requires Course(host, chain, path, current)
    ensures Stable(host) ==>
              EndOf(host, path, MAX_SYMLINKS) ==
                if |chain| <= MAX_SYMLINKS then EndOf(host, current, MAX_SYMLINKS - |chain|) else None
    ensures Stable(host) && chain != [] ==> GoesOn(host, path)
  {
    if Stable(host) {
      EndAlongTheWalk(host, chain, current, 0, MAX_SYMLINKS);
      assert chain != [] ==> Step(host, chain, current, 0);
    }
  }

  lemma CycleDecides(host: Host, chain: seq<ChainEntry>, current: string, i: nat, left: nat)
    requires Walked(host, chain, current) && i < |chain| && chain[i].path == current
    ensures EndOf(host, chain[0].path, left) == None && GoesOn(host, chain[0].path)
  {
    assert Step(host, chain, current, 0);
    EndAlongTheWalk(host, chain, current, 0, left);
    if left >= |chain| {
      CycleHasNoEnd(host, chain, current, i, left - |chain|);
    }
  }

  lemma NoEnd(host: Host, path: string, maxBytes: nat)
    requires GoesOn(host, path) && EndOf(host, path, MAX_SYMLINKS) == None
    ensures Right(host, path, maxBytes, None)
  {
  }

  lemma RepeatedPath(host: Host, chain: seq<ChainEntry>, path: string, current: string, maxBytes: nat)
    requires Course(host, chain, path, current) && |chain| <= MAX_SYMLINKS
    requires current in Paths(chain)
    ensures Stable(host) ==> Right(host, path, maxBytes, None)
  {
    if Stable(host) {
      var i :| 0 <= i < |chain| && chain[i].path == current;
      CycleDecides(host, chain, current, i, MAX_SYMLINKS);
      NoEnd(host, path, maxBytes);
    }
  }

  lemma FailedVisit(host: Host, chain: seq<ChainEntry>, path: string, current: string, maxBytes: nat, visit: Visit)
    requires Course(host, chain, path, current) && |chain| <= MAX_SYMLINKS
    requires visit.Failed? || (visit.Gone? && chain != [])
    requires Stable(host) ==> Seen(host, path, current, maxBytes, visit)
    ensures Stable(host) ==> Right(host, path, maxBytes, None)
  {
    RestDecides(host, chain, path, current);
  }

  lemma TooManyLinks(host: Host, chain: seq<ChainEntry>, path: string, current: string, maxBytes: nat)
    requires Course(host, chain, path, current) && |chain| == MAX_SYMLINKS + 1
    ensures Stable(host) ==> Right(host, path, maxBytes, None)
  {
    RestDecides(host, chain, path, current);
  }

  lemma ExtendWalk(
    host: Host, chain: seq<ChainEntry>, path: string, current: string, entry: ChainEntry, maxBytes: nat)
    requires WalkOk(host, chain, path, current) && LinkEntryOk(entry) && entry.path == current
    requires current !in Paths(chain)
    requires Stable(host) ==> Seen(host, path, current, maxBytes, Followed(entry))
    ensures WalkOk(host, chain + [entry], path, After(entry)) && Paths(chain + [entry]) == Paths(chain) + {current}
  {
    assert forall i :: 0 <= i <= |chain| ==> (chain + [entry])[i].path == if i < |chain| then chain[i].path else current;
    LinkedExtends(chain, path, current, entry);
    LeadsToCanonical(current, entry.linkTarget.value);
    NewPathIsNotTwice(chain, entry);
    if Stable(host) {
      WalkedOn(host, chain, current, entry);
    }
  }

  lemma NewPathIsNotTwice(chain: seq<ChainEntry>, entry: ChainEntry)
    requires NoPathTwice(chain) && entry.path !in Paths(chain)
    ensures NoPathTwice(chain + [entry])
  {
    assert forall i :: 0 <= i < |chain| ==> chain[i].path in Paths(chain);
  }

  lemma EndOfWalk(host: Host, chain: seq<ChainEntry>, path: string, current: string, maxBytes: nat, visit: Visit)
    requires WalkOk(host, chain, path, current) && |chain| <= MAX_SYMLINKS && visit.Ended?
    requires visit.entry.path == current && FileEntryOk(visit.entry, maxBytes) && visit.entry.size == |visit.hashed|
    requires current !in Paths(chain)
    requires Stable(host) ==> Seen(host, path, current, maxBytes, visit)
    ensures var result := PresentPath(path, current, chain + [visit.entry], visit.hashed);
            Sound(result, path, maxBytes) && (Stable(host) ==> Right(host, path, maxBytes, Some(result)))
  {
    EndIsSound(chain, path, current, maxBytes, visit);
    if Stable(host) {
      RestDecides(host, chain, path, current);
    }
  }

  lemma EndIsSound(chain: seq<ChainEntry>, path: string, current: string, maxBytes: nat, visit: Visit)
    requires Linked(chain, path, current) && NoPathTwice(chain) && |chain| <= MAX_SYMLINKS && visit.Ended?
    requires visit.entry.path == current && FileEntryOk(visit.entry, maxBytes) && visit.entry.size == |visit.hashed|
    requires current !in Paths(chain)
    ensures Sound(PresentPath(path, current, chain + [visit.entry], visit.hashed), path, maxBytes)
  {
    NewPathIsNotTwice(chain, visit.entry);
    assert (chain + [visit.entry])[..|chain|] == chain;
  }

  /** What holds of every result: it passes the check, repeats no path, and counts the bytes it digested. */
  ghost predicate Sound(result: Inspection, path: string, maxBytes: nat) {
    ValidInspection(result, path, maxBytes) && NoPathTwice(result.chain) &&
    (result.PresentPath? ==> result.chain[|result.chain| - 1].size == |result.hashed|)
  }

  // ---- the inspector ----

  class Inspector {
    const host: Host
    var now: nat

    constructor (host: Host)
      ensures this.host == host
    {
      this.host, now := host, 0;
    }

    method Lstat(path: string) returns (node: Node)
      modifies this
      ensures node == host.look(old(now), path)
    {
      node := host.look(now, path);
      now := now + 1;
    }

    method Stat(inode: Inode) returns (meta: Meta)
      modifies this
      ensures meta == host.stat(old(now), inode)
    {
      meta := host.stat(now, inode);
      now := now + 1;
    }

    /** A positional read: at least one byte unless the file ends there, and never more than the buffer. */
    method ReadAt(inode: Inode, offset: nat, length: nat) returns (bytes: Bytes)
      requires length > 0
      modifies this
      ensures |bytes| <= length
      ensures var content := host.content(old(now), inode);
              if offset >= |content| then bytes == []
              else 0 < |bytes| <= |content| - offset && bytes == content[offset..offset + |bytes|]
    {
      var content := host.content(now, inode);
      if offset >= |content| {
        bytes := [];
      } else {
        var wish := if host.willing(now) == 0 then 1 else host.willing(now);
        var most := if length < |content| - offset then length else |content| - offset;
        var count := if wish < most then wish else most;
        bytes := content[offset..offset + count];
      }
      now := now + 1;
    }

    /** Read a whole file into the digest. The buffer is never empty. */
    method ReadWhole(inode: Inode, maxBytes: nat) returns (hashed: Option<Bytes>)
      modifies this
      ensures hashed.Some? ==> |hashed.value| <= maxBytes
      ensures Stable(host) ==>
                hashed == if |host.content(0, inode)| <= maxBytes then Some(host.content(0, inode)) else None
    {
      var offset, taken := 0, [];
      while true
        invariant offset == |taken| <= maxBytes
        invariant Stable(host) ==> taken <= host.content(0, inode)
        decreases maxBytes - offset
      {
        var length := if maxBytes + 1 - offset < BUFFER_BYTES then maxBytes + 1 - offset else BUFFER_BYTES;
        assert 0 < length;
        var bytes := ReadAt(inode, offset, length);
        if |bytes| == 0 {
          assert Stable(host) ==> taken == host.content(0, inode);
          return Some(taken);
        }
        offset := offset + |bytes|;
        if offset > maxBytes {
          return None;
        }
        taken := taken + bytes;
      }
    }

    /** The end of the walk: a regular file, unchanged while it is read. */
    method InspectFile(requested: string, current: string, node: Node, maxBytes: nat) returns (r: Option<(ChainEntry, Bytes)>)
      requires CanonicalAbsolute(current) && maxBytes <= MAX_SAFE_INTEGER
      requires !node.Missing? && MetaOk(node.meta) && !node.Link?
      modifies this
      ensures r.Some? ==> r.value.0.path == current && FileEntryOk(r.value.0, maxBytes) && r.value.0.size == |r.value.1|
      ensures Stable(host) && node == host.look(0, current) ==>
                (r.Some? <==> Readable(host, requested, current, maxBytes)) &&
                (r.Some? ==> r.value.1 == host.content(0, node.inode) && Describes(r.value.0, node))
    {
      var virtualContent := requested == BOOT_ID && current == requested;
      if !node.Regular? || node.meta.size > maxBytes {
        return None;
      }
      var found := Lstat(current);
      if !found.Regular? {
        return None;
      }
      var inode := found.inode;
      var handleMeta := Stat(inode);
      if handleMeta != node.meta {
        return None;
      }
      var hashed := ReadWhole(inode, maxBytes);
      if hashed.None? {
        return None;
      }
      var finalMeta := Stat(inode);
      if finalMeta != handleMeta || (!virtualContent && |hashed.value| != handleMeta.size) {
        return None;
      }
      var entry := ChainEntry(
        current, RegularEntry, finalMeta.uid, finalMeta.gid, finalMeta.mode % 0x1000, |hashed.value|, None);
      return Some((entry, hashed.value));
    }

    /** One link of the walk, seen the same before and after its target is read. */
    method InspectLink(current: string, node: Node) returns (r: Option<ChainEntry>)
      requires CanonicalAbsolute(current) && node.Link? && MetaOk(node.meta)
      modifies this
      ensures r.Some? ==> LinkEntryOk(r.value) && r.value.path == current
      ensures Stable(host) && node == host.look(0, current) ==>
                (r.Some? <==> GoesOn(host, current)) &&
                (r.Some? ==> After(r.value) == NextPath(host, current) && Describes(r.value, node))
    {
      var read := Lstat(current);
      if !read.Link? {
        return None;
      }
      var linkTarget := read.target;
      var rechecked := Lstat(current);
      if rechecked.Missing? || rechecked.meta != node.meta || !TargetOk(linkTarget) {
        return None;
      }
      return Some(ChainEntry(
        current, SymlinkEntry, node.meta.uid, node.meta.gid, node.meta.mode % 0x1000, node.meta.size, Some(linkTarget)));
    }

    /** Look at one path of the walk. */
    method Visit(requested: string, current: string, maxBytes: nat) returns (visit: Visit)
      requires CanonicalAbsolute(current) && maxBytes <= MAX_SAFE_INTEGER
      modifies this
      ensures visit.Followed? ==> LinkEntryOk(visit.entry) && visit.entry.path == current
      ensures visit.Ended? ==>
                visit.entry.path == current && FileEntryOk(visit.entry, maxBytes) && visit.entry.size == |visit.hashed|
      ensures Stable(host) ==> Seen(host, requested, current, maxBytes, visit)
    {
      var node := Lstat(current);
      if node.Missing? {
        return Gone;
      }
      var meta := node.meta;
      if meta.uid < 0 || meta.uid > MAX_SAFE_INTEGER || meta.gid < 0 || meta.gid > MAX_SAFE_INTEGER ||
         meta.size < 0 || meta.size > MAX_SAFE_INTEGER || meta.mode < -MAX_SAFE_INTEGER || meta.mode > MAX_SAFE_INTEGER {
        return Failed;
      }
      if node.Link? {
        var entry := InspectLink(current, node);
        return if entry.Some? then Followed(entry.value) else Failed;
      }
      var file := InspectFile(requested, current, node, maxBytes);
      return if file.Some? then Ended(file.value.0, file.value.1) else Failed;
    }

    /** Follow the links from a canonical path and read the file at their end. */
    method NativeInspectPath(path: string, maxBytes: nat) returns (r: Option<Inspection>)
      requires CanonicalAbsolute(path) && maxBytes <= MAX_SAFE_INTEGER
      modifies this
      ensures r.Some? ==> Sound(r.value, path, maxBytes)
      ensures Stable(host) ==> Right(host, path, maxBytes, r)
    {
      var chain: seq<ChainEntry> := [];
      var current := path;
      var seen: set<string> := {};
      for depth := 0 to MAX_SYMLINKS + 1
        invariant |chain| == depth && WalkOk(host, chain, path, current)
        invariant seen == Paths(chain)
      {
        RestDecides(host, chain, path, current);
        if current in seen {
          RepeatedPath(host, chain, path, current, maxBytes);
          return None;
        }
        seen := seen + {current};
        var visit := Visit(path, current, maxBytes);
        if visit.Failed? || (visit.Gone? && depth > 0) {
          FailedVisit(host, chain, path, current, maxBytes, visit);
          return None;
        }
        match visit {
        case Gone =>
          return Some(AbsentPath(path, []));
        case Followed(entry) =>
          ExtendWalk(host, chain, path, current, entry, maxBytes);
          chain := chain + [entry];
          current := After(entry);
        case Ended(entry, hashed) =>
          EndOfWalk(host, chain, path, current, maxBytes, visit);
          return Some(PresentPath(path, current, chain + [entry], hashed));
        }
      }
      RestDecides(host, chain, path, current);
      TooManyLinks(host, chain, path, current, maxBytes);
      return None;
    }
  }
}
