/** Inspection of a file through its symbolic links, and the check that every inspection must pass. */
module PathInspection {
  import opened Options
  import opened AbsolutePath
  import opened ArchivePath

  const MAX_SYMLINKS := 8
  const MAX_LINK_TARGET_BYTES := 4 * 1024
  const MAX_SAFE_INTEGER := 0x1F_FFFF_FFFF_FFFF
  const BUFFER_BYTES := 64 * 1024
  const BOOT_ID := "/proc/sys/kernel/random/boot_id"

  type Bytes = string
  type Inode = nat

  /** `stamp` stands for the device, the inode and the two times. */
  datatype Meta = Meta(uid: int, gid: int, mode: int, size: int, stamp: nat)

  datatype Node = Missing | Link(meta: Meta, target: string) | Regular(meta: Meta, inode: Inode) | Special(meta: Meta)

  datatype EntryKind = RegularEntry | SymlinkEntry

  datatype ChainEntry = ChainEntry(
    path: string, kind: EntryKind, uid: int, gid: int, mode: int, size: int, linkTarget: Option<string>)

  /** `hashed` is everything that went into the digest. */
  datatype Inspection =
    | AbsentPath(path: string, chain: seq<ChainEntry>)
    | PresentPath(path: string, resolvedPath: string, chain: seq<ChainEntry>, hashed: Bytes)

  // ---- the validator ----

  predicate TargetOk(target: string) {
    target != "" && NUL !in target && |target| <= MAX_LINK_TARGET_BYTES
  }

  predicate EntryOk(entry: ChainEntry) {
    CanonicalAbsolute(entry.path) && 0 <= entry.uid <= MAX_SAFE_INTEGER && 0 <= entry.gid <= MAX_SAFE_INTEGER &&
    0 <= entry.mode <= 0xFFF && 0 <= entry.size <= MAX_SAFE_INTEGER
  }

  predicate LinkEntryOk(entry: ChainEntry) {
    EntryOk(entry) && entry.kind == SymlinkEntry && entry.linkTarget.Some? && TargetOk(entry.linkTarget.value)
  }

  predicate FileEntryOk(entry: ChainEntry, maxBytes: nat) {
    EntryOk(entry) && entry.kind == RegularEntry && entry.linkTarget.None? && entry.size <= maxBytes
  }

  function After(entry: ChainEntry): string {
    if entry.linkTarget.Some? then LeadsTo(entry.path, entry.linkTarget.value) else entry.path
  }

  /** Each entry leads to the next, from the first path to the last. */
  ghost predicate Leads(chain: seq<ChainEntry>, first: string, last: string) {
    if chain == [] then first == last
    else
      var entry := chain[|chain| - 1];
      After(entry) == last && Leads(chain[..|chain| - 1], first, entry.path)
  }

  ghost predicate Linked(chain: seq<ChainEntry>, first: string, last: string) {
    Leads(chain, first, last) && forall i :: 0 <= i < |chain| ==> LinkEntryOk(chain[i])
  }

  /** All entries but the last are links that lead to it, and it is a regular file within the limit. */
  ghost predicate EndsInFile(chain: seq<ChainEntry>, first: string, last: string, maxBytes: nat)
    requires 0 < |chain|
  {
    var file := chain[|chain| - 1];
    Linked(chain[..|chain| - 1], first, last) && file.path == last && FileEntryOk(file, maxBytes)
  }

  /** A chain of at most eight links that ends in one regular file within the byte limit. */
  ghost predicate ValidInspection(result: Inspection, requestedPath: string, maxBytes: nat) {
    match result
    case AbsentPath(path, chain) => path == requestedPath && chain == []
    case PresentPath(path, resolvedPath, chain, _) =>
      path == requestedPath && 1 <= |chain| <= MAX_SYMLINKS + 1 &&
      EndsInFile(chain, requestedPath, resolvedPath, maxBytes)
  }

  method ValidatePathInspection(result: Inspection, requestedPath: string, maxBytes: nat) returns (ok: bool)
    ensures ok <==> ValidInspection(result, requestedPath, maxBytes)
  {
    if result.path != requestedPath {
      return false;
    }
    if result.AbsentPath? {
      return |result.chain| == 0;
    }
    var chain := result.chain;
    if |chain| < 1 || |chain| > MAX_SYMLINKS + 1 {
      return false;
    }
    var expectedPath := requestedPath;
    for index := 0 to |chain|
      invariant Walks(chain, index, requestedPath, expectedPath, maxBytes)
    {
      var next := CheckEntry(chain[index], expectedPath, index == |chain| - 1, maxBytes);
      EntryDecides(chain, index, requestedPath, expectedPath, maxBytes);
      if next.None? {
        return false;
      }
      expectedPath := next.value;
    }
    EndsOnce(chain, requestedPath, expectedPath, result.resolvedPath, maxBytes);
    return result.resolvedPath == expectedPath;
  }

  /** One entry of the chain: where the next one has to stand, if the entry is in order. */
  function CheckEntry(entry: ChainEntry, expectedPath: string, last: bool, maxBytes: nat): Option<string> {
    if !CanonicalAbsolute(entry.path) || entry.path != expectedPath || entry.uid < 0 || entry.uid > MAX_SAFE_INTEGER ||
       entry.gid < 0 || entry.gid > MAX_SAFE_INTEGER || entry.mode < 0 || entry.mode > 0xFFF ||
       entry.size < 0 || entry.size > MAX_SAFE_INTEGER then None
    else if entry.kind == SymlinkEntry then
      if entry.linkTarget.None? || entry.linkTarget.value == "" || NUL in entry.linkTarget.value ||
         |entry.linkTarget.value| > MAX_LINK_TARGET_BYTES || last then None
      else Some(LeadsTo(entry.path, entry.linkTarget.value))
    else if entry.linkTarget.Some? || !last || entry.size > maxBytes then None
    else Some(expectedPath)
  }

  /** The first entries are sound links that lead here; or all are read, and the last one is the file. */
  ghost predicate Walks(chain: seq<ChainEntry>, index: nat, first: string, at: string, maxBytes: nat)
    requires 0 < |chain| && index <= |chain|
  {
    if index < |chain| then Linked(chain[..index], first, at) else EndsInFile(chain, first, at, maxBytes)
  }

  lemma EndsOnce(chain: seq<ChainEntry>, first: string, a: string, b: string, maxBytes: nat)
    requires 0 < |chain| && EndsInFile(chain, first, a, maxBytes)
    ensures EndsInFile(chain, first, b, maxBytes) <==> a == b
  {
  }

  /** The entry stands here, and what it is leads there. */
  ghost predicate TakesOn(entry: ChainEntry, at: string, next: string, last: bool, maxBytes: nat) {
    entry.path == at && if last then FileEntryOk(entry, maxBytes) && next == at else LinkEntryOk(entry) && After(entry) == next
  }

  lemma CheckedTakesOn(entry: ChainEntry, at: string, next: string, last: bool, maxBytes: nat)
    ensures CheckEntry(entry, at, last, maxBytes) == Some(next) <==> TakesOn(entry, at, next, last, maxBytes)
  {
  }

  lemma WalkGoesOn(chain: seq<ChainEntry>, index: nat, first: string, at: string, next: string, maxBytes: nat)
    requires index < |chain| && Walks(chain, index, first, at, maxBytes)
    requires TakesOn(chain[index], at, next, index == |chain| - 1, maxBytes)
    ensures Walks(chain, index + 1, first, next, maxBytes)
  {
    if index < |chain| - 1 {
      LinkedExtends(chain[..index], first, at, chain[index]);
      assert chain[..index + 1] == chain[..index] + [chain[index]];
    }
  }

  lemma NoReading(chain: seq<ChainEntry>, index: nat, first: string, at: string, maxBytes: nat, resolved: string)
    requires index < |chain| && Walks(chain, index, first, at, maxBytes)
    requires EndsInFile(chain, first, resolved, maxBytes)
    ensures TakesOn(
              chain[index], at, if index == |chain| - 1 then at else After(chain[index]), index == |chain| - 1, maxBytes)
  {
    var links := chain[..|chain| - 1];
    assert links[..index] == chain[..index];
    PrefixLeads(links, first, resolved, index, at);
    assert index < |links| ==> links[index] == chain[index];
  }

  /** Every entry either takes the walk on, or no reading of the chain is in order. */
  lemma EntryDecides(chain: seq<ChainEntry>, index: nat, first: string, at: string, maxBytes: nat)
    requires index < |chain| && Walks(chain, index, first, at, maxBytes)
    ensures var next := CheckEntry(chain[index], at, index == |chain| - 1, maxBytes);
            if next.Some? then Walks(chain, index + 1, first, next.value, maxBytes)
            else forall resolved :: !EndsInFile(chain, first, resolved, maxBytes)
  {
    var last := index == |chain| - 1;
    var next := CheckEntry(chain[index], at, last, maxBytes);
    if next.Some? {
      CheckedTakesOn(chain[index], at, next.value, last, maxBytes);
      WalkGoesOn(chain, index, first, at, next.value, maxBytes);
    } else {
      forall resolved
        ensures !EndsInFile(chain, first, resolved, maxBytes)
      {
        if EndsInFile(chain, first, resolved, maxBytes) {
          NoReading(chain, index, first, at, maxBytes, resolved);
          CheckedTakesOn(chain[index], at, if last then at else After(chain[index]), last, maxBytes);
        }
      }
    }
  }

  lemma LinkedExtends(chain: seq<ChainEntry>, first: string, last: string, entry: ChainEntry)
    requires Linked(chain, first, last) && LinkEntryOk(entry) && entry.path == last
    ensures Linked(chain + [entry], first, After(entry))
  {
    assert (chain + [entry])[..|chain|] == chain;
  }

  /** If the whole chain leads on, the next entry stands where the walk has come to. */
  lemma {:induction false} PrefixLeads(chain: seq<ChainEntry>, first: string, last: string, n: nat, at: string)
    requires n <= |chain| && Leads(chain[..n], first, at) && Leads(chain, first, last)
    ensures if n < |chain| then chain[n].path == at else last == at
    decreases |chain|
  {
    if n == |chain| {
      assert chain[..n] == chain;
      OneEnd(chain, first, last, at);
    } else {
      var front, entry := chain[..|chain| - 1], chain[|chain| - 1];
      assert front[..n] == chain[..n];
      if n == |front| {
        assert front[..n] == front;
        OneEnd(front, first, entry.path, at);
      } else {
        PrefixLeads(front, first, entry.path, n, at);
        assert front[n] == chain[n];
      }
    }
  }

  lemma OneEnd(chain: seq<ChainEntry>, first: string, a: string, b: string)
    requires Leads(chain, first, a) && Leads(chain, first, b)
    ensures a == b
  {
  }
}
