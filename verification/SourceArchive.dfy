/** Acceptance of a source archive, and of what it was extracted to, against the files of one commit. */
module SourceArchive {
  import opened Options
  import opened Texts
  import opened ArchivePath
  import opened GitTree

  const MAX_FILE_BYTES := 2 * 1024 * 1024
  const MAX_EXPANDED_BYTES := 32 * 1024 * 1024
  const FILE_MODE := 420          // 0644
  const EXECUTABLE_MODE := 493    // 0755

  const REQUIRED_SOURCE_FILES: seq<string> := [
    "package.json",
    "package-lock.json",
    "scripts/aws-host-retained-storage-host-preflight-sea-delivery.js",
    "scripts/collect-aws-host-retained-storage-preflight-linux.js",
    "scripts/aws-host-retained-storage-host-preflight.js",
    "src/core/lib/node-sea.js",
    "src/core/runtime/canonical-order.js",
    "src/core/runtime/content-id.js",
    "src/core/runtime/json-value.js",
    "src/core/runtime/manifest-security.js"]

  datatype Kind = File | Directory | Other

  /** One archive member; `objectId` is the Git blob ID of its bytes. */
  datatype Member = Member(kind: Kind, rawPath: string, size: int, mode: int, objectId: string)

  /** What a member comes to once its path is read. */
  datatype Line = Line(path: string, kind: Kind, blob: Blob)

  /** The member is a file or a directory in order, and this is what it comes to. */
  ghost predicate Reads(member: Member, line: Line) {
    line.kind == member.kind && line.blob == Blob(member.mode == EXECUTABLE_MODE, member.objectId) &&
    Canonical(line.path) && |member.rawPath| <= MAX_PATH_BYTES && member.size >= 0 &&
    match member.kind
    case Other => false
    case File =>
      member.rawPath == line.path && member.size <= MAX_FILE_BYTES &&
      (member.mode == FILE_MODE || member.mode == EXECUTABLE_MODE)
    case Directory => member.rawPath == line.path + "/" && member.mode == EXECUTABLE_MODE
  }

  ghost predicate AllRead(members: seq<Member>, lines: seq<Line>) {
    |members| == |lines| && forall i :: 0 <= i < |lines| ==> Reads(members[i], lines[i])
  }

  function Total(members: seq<Member>): int {
    if members == [] then 0 else Total(members[..|members| - 1]) + members[|members| - 1].size
  }

  ghost predicate DistinctLines(lines: seq<Line>) {
    forall i, j :: 0 <= i < j < |lines| ==> lines[i].path != lines[j].path
  }

  /** Every member is in order, no path is named twice, and the limits are kept. */
  ghost predicate WellFormed(members: seq<Member>, lines: seq<Line>) {
    |members| <= MAX_ENTRIES && Total(members) <= MAX_EXPANDED_BYTES && AllRead(members, lines) && DistinctLines(lines)
  }

  // ---- what an archive says ----

  function KindsOf(lines: seq<Line>): map<string, Kind> {
    if lines == [] then map[]
    else KindsOf(lines[..|lines| - 1])[lines[|lines| - 1].path := lines[|lines| - 1].kind]
  }

  function BlobsOf(lines: seq<Line>): map<string, Blob> {
    if lines == [] then map[]
    else
      var front, last := BlobsOf(lines[..|lines| - 1]), lines[|lines| - 1];
      if last.kind == File then front[last.path := last.blob] else front
  }

  predicate SlashAt(path: string, k: nat) {
    k < |path| && path[k] == '/'
  }

  predicate DirectoryAt(kinds: map<string, Kind>, path: string) {
    path in kinds && kinds[path] == Directory
  }

  /** Wherever the path has a slash, what stands before it is an explicit directory. */
  ghost predicate Parented(kinds: map<string, Kind>, path: string) {
    forall k: nat :: SlashAt(path, k) ==> DirectoryAt(kinds, path[..k])
  }

  ghost predicate Rooted(kinds: map<string, Kind>) {
    forall path <- kinds :: Parented(kinds, path)
  }

  predicate Required(kinds: map<string, Kind>) {
    forall path <- REQUIRED_SOURCE_FILES :: path in kinds && kinds[path] == File
  }

  /** The archive is in order, rooted and complete, and its files are exactly those of the commit. */
  ghost predicate Acceptable(members: seq<Member>, lines: seq<Line>, commitTree: map<string, Blob>) {
    WellFormed(members, lines) && Rooted(KindsOf(lines)) && Required(KindsOf(lines)) && BlobsOf(lines) == commitTree
  }

  /** The maps say of every path what its one member says. */
  ghost predicate Says(line: Line, kinds: map<string, Kind>, blobs: map<string, Blob>) {
    line.path in kinds && kinds[line.path] == line.kind && (line.path in blobs <==> line.kind == File) &&
    (line.kind == File ==> blobs[line.path] == line.blob)
  }

  ghost predicate Named(lines: seq<Line>, path: string) {
    exists i :: 0 <= i < |lines| && lines[i].path == path
  }

  lemma {:induction false} MapsHoldTheLines(lines: seq<Line>)
    requires DistinctLines(lines)
    ensures forall i :: 0 <= i < |lines| ==> Says(lines[i], KindsOf(lines), BlobsOf(lines))
    ensures forall path :: path in KindsOf(lines) <==> Named(lines, path)
    ensures BlobsOf(lines).Keys <= KindsOf(lines).Keys
  {
    if lines != [] {
      var front, last := lines[..|lines| - 1], lines[|lines| - 1];
      MapsHoldTheLines(front);
      assert lines[|lines| - 1] == last;
      forall path
        ensures path in KindsOf(lines) <==> Named(lines, path)
      {
        if Named(front, path) {
          var i :| 0 <= i < |front| && front[i].path == path;
          assert lines[i].path == path;
        }
        if Named(lines, path) && path != last.path {
          var i :| 0 <= i < |lines| && lines[i].path == path;
          assert front[i].path == path;
        }
      }
      forall i | 0 <= i < |lines|
        ensures Says(lines[i], KindsOf(lines), BlobsOf(lines))
      {
        if i < |front| {
          assert Says(front[i], KindsOf(front), BlobsOf(front));
          assert lines[i].path != last.path;
        } else {
          NotInFront(lines);
        }
      }
    }
  }

  lemma NotInFront(lines: seq<Line>)
    requires lines != [] && DistinctLines(lines)
    ensures !Named(lines[..|lines| - 1], lines[|lines| - 1].path)
  {
  }

  /** In an acceptable archive nothing lies beneath a file. */
  lemma NothingBeneathAFile(kinds: map<string, Kind>, file: string, path: string)
    requires Rooted(kinds) && file in kinds && kinds[file] == File && path in kinds
    ensures !(file + "/" <= path)
  {
    assert Parented(kinds, path);
    if file + "/" <= path {
      SlashAfter(file, path);
    }
  }

  lemma SlashAfter(parent: string, path: string)
    requires parent + "/" <= path
    ensures SlashAt(path, |parent|) && path[..|parent|] == parent
  {
    assert (parent + "/")[|parent|] == '/';
  }

  // ---- prefixes of an archive ----

  lemma {:induction false} TotalGrows(members: seq<Member>, lines: seq<Line>, n: nat)
    requires n <= |members| && AllRead(members, lines)
    ensures Total(members[..n]) <= Total(members)
    decreases |members|
  {
    if n < |members| {
      var last := |members| - 1;
      assert Reads(members[last], lines[last]);
      assert members[..last][..n] == members[..n];
      TotalGrows(members[..last], lines[..last], n);
    } else {
      assert members[..n] == members;
    }
  }

  lemma PrefixIsWellFormed(members: seq<Member>, lines: seq<Line>, n: nat)
    requires WellFormed(members, lines) && n <= |members|
    ensures WellFormed(members[..n], lines[..n])
  {
    TotalGrows(members, lines, n);
  }

  /** A member reads in one way only. */
  lemma ReadsOnce(member: Member, a: Line, b: Line)
    requires Reads(member, a) && Reads(member, b)
    ensures a == b
  {
    if member.kind == Directory {
      assert a.path == member.rawPath[..|member.rawPath| - 1] == b.path;
    }
  }

  lemma {:induction false} AllReadOnce(members: seq<Member>, a: seq<Line>, b: seq<Line>)
    requires AllRead(members, a) && AllRead(members, b)
    ensures a == b
  {
    forall i | 0 <= i < |members|
      ensures a[i] == b[i]
    {
      ReadsOnce(members[i], a[i], b[i]);
    }
  }

  /** What one more member needs, whichever way it reads. */
  ghost predicate Fits(members: seq<Member>, lines: seq<Line>, member: Member, line: Line) {
    Reads(member, line) && ValidateArchivePath(member.rawPath, member.kind == Directory) == Ok(line.path) &&
    |lines| < MAX_ENTRIES && line.path !in KindsOf(lines) && Total(members) + member.size <= MAX_EXPANDED_BYTES
  }

  lemma TotalOfLonger(members: seq<Member>, member: Member)
    ensures Total(members + [member]) == Total(members) + member.size
  {
    assert (members + [member])[..|members|] == members;
  }

  lemma DistinctLonger(lines: seq<Line>, line: Line)
    requires DistinctLines(lines)
    ensures DistinctLines(lines + [line]) <==> line.path !in KindsOf(lines)
  {
    var all := lines + [line];
    MapsHoldTheLines(lines);
    assert all[|lines|] == line && forall i :: 0 <= i < |lines| ==> all[i] == lines[i];
    if Named(lines, line.path) {
      var i :| 0 <= i < |lines| && lines[i].path == line.path;
      assert all[i].path == all[|lines|].path;
    }
  }

  lemma FitsExactly(members: seq<Member>, lines: seq<Line>, member: Member, line: Line)
    requires WellFormed(members, lines)
    ensures WellFormed(members + [member], lines + [line]) <==> Fits(members, lines, member, line)
  {
    TotalOfLonger(members, member);
    DistinctLonger(lines, line);
    AcceptsExactlyCanonicalPaths(member.rawPath, member.kind == Directory, line.path);
    if Reads(member, line) {
      FitsAll(members, lines, member, line);
    } else {
      assert (members + [member])[|members|] == member && (lines + [line])[|lines|] == line;
    }
  }

  lemma FitsAll(members: seq<Member>, lines: seq<Line>, member: Member, line: Line)
    requires AllRead(members, lines) && Reads(member, line)
    ensures AllRead(members + [member], lines + [line])
  {
    var all, read := members + [member], lines + [line];
    forall i | 0 <= i < |read|
      ensures Reads(all[i], read[i])
    {
      if i < |lines| {
        assert all[i] == members[i] && read[i] == lines[i];
      }
    }
  }

  // ---- the first pass over the archive ----

  /** The reader's maps and counter stand for the members read so far. */
  ghost predicate Kept(
    members: seq<Member>, lines: seq<Line>, entries: map<string, Kind>, blobs: map<string, Blob>, expandedBytes: int)
  {
    WellFormed(members, lines) && entries == KindsOf(lines) && blobs == BlobsOf(lines) &&
    expandedBytes == Total(members) && |entries| == |lines|
  }

  lemma KeptLonger(
    members: seq<Member>, lines: seq<Line>, entries: map<string, Kind>, blobs: map<string, Blob>, expandedBytes: int,
    member: Member, line: Line)
    requires Kept(members, lines, entries, blobs, expandedBytes) && Fits(members, lines, member, line)
    ensures Kept(
              members + [member], lines + [line], entries[line.path := line.kind],
              if member.kind == File then blobs[line.path := line.blob] else blobs, expandedBytes + member.size)
  {
    FitsExactly(members, lines, member, line);
    assert (lines + [line])[..|lines|] == lines && (members + [member])[..|members|] == members;
  }

  /** The archive library's callback, and what it keeps. */
  class ArchiveReader {
    var entries: map<string, Kind>
    var archiveBlobs: map<string, Blob>
    var expandedBytes: int
    ghost var members: seq<Member>
    ghost var lines: seq<Line>

    constructor ()
      ensures Valid() && members == [] && lines == []
    {
      entries, archiveBlobs, expandedBytes, members, lines := map[], map[], 0, [], [];
    }

    ghost predicate Valid()
      reads this
    {
      Kept(members, lines, entries, archiveBlobs, expandedBytes)
    }

    /** Take one more member, or refuse the archive. */
    method OnReadEntry(member: Member) returns (ok: bool)
      requires Valid()
      modifies this
      ensures members == old(members) + [member]
      ensures ok ==> Valid() && exists line :: lines == old(lines) + [line]
      ensures !ok ==> forall line :: !WellFormed(members, old(lines) + [line])
    {
      var line := ReadMember(member, entries, expandedBytes, members, lines);
      NothingElseFits(members, lines, member, line);
      if line.None? {
        members := members + [member];
        return false;
      }
      Take(member, line.value);
      return true;
    }

    method Take(member: Member, line: Line)
      requires Valid() && Fits(members, lines, member, line)
      modifies this
      ensures Valid() && members == old(members) + [member] && lines == old(lines) + [line]
    {
      KeptLonger(members, lines, entries, archiveBlobs, expandedBytes, member, line);
      expandedBytes := expandedBytes + member.size;
      entries := entries[line.path := line.kind];
      if member.kind == File {
        archiveBlobs := archiveBlobs[line.path := line.blob];
      }
      members, lines := members + [member], lines + [line];
    }
  }

  /** The tests that the callback makes of a member. */
  method ReadMember(
    member: Member, entries: map<string, Kind>, expandedBytes: int, ghost members: seq<Member>, ghost lines: seq<Line>)
    returns (line: Option<Line>)
    requires entries == KindsOf(lines) && expandedBytes == Total(members) && |entries| == |lines|
    ensures line.Some? ==> Fits(members, lines, member, line.value)
    ensures line.None? ==> forall other :: !Fits(members, lines, member, other)
  {
    if member.kind == Other || |entries| >= MAX_ENTRIES {
      return None;
    }
    var path := ValidateArchivePath(member.rawPath, member.kind == Directory);
    if path.Err? || path.value in entries || member.size < 0 {
      return None;
    }
    if member.kind == File && member.size > MAX_FILE_BYTES {
      return None;
    }
    if expandedBytes + member.size > MAX_EXPANDED_BYTES {
      return None;
    }
    if member.kind == File && member.mode != FILE_MODE && member.mode != EXECUTABLE_MODE {
      return None;
    }
    if member.kind == Directory && member.mode != EXECUTABLE_MODE {
      return None;
    }
    AcceptsExactlyCanonicalPaths(member.rawPath, member.kind == Directory, path.value);
    return Some(Line(path.value, member.kind, Blob(member.mode == EXECUTABLE_MODE, member.objectId)));
  }

  lemma NothingElseFits(members: seq<Member>, lines: seq<Line>, member: Member, line: Option<Line>)
    requires WellFormed(members, lines)
    requires line.Some? ==> Fits(members, lines, member, line.value)
    requires line.None? ==> forall other :: !Fits(members, lines, member, other)
    ensures line.Some? ==> WellFormed(members + [member], lines + [line.value])
    ensures line.None? ==> forall other :: !WellFormed(members + [member], lines + [other])
  {
    forall other
      ensures WellFormed(members + [member], lines + [other]) <==> Fits(members, lines, member, other)
    {
      FitsExactly(members, lines, member, other);
    }
  }

  // ---- the second pass ----

  /** The parents that the validator looks up are what stands before the slashes. */
  lemma ParentsAreBeforeSlashes(kinds: map<string, Kind>, path: string)
    ensures Parented(kinds, path) <==>
              forall index :: 0 < index < |Split(path, '/')| ==> DirectoryAt(kinds, Join(Split(path, '/')[..index], '/'))
  {
    var components := Split(path, '/');
    JoinOfSplit(path, '/');
    forall index | 0 < index < |components|
      ensures SlashAt(path, |Join(components[..index], '/')|)
      ensures path[..|Join(components[..index], '/')|] == Join(components[..index], '/')
    {
      JoinOfPrefix(components, '/', index);
    }
    if forall index :: 0 < index < |components| ==> DirectoryAt(kinds, Join(components[..index], '/')) {
      forall k: nat | SlashAt(path, k)
        ensures DirectoryAt(kinds, path[..k])
      {
        var index := SeparatorIsAfterParts(components, '/', k);
        assert DirectoryAt(kinds, Join(components[..index], '/'));
      }
    }
  }

  method HasExplicitParents(entries: map<string, Kind>, path: string) returns (ok: bool)
    ensures ok <==> Parented(entries, path)
  {
    ParentsAreBeforeSlashes(entries, path);
    var components := Split(path, '/');
    for index := 1 to |components|
      invariant forall i :: 0 < i < index ==> DirectoryAt(entries, Join(components[..i], '/'))
    {
      var parent := Join(components[..index], '/');
      if parent !in entries || entries[parent] != Directory {
        assert !DirectoryAt(entries, Join(components[..index], '/'));
        return false;
      }
    }
    return true;
  }

  method HasRequiredFiles(entries: map<string, Kind>) returns (ok: bool)
    ensures ok <==> Required(entries)
  {
    var required := REQUIRED_SOURCE_FILES;
    for k := 0 to |required|
      invariant forall j :: 0 <= j < k ==> required[j] in entries && entries[required[j]] == File
    {
      if required[k] !in entries || entries[required[k]] != File {
        assert required[k] in required;
        return false;
      }
    }
    return true;
  }

  /** Equal sizes and one-sided agreement make two maps equal. */
  lemma SameSizeSameMap<V>(a: map<string, V>, b: map<string, V>)
    requires |a| == |b| && forall key <- b :: key in a && a[key] == b[key]
    ensures a == b
  {
    assert b.Keys <= a.Keys;
    assert |a.Keys - b.Keys| == |a.Keys| - |b.Keys|;
    assert a.Keys - b.Keys == {};
    assert a.Keys == b.Keys;
  }

  /** All entries of the map are among those of the other. */
  method Agrees<V(==)>(a: map<string, V>, b: map<string, V>) returns (ok: bool)
    ensures ok <==> a == b
  {
    if |a| != |b| {
      return false;
    }
    var remaining := b.Keys;
    while remaining != {}
      invariant remaining <= b.Keys
      invariant forall key <- b.Keys - remaining :: key in a && a[key] == b[key]
      decreases |remaining|
    {
      var key :| key in remaining;
      if key !in a || a[key] != b[key] {
        return false;
      }
      remaining := remaining - {key};
    }
    SameSizeSameMap(a, b);
    return true;
  }

  /** Accept exactly an archive that is in order and whose files are those of the commit. */
  method ValidateSourceArchive(members: seq<Member>, commitTree: map<string, Blob>) returns (r: Option<map<string, Kind>>)
    ensures r.Some? <==> exists lines :: Acceptable(members, lines, commitTree)
    ensures forall lines :: Acceptable(members, lines, commitTree) ==> r == Some(KindsOf(lines))
  {
    var reader := new ArchiveReader();
    for n := 0 to |members|
      invariant fresh(reader) && reader.Valid() && reader.members == members[..n]
    {
      ghost var before := reader.lines;
      var ok := reader.OnReadEntry(members[n]);
      assert members[..n + 1] == members[..n] + [members[n]];
      if !ok {
        NoneWellFormed(members, n + 1, before);
        return None;
      }
    }
    assert members[..|members|] == members;
    ghost var read := reader.lines;
    var entries, archiveBlobs := reader.entries, reader.archiveBlobs;
    OnlyReading(members, read, commitTree);
    var remaining := entries.Keys;
    while remaining != {}
      invariant remaining <= entries.Keys
      invariant forall path <- entries.Keys - remaining :: Parented(entries, path)
      decreases |remaining|
    {
      var path :| path in remaining;
      var rooted := HasExplicitParents(entries, path);
      if !rooted || (entries[path] == Directory && path in REQUIRED_SOURCE_FILES) {
        return None;
      }
      remaining := remaining - {path};
    }
    var complete := HasRequiredFiles(entries);
    if !complete {
      return None;
    }
    var same := Agrees(archiveBlobs, commitTree);
    if !same {
      return None;
    }
    assert Acceptable(members, read, commitTree);
    return Some(entries);
  }

  lemma NoneWellFormed(members: seq<Member>, n: nat, before: seq<Line>)
    requires 0 < n <= |members| && WellFormed(members[..n - 1], before)
    requires forall line :: !WellFormed(members[..n], before + [line])
    ensures forall lines :: !WellFormed(members, lines)
  {
    forall lines
      ensures !WellFormed(members, lines)
    {
      if WellFormed(members, lines) {
        PrefixIsWellFormed(members, lines, n - 1);
        AllReadOnce(members[..n - 1], before, lines[..n - 1]);
        assert lines[..n] == before + [lines[n - 1]];
        PrefixIsWellFormed(members, lines, n);
      }
    }
  }

  /** A well-formed archive reads in one way, so whether it is acceptable is settled by that reading. */
  lemma OnlyReading(members: seq<Member>, read: seq<Line>, commitTree: map<string, Blob>)
    requires WellFormed(members, read)
    ensures forall lines :: Acceptable(members, lines, commitTree) ==> lines == read
  {
    forall lines | Acceptable(members, lines, commitTree)
      ensures lines == read
    {
      AllReadOnce(members, lines, read);
    }
  }
}
