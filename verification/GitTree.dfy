/** The NUL-terminated listing of a commit's files, and the parser that reads it back. */
module GitTree {
  import opened Options
  import opened Texts
  import opened ArchivePath
  import opened Encoding

  const MAX_ENTRIES := 4096

  datatype ObjectFormat = Sha1 | Sha256

  function IdLength(format: ObjectFormat): nat {
    if format == Sha1 then 40 else 64
  }

  datatype Blob = Blob(executable: bool, objectId: string)

  datatype Entry = Entry(path: string, blob: Blob)

  /** How a record of the listing is written: its two texts may each begin with a byte order mark. */
  datatype Record = Record(metadataMarked: bool, pathMarked: bool, entry: Entry)

  datatype TreeFault = Malformed | NonRegular | BadPath(fault: PathFault) | TooMany | Duplicate

  // ---- the printed form ----

  function Mode(executable: bool): string {
    if executable then "100755" else "100644"
  }

  function Metadata(blob: Blob): string {
    Mode(blob.executable) + " " + ("blob" + " " + blob.objectId)
  }

  function PrintRecord(record: Record): string {
    WithMark(record.metadataMarked, Metadata(record.entry.blob)) + "\t" + WithMark(record.pathMarked, record.entry.path)
  }

  function Print(records: seq<Record>): string {
    if records == [] then "" else PrintRecord(records[0]) + [NUL] + Print(records[1..])
  }

  /** The record as Git prints it. */
  function Bare(entry: Entry): Record {
    Record(false, false, entry)
  }

  function EntriesOf(records: seq<Record>): seq<Entry> {
    seq(|records|, i requires 0 <= i < |records| => records[i].entry)
  }

  predicate Hex(c: char) {
    '0' <= c <= '9' || 'a' <= c <= 'f'
  }

  predicate IdOk(id: string, format: ObjectFormat) {
    |id| == (match format case Sha1 => 40 case Sha256 => 64) && forall c <- id :: Hex(c)
  }

  predicate EntryOk(entry: Entry, format: ObjectFormat) {
    IdOk(entry.blob.objectId, format) && Canonical(entry.path) && |entry.path| <= MAX_PATH_BYTES
  }

  /** What is read is UTF-8 and has lost its mark: a path that begins with one was written with another before it. */
  predicate RecordOk(record: Record, format: ObjectFormat) {
    EntryOk(record.entry, format) && Utf8(record.entry.path) && (Marked(record.entry.path) ==> record.pathMarked)
  }

  /** Regular files with canonical paths, each named once, within the entry limit. */
  predicate Records(records: seq<Record>, format: ObjectFormat) {
    |records| <= MAX_ENTRIES && AllOk(records, format) && DistinctPaths(EntriesOf(records))
  }

  predicate AllOk(records: seq<Record>, format: ObjectFormat) {
    records == [] || (RecordOk(records[0], format) && AllOk(records[1..], format))
  }

  lemma {:induction false} OkAt(records: seq<Record>, format: ObjectFormat, k: nat)
    requires AllOk(records, format) && k < |records|
    ensures RecordOk(records[k], format)
  {
    if k > 0 {
      OkAt(records[1..], format, k - 1);
    }
  }

  predicate DistinctPaths(entries: seq<Entry>) {
    forall i, j :: 0 <= i < j < |entries| ==> entries[i].path != entries[j].path
  }

  function MapOf(entries: seq<Entry>): map<string, Blob> {
    if entries == [] then map[]
    else
      var last := entries[|entries| - 1];
      MapOf(entries[..|entries| - 1])[last.path := last.blob]
  }

  /** The map says of every path what the listing says of it, and nothing else. */
  ghost predicate Maps(tree: map<string, Blob>, entries: seq<Entry>) {
    (forall i :: 0 <= i < |entries| ==> Says(tree, entries[i])) &&
    (forall path <- tree :: Entry(path, tree[path]) in entries) &&
    |tree| == |entries|
  }

  ghost predicate Says(tree: map<string, Blob>, entry: Entry) {
    entry.path in tree && tree[entry.path] == entry.blob
  }

  lemma MapsExtend(tree: map<string, Blob>, entries: seq<Entry>, entry: Entry)
    requires Maps(tree, entries)
    ensures entry.path !in tree ==> Maps(tree[entry.path := entry.blob], entries + [entry])
    ensures entry.path in tree <==> exists i :: 0 <= i < |entries| && entries[i].path == entry.path
  {
    forall i | 0 <= i < |entries| && entries[i].path == entry.path
      ensures entry.path in tree
    {
      assert Says(tree, entries[i]);
    }
    if entry.path in tree {
      assert Entry(entry.path, tree[entry.path]) in entries;
    } else {
      var next, all := tree[entry.path := entry.blob], entries + [entry];
      forall i | 0 <= i < |all|
        ensures Says(next, all[i])
      {
        if i < |entries| {
          assert Says(tree, entries[i]);
        }
      }
      forall path <- next
        ensures Entry(path, next[path]) in all
      {
        if path == entry.path {
          assert all[|entries|] == entry;
        } else {
          assert Entry(path, tree[path]) in entries;
        }
      }
    }
  }

  lemma {:induction false} MapOfHolds(entries: seq<Entry>)
    requires DistinctPaths(entries)
    ensures Maps(MapOf(entries), entries)
  {
    if entries != [] {
      var front, last := entries[..|entries| - 1], entries[|entries| - 1];
      MapOfHolds(front);
      MapsExtend(MapOf(front), front, last);
      assert entries == front + [last];
    }
  }

  // ---- one record ----

  function ParseRecord(record: string, format: ObjectFormat): Result<Entry, TreeFault> {
    var separator := IndexOf(record, '\t', 0);
    if separator.None? then Err(Malformed)
    else ParseTexts(record[..separator.value], record[separator.value + 1..], format)
  }

  /** Both texts are decoded before either is looked at. */
  function ParseTexts(metadata: string, rawPath: string, format: ObjectFormat): Result<Entry, TreeFault> {
    if !Utf8(metadata) || !Utf8(rawPath) then Err(Malformed) else ParseFields(Decode(metadata), Decode(rawPath), format)
  }

  function ParseFields(metadata: string, rawPath: string, format: ObjectFormat): Result<Entry, TreeFault> {
    var fields := Split(metadata, ' ');
    if |fields| != 3 then Err(Malformed)
    else
      var mode, kind, objectId := fields[0], fields[1], fields[2];
      if (mode != "100644" && mode != "100755") || kind != "blob" then Err(NonRegular)
      else if |objectId| != IdLength(format) || exists c <- objectId :: !Hex(c) then Err(Malformed)
      else
        match ValidateArchivePath(rawPath, false)
        case Err(fault) => Err(BadPath(fault))
        case Ok(path) => Ok(Entry(path, Blob(mode == "100755", objectId)))
  }

  lemma MetadataSplits(blob: Blob, format: ObjectFormat)
    requires IdOk(blob.objectId, format)
    ensures Split(Metadata(blob), ' ') == [Mode(blob.executable), "blob", blob.objectId]
  {
    var rest := "blob" + " " + blob.objectId;
    assert ' ' !in blob.objectId;
    SplitWithout(blob.objectId, ' ');
    SplitAtFirst("blob", ' ', blob.objectId);
    SplitAtFirst(Mode(blob.executable), ' ', rest);
    assert [Mode(blob.executable)] + (["blob"] + [blob.objectId]) == [Mode(blob.executable), "blob", blob.objectId];
  }

  lemma MetadataIsPlain(blob: Blob, marked: bool, format: ObjectFormat)
    requires IdOk(blob.objectId, format)
    ensures '\t' !in WithMark(marked, Metadata(blob)) && NUL !in WithMark(marked, Metadata(blob))
    ensures !Marked(Metadata(blob))
  {
    assert '\t' !in blob.objectId && NUL !in blob.objectId;
    assert Metadata(blob)[0] == '1';
  }

  lemma MetadataIsUtf8(blob: Blob, marked: bool, format: ObjectFormat)
    requires IdOk(blob.objectId, format)
    ensures Utf8(WithMark(marked, Metadata(blob)))
  {
    var text := Metadata(blob);
    forall i | 0 <= i < |text|
      ensures text[i] < '\U{80}'
    {
      assert i >= 12 ==> text[i] == blob.objectId[i - 12] && text[i] in blob.objectId;
    }
    AsciiIsUtf8(text);
    MarkIsUtf8(marked, text);
  }

  /** Three fields print back to the text that was split. */
  lemma MetadataPrintsBack(metadata: string, fields: seq<string>, blob: Blob)
    requires fields == Split(metadata, ' ') && fields == [Mode(blob.executable), "blob", blob.objectId]
    ensures metadata == Metadata(blob)
  {
    JoinOfSplit(metadata, ' ');
    assert fields[1..] == [fields[1], fields[2]] && fields[1..][1..] == [fields[2]];
    assert Join(fields[1..], ' ') == fields[1] + [' '] + Join([fields[2]], ' ');
    assert Join(fields, ' ') == fields[0] + [' '] + Join(fields[1..], ' ');
  }

  /** The two texts of a written record parse to its entry and to no other. */
  lemma FieldsParse(metadata: string, rawPath: string, format: ObjectFormat, entry: Entry)
    ensures ParseFields(metadata, rawPath, format) == Ok(entry) <==>
              EntryOk(entry, format) && metadata == Metadata(entry.blob) && rawPath == entry.path
  {
    AcceptsExactlyCanonicalPaths(rawPath, false, entry.path);
    if EntryOk(entry, format) {
      MetadataSplits(entry.blob, format);
    }
    if ParseFields(metadata, rawPath, format) == Ok(entry) {
      MetadataPrintsBack(metadata, Split(metadata, ' '), entry.blob);
    }
  }

  /** A record is cut at its first tab, wherever its marks are. */
  lemma RecordIsCut(head: string, tail: string, format: ObjectFormat)
    requires '\t' !in head
    ensures ParseRecord(head + "\t" + tail, format) == ParseTexts(head, tail, format)
  {
    var record := head + "\t" + tail;
    var separator := IndexOf(record, '\t', 0);
    assert record[|head|] == '\t' && record[0..] == record;
    FirstSeparatorIsUnique(record[..separator.value], head, '\t', record[separator.value + 1..], tail);
  }

  lemma ParsesWhatIsPrinted(record: Record, format: ObjectFormat)
    requires RecordOk(record, format)
    ensures ParseRecord(PrintRecord(record), format) == Ok(record.entry)
  {
    var entry := record.entry;
    MetadataIsPlain(entry.blob, record.metadataMarked, format);
    MetadataIsUtf8(entry.blob, record.metadataMarked, format);
    RecordIsCut(WithMark(record.metadataMarked, Metadata(entry.blob)), WithMark(record.pathMarked, entry.path), format);
    DecodeDropsTheMark(record.metadataMarked, Metadata(entry.blob));
    FieldsParse(Metadata(entry.blob), entry.path, format, entry);
    DecodeDropsTheMark(record.pathMarked, entry.path);
    MarkIsUtf8(record.pathMarked, entry.path);
  }

  lemma PrintsWhatIsParsed(text: string, format: ObjectFormat, entry: Entry) returns (record: Record)
    requires ParseRecord(text, format) == Ok(entry)
    ensures record.entry == entry && RecordOk(record, format) && text == PrintRecord(record)
  {
    var separator := IndexOf(text, '\t', 0).value;
    var head, tail := text[..separator], text[separator + 1..];
    record := Record(Marked(head), Marked(tail), entry);
    FieldsParse(Decode(head), Decode(tail), format, entry);
    MarkIsPutBack(head);
    MarkIsPutBack(tail);
    MarkIsUtf8(Marked(tail), Decode(tail));
    CutAt(text, separator);
  }

  /** Some way of writing the entry, with or without marks, is this text. */
  ghost predicate Spells(text: string, entry: Entry, format: ObjectFormat) {
    exists record: Record :: RecordOk(record, format) && record.entry == entry && text == PrintRecord(record)
  }

  /** A record parses to an entry exactly when it is that entry written with or without marks. */
  lemma ParseRecordInverts(text: string, format: ObjectFormat, entry: Entry)
    ensures ParseRecord(text, format) == Ok(entry) <==> Spells(text, entry, format)
  {
    if ParseRecord(text, format) == Ok(entry) {
      var record := PrintsWhatIsParsed(text, format, entry);
    }
    if Spells(text, entry, format) {
      var record :| RecordOk(record, format) && record.entry == entry && text == PrintRecord(record);
      ParsesWhatIsPrinted(record, format);
    }
  }

  /** A path that decodes to itself. */
  predicate DecodesPlainly(path: string) {
    Utf8(path) && !Marked(path)
  }

  /** What Git prints for an entry parses to the entry without the mark of its path, if the path is UTF-8. */
  lemma BareParses(entry: Entry, format: ObjectFormat)
    requires IdOk(entry.blob.objectId, format)
    ensures ParseRecord(PrintRecord(Bare(entry)), format) ==
              if Utf8(entry.path) then ParseFields(Metadata(entry.blob), Decode(entry.path), format) else Err(Malformed)
  {
    MetadataIsPlain(entry.blob, false, format);
    MetadataIsUtf8(entry.blob, false, format);
    DecodeDropsTheMark(false, Metadata(entry.blob));
    assert WithMark(false, entry.path) == entry.path;
    RecordIsCut(WithMark(false, Metadata(entry.blob)), WithMark(false, entry.path), format);
  }

  /** What Git prints for an entry parses back to it exactly when its path is UTF-8 and does not begin with a mark. */
  lemma ReadBackExactlyWhenPlain(entry: Entry, format: ObjectFormat)
    requires EntryOk(entry, format)
    ensures ParseRecord(PrintRecord(Bare(entry)), format) == Ok(entry) <==> DecodesPlainly(entry.path)
  {
    BareParses(entry, format);
    FieldsParse(Metadata(entry.blob), Decode(entry.path), format, entry);
  }

  lemma RecordHasNoNul(record: Record, format: ObjectFormat)
    requires EntryOk(record.entry, format)
    ensures NUL !in PrintRecord(record)
  {
    MetadataIsPlain(record.entry.blob, record.metadataMarked, format);
    CanonicalIsNormal(record.entry.path);
  }

  // ---- the listing ----

  lemma {:induction false} PrintAppend(front: seq<Record>, record: Record)
    ensures Print(front + [record]) == Print(front) + PrintRecord(record) + [NUL]
  {
    var all := front + [record];
    if front == [] {
      assert all[1..] == [];
    } else {
      PrintAppend(front[1..], record);
      assert all[1..] == front[1..] + [record];
      AssociatesTwice(PrintRecord(front[0]) + [NUL], Print(front[1..]), PrintRecord(record), [NUL]);
    }
  }

  /** Two listings that go on from a common text start with the same record. */
  lemma SameFirstText(a: Record, aRest: string, b: Record, bRest: string, format: ObjectFormat)
    requires EntryOk(a.entry, format) && EntryOk(b.entry, format)
    requires PrintRecord(a) + [NUL] + aRest == PrintRecord(b) + [NUL] + bRest
    ensures PrintRecord(a) == PrintRecord(b) && aRest == bRest
  {
    RecordHasNoNul(a, format);
    RecordHasNoNul(b, format);
    FirstSeparatorIsUnique(PrintRecord(a), PrintRecord(b), NUL, aRest, bRest);
  }

  /** A record is written in one way. */
  lemma SameRecord(a: Record, b: Record, format: ObjectFormat)
    requires RecordOk(a, format) && RecordOk(b, format) && PrintRecord(a) == PrintRecord(b)
    ensures a == b
  {
    ParsesWhatIsPrinted(a, format);
    ParsesWhatIsPrinted(b, format);
    SameMarks(a, b, format);
  }

  lemma SameMarks(a: Record, b: Record, format: ObjectFormat)
    requires a.entry == b.entry && RecordOk(a, format) && PrintRecord(a) == PrintRecord(b)
    ensures a == b
  {
    var blob, path := a.entry.blob, a.entry.path;
    MetadataIsPlain(blob, a.metadataMarked, format);
    MetadataIsPlain(blob, b.metadataMarked, format);
    FirstSeparatorIsUnique(
      WithMark(a.metadataMarked, Metadata(blob)), WithMark(b.metadataMarked, Metadata(blob)), '\t',
      WithMark(a.pathMarked, path), WithMark(b.pathMarked, path));
  }

  lemma PrintStarts(front: seq<Record>, rest: string)
    requires front != []
    ensures Print(front) + rest == PrintRecord(front[0]) + [NUL] + (Print(front[1..]) + rest)
  {
    Associates(PrintRecord(front[0]) + [NUL], Print(front[1..]), rest);
  }

  /** A text that is printed by two lists starts with the same record in both. */
  lemma SameHead(front: seq<Record>, rest: string, all: seq<Record>, format: ObjectFormat)
    requires front != [] && Print(front) + rest == Print(all)
    requires AllOk(front, format) && AllOk(all, format)
    ensures all != [] && front[0] == all[0] && Print(front[1..]) + rest == Print(all[1..])
  {
    PrintStarts(front, rest);
    SameFirstText(front[0], Print(front[1..]) + rest, all[0], Print(all[1..]), format);
    SameRecord(front[0], all[0], format);
  }

  lemma PrefixOfTails(front: seq<Record>, all: seq<Record>)
    requires 0 < |front| <= |all| && front[0] == all[0] && all[1..][..|front| - 1] == front[1..]
    ensures all[..|front|] == front && all[1..][|front| - 1..] == all[|front|..]
  {
    assert all == [all[0]] + all[1..] && front == [front[0]] + front[1..];
  }

  /** A listing is read back one way only: what is printed after some records is printed by the rest. */
  lemma {:induction false} PrintHasOnePrefix(front: seq<Record>, rest: string, all: seq<Record>, format: ObjectFormat)
    requires Print(front) + rest == Print(all)
    requires AllOk(front, format) && AllOk(all, format)
    ensures |front| <= |all| && all[..|front|] == front && rest == Print(all[|front|..])
  {
    if front == [] {
      assert all[0..] == all && Print(front) + rest == rest;
    } else {
      SameHead(front, rest, all, format);
      PrintHasOnePrefix(front[1..], rest, all[1..], format);
      PrefixOfTails(front, all);
    }
  }

  lemma PrintIsInjective(a: seq<Record>, b: seq<Record>, format: ObjectFormat)
    requires Records(a, format) && Records(b, format) && Print(a) == Print(b)
    ensures a == b
  {
    assert Print(a) + "" == Print(b) && Print(b) + "" == Print(a);
    PrintHasOnePrefix(a, "", b, format);
    PrintHasOnePrefix(b, "", a, format);
  }

  // ---- what Git prints for a commit ----

  /** What Git prints for these entries, each with its own path. */
  predicate Committed(records: seq<Record>, format: ObjectFormat) {
    records != [] && |records| <= MAX_ENTRIES && DistinctPaths(EntriesOf(records)) &&
    forall i :: 0 <= i < |records| ==> EntryOk(records[i].entry, format) && records[i] == Bare(records[i].entry)
  }

  predicate AllDecodePlainly(records: seq<Record>) {
    forall i :: 0 <= i < |records| ==> DecodesPlainly(records[i].entry.path)
  }

  /** The same texts read as entries: only the marks of the paths are lost. */
  ghost predicate Decoded(read: seq<Record>, committed: seq<Record>) {
    |read| == |committed| &&
    forall i :: 0 <= i < |read| ==> ReadAs(committed[i].entry.path, read[i].entry.path)
  }

  predicate ReadAs(committed: string, read: string) {
    Utf8(committed) && read == Decode(committed)
  }

  lemma SameBareRecord(a: Record, b: Record, format: ObjectFormat)
    requires RecordOk(a, format) && EntryOk(b.entry, format) && b == Bare(b.entry) && PrintRecord(a) == PrintRecord(b)
    ensures ReadAs(b.entry.path, a.entry.path)
  {
    ParsesWhatIsPrinted(a, format);
    BareParses(b.entry, format);
    FieldsParse(Metadata(b.entry.blob), Decode(b.entry.path), format, a.entry);
  }

  lemma {:induction false} ReadingDropsMarks(read: seq<Record>, committed: seq<Record>, format: ObjectFormat)
    requires AllOk(read, format) && Print(read) == Print(committed)
    requires forall i :: 0 <= i < |committed| ==>
               EntryOk(committed[i].entry, format) && committed[i] == Bare(committed[i].entry)
    ensures Decoded(read, committed)
  {
    if read != [] && committed != [] {
      SameFirstText(read[0], Print(read[1..]), committed[0], Print(committed[1..]), format);
      SameBareRecord(read[0], committed[0], format);
      ReadingDropsMarks(read[1..], committed[1..], format);
      assert forall i :: 0 < i < |read| ==> read[i] == read[1..][i - 1] && committed[i] == committed[1..][i - 1];
    }
  }

  /** A path that lost its mark could be found again only as a longer path that lost its mark. */
  lemma {:induction false} LostMarkIsSeen(read: seq<Record>, committed: seq<Record>, k: nat, format: ObjectFormat)
    requires Decoded(read, committed) && Committed(committed, format) && DistinctPaths(EntriesOf(read))
    requires k < |committed| && Marked(committed[k].entry.path)
    ensures MapOf(EntriesOf(read)) != MapOf(EntriesOf(committed))
    decreases MAX_PATH_BYTES - |committed[k].entry.path|
  {
    var path := committed[k].entry.path;
    MapOfHolds(EntriesOf(committed));
    MapOfHolds(EntriesOf(read));
    assert Says(MapOf(EntriesOf(committed)), EntriesOf(committed)[k]);
    if path in MapOf(EntriesOf(read)) {
      var i :| 0 <= i < |read| && EntriesOf(read)[i] == Entry(path, MapOf(EntriesOf(read))[path]);
      assert read[i].entry.path == path && ReadAs(committed[i].entry.path, path);
      LostMarkIsSeen(read, committed, i, format);
    }
  }

  /** The nonempty text that goes on to the next NUL. */
  function TextAt(bytes: string, offset: nat): Option<string>
    requires offset <= |bytes|
  {
    var terminal := IndexOf(bytes, NUL, offset);
    if terminal.None? || terminal.value == offset then None else Some(bytes[offset..terminal.value])
  }

  /** Where the listing stops being one, and why. */
  ghost predicate Stuck(bytes: string, offset: nat, tree: map<string, Blob>, fault: TreeFault, format: ObjectFormat)
    requires offset <= |bytes|
  {
    if offset == |bytes| then |tree| == 0 && fault == Malformed
    else
      var text := TextAt(bytes, offset);
      if text.None? then fault == Malformed
      else
        match ParseRecord(text.value, format)
        case Err(error) => fault == error
        case Ok(entry) =>
          if |tree| >= MAX_ENTRIES then fault == TooMany else fault == Duplicate && entry.path in tree
  }

  lemma FirstOf(bytes: string, offset: nat, text: string, c: char, rest: string)
    requires offset <= |bytes| && c !in text && bytes[offset..] == text + [c] + rest
    ensures offset + |text| < |bytes| && IndexOf(bytes, c, offset) == Some(offset + |text|)
    ensures bytes[offset..offset + |text|] == text
  {
    assert bytes[offset..][|text|] == c && bytes[offset..][..|text|] == text;
    var found := IndexOf(bytes, c, offset).value;
    assert forall k :: offset <= k < offset + |text| ==> bytes[k] == text[k - offset];
  }

  /** A printed record ends at the next NUL. */
  lemma RecordFollows(bytes: string, offset: nat, record: Record, rest: string, format: ObjectFormat)
    requires EntryOk(record.entry, format) && offset <= |bytes|
    requires bytes[offset..] == PrintRecord(record) + [NUL] + rest
    ensures offset < |bytes| && TextAt(bytes, offset) == Some(PrintRecord(record))
  {
    RecordHasNoNul(record, format);
    FirstOf(bytes, offset, PrintRecord(record), NUL, rest);
  }

  /** Where a listing goes on, its next record is read and admitted. */
  lemma NextIsAdmitted(
    bytes: string, offset: nat, tree: map<string, Blob>, next: Record, rest: string, fault: TreeFault, format: ObjectFormat)
    requires offset <= |bytes| && bytes[offset..] == PrintRecord(next) + [NUL] + rest
    requires |tree| < MAX_ENTRIES && RecordOk(next, format) && next.entry.path !in tree
    ensures !Stuck(bytes, offset, tree, fault, format)
  {
    RecordFollows(bytes, offset, next, rest, format);
    ParsesWhatIsPrinted(next, format);
  }

  lemma StuckIsNoListing(
    bytes: string, offset: nat, records: seq<Record>, fault: TreeFault, format: ObjectFormat, all: seq<Record>)
    requires offset <= |bytes| && bytes[..offset] == Print(records) && Records(records, format)
    requires Stuck(bytes, offset, MapOf(EntriesOf(records)), fault, format)
    ensures !Listing(all, format, bytes)
  {
    if Listing(all, format, bytes) {
      var rest := bytes[offset..];
      assert bytes == Print(records) + rest;
      PrintHasOnePrefix(records, rest, all, format);
      MapOfHolds(EntriesOf(records));
      var left := all[|records|..];
      if left != [] {
        assert left[0] == all[|records|];
        OkAt(all, format, |records|);
        NewPath(records, all);
        NextIsAdmitted(bytes, offset, MapOf(EntriesOf(records)), left[0], Print(left[1..]), fault, format);
      }
    }
  }

  lemma NewPath(front: seq<Record>, all: seq<Record>)
    requires |front| < |all| && all[..|front|] == front && DistinctPaths(EntriesOf(all)) && DistinctPaths(EntriesOf(front))
    ensures all[|front|].entry.path !in MapOf(EntriesOf(front))
  {
    var next := all[|front|].entry;
    forall i | 0 <= i < |front|
      ensures EntriesOf(front)[i].path != next.path
    {
      assert EntriesOf(all)[i] == EntriesOf(front)[i] && EntriesOf(all)[|front|] == next;
    }
    MapOfHolds(EntriesOf(front));
    MapsExtend(MapOf(EntriesOf(front)), EntriesOf(front), next);
  }

  lemma {:induction false} AllOkExtends(records: seq<Record>, record: Record, format: ObjectFormat)
    requires AllOk(records, format) && RecordOk(record, format)
    ensures AllOk(records + [record], format)
  {
    if records == [] {
      assert (records + [record])[1..] == [];
    } else {
      AllOkExtends(records[1..], record, format);
      assert (records + [record])[1..] == records[1..] + [record];
    }
  }

  /** Up to the offset, the text is the printed form of the records whose entries the tree holds. */
  ghost predicate Progress(bytes: string, offset: nat, records: seq<Record>, tree: map<string, Blob>, format: ObjectFormat) {
    offset <= |bytes| && bytes[..offset] == Print(records) && tree == MapOf(EntriesOf(records)) && Records(records, format) &&
    (offset == 0 <==> records == []) && (offset > 0 ==> bytes[offset - 1] == NUL)
  }

  /** Up to the offset, the text is the printed form of some records, and the tree holds their entries. */
  ghost predicate SoFar(bytes: string, offset: nat, tree: map<string, Blob>, format: ObjectFormat) {
    exists records :: Progress(bytes, offset, records, tree, format)
  }

  lemma SoFarExtends(
    bytes: string, offset: nat, terminal: nat, tree: map<string, Blob>, entry: Entry, format: ObjectFormat)
    requires SoFar(bytes, offset, tree, format) && offset < terminal < |bytes| && bytes[terminal] == NUL
    requires Spells(bytes[offset..terminal], entry, format) && |tree| < MAX_ENTRIES && entry.path !in tree
    ensures SoFar(bytes, terminal + 1, tree[entry.path := entry.blob], format)
  {
    var records :| Progress(bytes, offset, records, tree, format);
    var record: Record :| RecordOk(record, format) && record.entry == entry && bytes[offset..terminal] == PrintRecord(record);
    ProgressExtends(bytes, offset, terminal, records, tree, record, format);
  }

  lemma SoFarStarts(bytes: string, format: ObjectFormat)
    ensures SoFar(bytes, 0, map[], format)
  {
    assert Progress(bytes, 0, [], map[], format);
  }

  lemma ProgressExtends(
    bytes: string, offset: nat, terminal: nat, records: seq<Record>, tree: map<string, Blob>, record: Record, format: ObjectFormat)
    requires Progress(bytes, offset, records, tree, format)
    requires offset < terminal < |bytes| && bytes[terminal] == NUL
    requires RecordOk(record, format) && bytes[offset..terminal] == PrintRecord(record)
    requires |tree| < MAX_ENTRIES && record.entry.path !in tree
    ensures Progress(bytes, terminal + 1, records + [record], tree[record.entry.path := record.entry.blob], format)
  {
    RecordsExtend(records, tree, record, format);
    TextExtends(bytes, offset, terminal, records, record);
  }

  lemma RecordsExtend(records: seq<Record>, tree: map<string, Blob>, record: Record, format: ObjectFormat)
    requires Records(records, format) && tree == MapOf(EntriesOf(records)) && RecordOk(record, format)
    requires |tree| < MAX_ENTRIES && record.entry.path !in tree
    ensures Records(records + [record], format)
    ensures tree[record.entry.path := record.entry.blob] == MapOf(EntriesOf(records + [record]))
  {
    AllOkExtends(records, record, format);
    EntriesExtend(EntriesOf(records), tree, record.entry);
    assert EntriesOf(records + [record]) == EntriesOf(records) + [record.entry];
  }

  lemma EntriesExtend(entries: seq<Entry>, tree: map<string, Blob>, entry: Entry)
    requires DistinctPaths(entries) && tree == MapOf(entries) && entry.path !in tree
    ensures DistinctPaths(entries + [entry]) && |tree| == |entries|
    ensures MapOf(entries + [entry]) == tree[entry.path := entry.blob]
  {
    MapOfHolds(entries);
    NewPathIsDistinct(entries, tree, entry);
    assert (entries + [entry])[..|entries|] == entries;
  }

  lemma NewPathIsDistinct(entries: seq<Entry>, tree: map<string, Blob>, entry: Entry)
    requires DistinctPaths(entries) && Maps(tree, entries) && entry.path !in tree
    ensures DistinctPaths(entries + [entry])
  {
    var all := entries + [entry];
    forall i, j | 0 <= i < j < |all|
      ensures all[i].path != all[j].path
    {
      assert all[i] == entries[i] && Says(tree, entries[i]);
    }
  }

  lemma TextExtends(bytes: string, offset: nat, terminal: nat, records: seq<Record>, record: Record)
    requires offset < terminal < |bytes| && bytes[terminal] == NUL
    requires bytes[..offset] == Print(records) && bytes[offset..terminal] == PrintRecord(record)
    ensures bytes[..terminal + 1] == Print(records + [record])
  {
    PrintAppend(records, record);
    TakeThrough(bytes, offset, terminal);
  }

  /** The text is the written form of these records, of which there is at least one. */
  ghost predicate Listing(records: seq<Record>, format: ObjectFormat, bytes: string) {
    records != [] && Records(records, format) && Print(records) == bytes
  }

  /**
   * The text is no listing: up to some offset records can be read, and what comes
   * there is the fault.
   */
  ghost predicate Refused(bytes: string, format: ObjectFormat, fault: TreeFault) {
    (forall all :: !Listing(all, format, bytes)) &&
    exists offset: nat, tree :: offset <= |bytes| && SoFar(bytes, offset, tree, format) && Stuck(bytes, offset, tree, fault, format)
  }

  lemma Refuse(bytes: string, offset: nat, tree: map<string, Blob>, fault: TreeFault, format: ObjectFormat)
    requires offset <= |bytes| && SoFar(bytes, offset, tree, format) && Stuck(bytes, offset, tree, fault, format)
    ensures Refused(bytes, format, fault) && Reads(bytes, format, Err(fault))
  {
    var records :| Progress(bytes, offset, records, tree, format);
    forall all
      ensures !Listing(all, format, bytes)
    {
      StuckIsNoListing(bytes, offset, records, fault, format, all);
    }
  }

  /** Only one list of records can be read from a text. */
  lemma Accept(records: seq<Record>, format: ObjectFormat, bytes: string)
    requires Listing(records, format, bytes)
    ensures forall all :: Listing(all, format, bytes) ==> all == records
  {
    forall all | Listing(all, format, bytes)
      ensures all == records
    {
      PrintIsInjective(all, records, format);
    }
  }

  /** The map of the records that the text is the written form of, if there are any. */
  ghost predicate Reads(bytes: string, format: ObjectFormat, r: Result<map<string, Blob>, TreeFault>) {
    (r.Ok? ==> exists all :: Listing(all, format, bytes) && r.value == MapOf(EntriesOf(all))) &&
    (forall all :: Listing(all, format, bytes) ==> r == Ok(MapOf(EntriesOf(all))))
  }

  /** One pass of the parser: the tree with the entry that starts at the offset, and the place after its NUL. */
  method NextEntry(bytes: string, offset: nat, tree: map<string, Blob>, format: ObjectFormat)
    returns (fault: Option<TreeFault>, next: nat, grown: map<string, Blob>)
    requires offset < |bytes| && SoFar(bytes, offset, tree, format)
    ensures next <= |bytes| && SoFar(bytes, next, grown, format)
    ensures fault.None? ==> offset < next
    ensures fault.Some? ==> next == offset && Stuck(bytes, offset, grown, fault.value, format)
  {
    var entry, terminal := ReadEntry(bytes, offset, tree, format);
    if entry.Err? {
      return Some(entry.error), offset, tree;
    }
    SoFarExtends(bytes, offset, terminal, tree, entry.value, format);
    return None, terminal + 1, tree[entry.value.path := entry.value.blob];
  }

  /** The tests of one record: an entry follows when there is room for it and its path is new. */
  method ReadEntry(bytes: string, offset: nat, tree: map<string, Blob>, format: ObjectFormat)
    returns (r: Result<Entry, TreeFault>, terminal: nat)
    requires offset < |bytes|
    ensures r.Ok? ==> offset < terminal < |bytes| && bytes[terminal] == NUL && Spells(bytes[offset..terminal], r.value, format)
    ensures r.Ok? ==> |tree| < MAX_ENTRIES && r.value.path !in tree
    ensures r.Err? ==> Stuck(bytes, offset, tree, r.error, format)
  {
    var found := IndexOf(bytes, NUL, offset);
    if found.None? || found.value == offset {
      return Err(Malformed), offset;
    }
    terminal := found.value;
    r := ParseRecord(bytes[offset..terminal], format);
    if r.Ok? {
      ParseRecordInverts(bytes[offset..terminal], format, r.value);
      if |tree| >= MAX_ENTRIES {
        r := Err(TooMany);
      } else if r.value.path in tree {
        r := Err(Duplicate);
      }
    }
  }

  /** At the end of the text only the empty listing is refused: a text that has entries ends with NUL. */
  lemma AtTheEnd(bytes: string, tree: map<string, Blob>, format: ObjectFormat)
    requires SoFar(bytes, |bytes|, tree, format)
    ensures bytes == "" <==> |tree| == 0
    ensures bytes != "" ==> bytes[|bytes| - 1] == NUL && Reads(bytes, format, Ok(tree))
    ensures bytes == "" ==> Refused(bytes, format, Malformed) && Reads(bytes, format, Err(Malformed))
  {
    var records :| Progress(bytes, |bytes|, records, tree, format);
    assert bytes[..|bytes|] == bytes;
    MapOfHolds(EntriesOf(records));
    if bytes == "" {
      Refuse(bytes, 0, tree, Malformed, format);
    } else {
      Accept(records, format, bytes);
    }
  }

  /** Read a whole listing: accepted exactly when it is the written form of some nonempty list of records. */
  method ParseGitTree(bytes: string, format: ObjectFormat) returns (r: Result<map<string, Blob>, TreeFault>)
    ensures Reads(bytes, format, r)
    ensures r.Err? ==> Refused(bytes, format, r.error)
  {
    var tree: map<string, Blob> := map[];
    var offset, fault := 0, None;
    SoFarStarts(bytes, format);
    while offset < |bytes| && fault.None?
      invariant offset <= |bytes| && SoFar(bytes, offset, tree, format)
      invariant fault.Some? ==> Stuck(bytes, offset, tree, fault.value, format)
      decreases |bytes| - offset, if fault.None? then 1 else 0
    {
      fault, offset, tree := NextEntry(bytes, offset, tree, format);
    }
    if fault.None? {
      AtTheEnd(bytes, tree, format);
      if |tree| == 0 || bytes[|bytes| - 1] != NUL {
        fault := Some(Malformed);
      }
    }
    if fault.Some? {
      Refuse(bytes, offset, tree, fault.value, format);
    }
    r := if fault.Some? then Err(fault.value) else Ok(tree);
  }

  // ---- what the decoder does to a listing ----

  /** What Git prints for a commit is read back exactly when every path is UTF-8 and none begins with a mark. */
  lemma ReadExactlyWhenPlain(committed: seq<Record>, format: ObjectFormat, r: Result<map<string, Blob>, TreeFault>)
    requires Committed(committed, format) && Reads(Print(committed), format, r)
    ensures r == Ok(MapOf(EntriesOf(committed))) <==> AllDecodePlainly(committed)
  {
    if AllDecodePlainly(committed) {
      PlainRecordsAreOk(committed, format);
      assert Listing(committed, format, Print(committed));
    } else if r.Ok? {
      var k: nat :| k < |committed| && !DecodesPlainly(committed[k].entry.path);
      var read: seq<Record> :| Listing(read, format, Print(committed)) && r.value == MapOf(EntriesOf(read));
      ReadingDropsMarks(read, committed, format);
      assert ReadAs(committed[k].entry.path, read[k].entry.path);
      LostMarkIsSeen(read, committed, k, format);
    }
  }

  lemma {:induction false} PlainRecordsAreOk(records: seq<Record>, format: ObjectFormat)
    requires AllDecodePlainly(records) && forall i :: 0 <= i < |records| ==> EntryOk(records[i].entry, format)
    ensures AllOk(records, format)
  {
    if records != [] {
      PlainRecordsAreOk(records[1..], format);
    }
  }

  const SOME_BLOB := Blob(false, seq(40, i => 'e'))

  lemma ShortPaths()
    ensures EntryOk(Entry("a", SOME_BLOB), Sha1) && EntryOk(Entry(MARK + "a", SOME_BLOB), Sha1)
    ensures Utf8("a") && Utf8(MARK + "a")
  {
    AsciiIsUtf8("a");
    MarkIsUtf8(true, "a");
    SplitWithout("a", '/');
    SplitWithout(MARK + "a", '/');
  }

  /** A mark before the mode is accepted, although Git prints no such record. */
  lemma MarkedModeIsAccepted(entry: Entry)
    ensures ParseRecord(MARK + PrintRecord(Bare(Entry("a", SOME_BLOB))), Sha1) == Ok(Entry("a", SOME_BLOB))
    ensures MARK + PrintRecord(Bare(Entry("a", SOME_BLOB))) != PrintRecord(Bare(entry))
  {
    var record := Record(true, false, Entry("a", SOME_BLOB));
    ShortPaths();
    ParsesWhatIsPrinted(record, Sha1);
    MarkGoesFirst(record.entry);
    StartsWithTheMode(entry);
  }

  lemma MarkGoesFirst(entry: Entry)
    ensures MARK + PrintRecord(Bare(entry)) == PrintRecord(Record(true, false, entry))
  {
    assert WithMark(false, Metadata(entry.blob)) == Metadata(entry.blob);
    assert MARK + (Metadata(entry.blob) + "\t" + WithMark(false, entry.path)) ==
           MARK + Metadata(entry.blob) + "\t" + WithMark(false, entry.path);
  }

  lemma StartsWithTheMode(entry: Entry)
    ensures PrintRecord(Bare(entry)) != "" && PrintRecord(Bare(entry))[0] == '1'
  {
    assert Metadata(entry.blob)[0] == '1';
  }

  /** A path that begins with a mark is read as another path. */
  lemma MarkedPathIsCut()
    ensures ParseRecord(PrintRecord(Bare(Entry(MARK + "a", SOME_BLOB))), Sha1) == Ok(Entry("a", SOME_BLOB))
  {
    ShortPaths();
    BareParses(Entry(MARK + "a", SOME_BLOB), Sha1);
    FieldsParse(Metadata(SOME_BLOB), "a", Sha1, Entry("a", SOME_BLOB));
  }

  lemma PrintTwo(first: Record, second: Record)
    ensures Print([first]) == PrintRecord(first) + [NUL] && Print([second]) == PrintRecord(second) + [NUL]
    ensures Print([first, second]) == Print([first]) + Print([second])
  {
    assert [first, second][1..] == [second] && [second][1..] == [] && [first][1..] == [];
  }

  /** A second record that parses to the path of the first is the fault of their listing. */
  lemma RepeatIsRefused(first: Record, second: Record, entry: Entry, format: ObjectFormat)
    requires RecordOk(first, format) && EntryOk(second.entry, format)
    requires ParseRecord(PrintRecord(second), format) == Ok(entry) && entry.path == first.entry.path
    ensures Refused(Print([first, second]), format, Duplicate)
  {
    var bytes, offset := Print([first, second]), |Print([first])|;
    PrintTwo(first, second);
    assert bytes[..offset] == Print([first]) && bytes[offset..] == PrintRecord(second) + [NUL] + "";
    assert [first][1..] == [];
    assert Progress(bytes, offset, [first], MapOf(EntriesOf([first])), format);
    SecondIsStuck(bytes, offset, first, second, entry, format);
    Refuse(bytes, offset, MapOf(EntriesOf([first])), Duplicate, format);
  }

  lemma SecondIsStuck(bytes: string, offset: nat, first: Record, second: Record, entry: Entry, format: ObjectFormat)
    requires EntryOk(second.entry, format) && offset <= |bytes| && bytes[offset..] == PrintRecord(second) + [NUL] + ""
    requires ParseRecord(PrintRecord(second), format) == Ok(entry) && entry.path == first.entry.path
    ensures Stuck(bytes, offset, MapOf(EntriesOf([first])), Duplicate, format)
  {
    RecordFollows(bytes, offset, second, "", format);
    assert EntriesOf([first])[0].path == entry.path;
    MapOfHolds(EntriesOf([first]));
    assert Says(MapOf(EntriesOf([first])), EntriesOf([first])[0]);
  }

  /** So a commit that has both paths is refused for a duplicate that it does not have. */
  lemma MarkedBesideBareIsRefused()
    ensures var committed := [Bare(Entry("a", SOME_BLOB)), Bare(Entry(MARK + "a", SOME_BLOB))];
            Committed(committed, Sha1) && Refused(Print(committed), Sha1, Duplicate)
  {
    var first, second := Entry("a", SOME_BLOB), Entry(MARK + "a", SOME_BLOB);
    ShortPaths();
    MarkedPathIsCut();
    TwoAreCommitted(first, second, Sha1);
    RepeatIsRefused(Bare(first), Bare(second), first, Sha1);
  }

  lemma TwoAreCommitted(first: Entry, second: Entry, format: ObjectFormat)
    requires EntryOk(first, format) && EntryOk(second, format) && first.path != second.path
    ensures Committed([Bare(first), Bare(second)], format)
  {
  }
}
