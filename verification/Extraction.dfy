/** The walk over the extracted files, and what an accepted walk says about them. */
module Extraction {
  import opened Texts
  import opened GitTree
  import opened SourceArchive

  /** What lies on disk: a directory lists its entries by name; links and devices are `Special`. */
  datatype Node =
    | FileNode(size: nat, objectId: string)
    | DirectoryNode(children: seq<Child>)
    | Special

  datatype Child = Child(name: string, node: Node)

  datatype Found = Found(path: string, node: Node)

  function PathUnder(relative: string, name: string): string {
    if relative == "" then name else relative + "/" + name
  }

  /** Everything below a directory in the order of the walk. */
  function Below(children: seq<Child>, relative: string): seq<Found>
    decreases children
  {
    if children == [] then []
    else
      var path := PathUnder(relative, children[0].name);
      [Found(path, children[0].node)] +
      (if children[0].node.DirectoryNode? then Below(children[0].node.children, path) else []) +
      Below(children[1..], relative)
  }

  predicate AsCommitted(found: Found, commitTree: map<string, Blob>) {
    match found.node
    case DirectoryNode(_) => true
    case Special => false
    case FileNode(size, objectId) =>
      size <= MAX_FILE_BYTES && found.path in commitTree && commitTree[found.path].objectId == objectId
  }

  predicate AllAsCommitted(found: seq<Found>, commitTree: map<string, Blob>) {
    forall k :: 0 <= k < |found| ==> AsCommitted(found[k], commitTree)
  }

  function KindFound(node: Node): Kind {
    if node.DirectoryNode? then Directory else if node.FileNode? then File else Other
  }

  /** The map that the walk leaves, when nothing it meets is special. */
  function Recorded(observed: map<string, Kind>, found: seq<Found>): map<string, Kind>
    decreases |found|
  {
    if found == [] then observed else Recorded(observed[found[0].path := KindFound(found[0].node)], found[1..])
  }

  lemma {:induction false} RecordedInTwoParts(observed: map<string, Kind>, a: seq<Found>, b: seq<Found>)
    ensures Recorded(observed, a + b) == Recorded(Recorded(observed, a), b)
    decreases |a|
  {
    if a == [] {
      assert a + b == b;
    } else {
      RecordedInTwoParts(observed[a[0].path := KindFound(a[0].node)], a[1..], b);
      assert (a + b)[1..] == a[1..] + b;
    }
  }

  lemma CommittedInTwoParts(a: seq<Found>, b: seq<Found>, commitTree: map<string, Blob>)
    ensures AllAsCommitted(a + b, commitTree) <==> AllAsCommitted(a, commitTree) && AllAsCommitted(b, commitTree)
  {
    assert forall k :: 0 <= k < |a| ==> (a + b)[k] == a[k];
    assert forall k :: 0 <= k < |b| ==> (a + b)[|a| + k] == b[k];
    if AllAsCommitted(a, commitTree) && AllAsCommitted(b, commitTree) {
      forall k | 0 <= k < |a + b|
        ensures AsCommitted((a + b)[k], commitTree)
      {
        assert (a + b)[k] == if k < |a| then a[k] else b[k - |a|];
      }
    }
  }

  /** What the walk meets in one child: the child itself and everything below it. */
  function Share(child: Child, relative: string): seq<Found> {
    var path := PathUnder(relative, child.name);
    [Found(path, child.node)] + (if child.node.DirectoryNode? then Below(child.node.children, path) else [])
  }

  lemma BelowIsShares(children: seq<Child>, relative: string, k: nat, done: seq<Found>)
    requires k < |children| && Below(children, relative) == done + Below(children[k..], relative)
    ensures Below(children, relative) == done + Share(children[k], relative) + Below(children[k + 1..], relative)
  {
    assert children[k..][0] == children[k] && children[k..][1..] == children[k + 1..];
    assert Below(children[k..], relative) == Share(children[k], relative) + Below(children[k + 1..], relative);
  }

  lemma ShareInTwoParts(child: Child, relative: string, commitTree: map<string, Blob>, observed: map<string, Kind>)
    ensures var path := PathUnder(relative, child.name);
            var inside := if child.node.DirectoryNode? then Below(child.node.children, path) else [];
            (AllAsCommitted(Share(child, relative), commitTree) <==>
             AsCommitted(Found(path, child.node), commitTree) && AllAsCommitted(inside, commitTree)) &&
            Recorded(observed, Share(child, relative)) == Recorded(observed[path := KindFound(child.node)], inside)
  {
    var first := Found(PathUnder(relative, child.name), child.node);
    var inside := if child.node.DirectoryNode? then Below(child.node.children, first.path) else [];
    CommittedInTwoParts([first], inside, commitTree);
    assert AllAsCommitted([first], commitTree) <==> AsCommitted(first, commitTree) by {
      assert [first][0] == first;
    }
    assert ([first] + inside)[1..] == inside;
  }

  class Walk {
    const commitTree: map<string, Blob>
    var observed: map<string, Kind>

    constructor (commitTree: map<string, Blob>)
      ensures this.commitTree == commitTree && observed == map[]
    {
      this.commitTree, observed := commitTree, map[];
    }

    /** Walk one directory and everything below it, recording each path. */
    method Visit(children: seq<Child>, relative: string) returns (ok: bool)
      modifies this
      ensures ok <==> AllAsCommitted(Below(children, relative), commitTree)
      ensures ok ==> observed == Recorded(old(observed), Below(children, relative))
      decreases children, 0
    {
      ghost var done: seq<Found> := [];
      for k := 0 to |children|
        invariant Below(children, relative) == done + Below(children[k..], relative)
        invariant AllAsCommitted(done, commitTree) && observed == Recorded(old(observed), done)
      {
        ghost var share := Share(children[k], relative);
        BelowIsShares(children, relative, k, done);
        CommittedInTwoParts(done + share, Below(children[k + 1..], relative), commitTree);
        CommittedInTwoParts(done, share, commitTree);
        RecordedInTwoParts(old(observed), done, share);
        var fine := VisitChild(children[k], relative);
        if !fine {
          return false;
        }
        done := done + share;
      }
      assert Below(children[|children|..], relative) == [];
      assert done + [] == done;
      return true;
    }

    method VisitChild(child: Child, relative: string) returns (ok: bool)
      modifies this
      ensures ok <==> AllAsCommitted(Share(child, relative), commitTree)
      ensures ok ==> observed == Recorded(old(observed), Share(child, relative))
      decreases child
    {
      var path := PathUnder(relative, child.name);
      ShareInTwoParts(child, relative, commitTree, observed);
      match child.node
      case DirectoryNode(inner) =>
        observed := observed[path := Directory];
        ok := Visit(inner, path);
      case FileNode(size, objectId) =>
        observed := observed[path := File];
        ok := size <= MAX_FILE_BYTES && path in commitTree && commitTree[path].objectId == objectId;
      case Special =>
        ok := false;
    }
  }

  // ---- where things lie ----

  /** Names as a directory lists them: none empty, none with a slash, each once. */
  ghost predicate Named(children: seq<Child>)
    decreases children
  {
    children == [] ||
    (children[0].name != "" && '/' !in children[0].name &&
     (forall other <- children[1..] :: other.name != children[0].name) &&
     (children[0].node.DirectoryNode? ==> Named(children[0].node.children)) && Named(children[1..]))
  }

  /** Going down by these names, one directory after the other, one comes to this node. */
  ghost predicate Leads(children: seq<Child>, names: seq<string>, node: Node)
    decreases |names|
  {
    names != [] &&
    exists child <- children ::
      child.name == names[0] &&
      if |names| == 1 then child.node == node
      else child.node.DirectoryNode? && Leads(child.node.children, names[1..], node)
  }

  ghost predicate IsFound(found: seq<Found>, path: string, node: Node) {
    exists k :: 0 <= k < |found| && found[k] == Found(path, node)
  }

  lemma FoundInTwoParts(a: seq<Found>, b: seq<Found>, path: string, node: Node)
    ensures IsFound(a + b, path, node) <==> IsFound(a, path, node) || IsFound(b, path, node)
  {
    if IsFound(a, path, node) {
      var k :| 0 <= k < |a| && a[k] == Found(path, node);
      assert (a + b)[k] == a[k];
    }
    if IsFound(b, path, node) {
      var k :| 0 <= k < |b| && b[k] == Found(path, node);
      assert (a + b)[|a| + k] == b[k];
    }
  }

  /** The first child with this name, or one of the others. */
  lemma LeadsThroughOne(children: seq<Child>, names: seq<string>, node: Node)
    requires children != []
    ensures Leads(children, names, node) <==> Leads([children[0]], names, node) || Leads(children[1..], names, node)
  {
    assert children == [children[0]] + children[1..];
  }

  /** What a list of names is as a path below a directory. */
  function PathOf(relative: string, names: seq<string>): string
    requires names != []
  {
    if relative == "" then Join(names, '/') else relative + "/" + Join(names, '/')
  }

  lemma PathOfFirst(relative: string, names: seq<string>)
    requires names != [] && names[0] != ""
    ensures |names| == 1 ==> PathOf(relative, names) == PathUnder(relative, names[0])
    ensures |names| > 1 ==> PathOf(relative, names) == PathOf(PathUnder(relative, names[0]), names[1..])
  {
    if |names| > 1 && relative != "" {
      assert relative + "/" + (names[0] + ['/'] + Join(names[1..], '/')) ==
             relative + "/" + names[0] + "/" + Join(names[1..], '/');
    }
  }

  /** Whatever the walk finds lies where its path says: some list of names leads to it. */
  lemma {:induction false} FoundIsThere(children: seq<Child>, relative: string, path: string, node: Node) returns (names: seq<string>)
    requires Named(children) && IsFound(Below(children, relative), path, node)
    ensures Leads(children, names, node) && path == PathOf(relative, names)
    decreases children
  {
    var first := children[0];
    var under := PathUnder(relative, first.name);
    var inside := if first.node.DirectoryNode? then Below(first.node.children, under) else [];
    FoundInTwoParts([Found(under, first.node)] + inside, Below(children[1..], relative), path, node);
    FoundInTwoParts([Found(under, first.node)], inside, path, node);
    if IsFound(inside, path, node) {
      var rest := FoundIsThere(first.node.children, under, path, node);
      names := [first.name] + rest;
      assert names[1..] == rest;
      PathOfFirst(relative, names);
    } else if IsFound(Below(children[1..], relative), path, node) {
      names := FoundIsThere(children[1..], relative, path, node);
      LeadsThroughOne(children, names, node);
    } else {
      names := [first.name];
      PathOfFirst(relative, names);
    }
  }

  /** And whatever lies there is found, under the path of its names. */
  lemma {:induction false} ThereIsFound(children: seq<Child>, relative: string, names: seq<string>, node: Node)
    requires Named(children) && Leads(children, names, node)
    ensures IsFound(Below(children, relative), PathOf(relative, names), node)
    decreases children
  {
    var first, path := children[0], PathOf(relative, names);
    var under := PathUnder(relative, first.name);
    var inside := if first.node.DirectoryNode? then Below(first.node.children, under) else [];
    FoundInTwoParts([Found(under, first.node)] + inside, Below(children[1..], relative), path, node);
    FoundInTwoParts([Found(under, first.node)], inside, path, node);
    LeadsThroughOne(children, names, node);
    if Leads([first], names, node) {
      PathOfFirst(relative, names);
      if |names| == 1 {
        assert [Found(under, first.node)][0] == Found(path, node);
      } else {
        ThereIsFound(first.node.children, under, names[1..], node);
      }
    } else {
      ThereIsFound(children[1..], relative, names, node);
    }
  }

  /** What the walk finds below a directory is exactly what lies there, each thing under its names. */
  lemma FoundExactlyWhereItLies(root: seq<Child>, path: string, node: Node)
    requires Named(root)
    ensures IsFound(Below(root, ""), path, node) <==> exists names :: Leads(root, names, node) && path == Join(names, '/')
  {
    if IsFound(Below(root, ""), path, node) {
      var names := FoundIsThere(root, "", path, node);
      assert Leads(root, names, node) && path == Join(names, '/');
    }
    forall names | Leads(root, names, node) && path == Join(names, '/')
      ensures IsFound(Below(root, ""), path, node)
    {
      ThereIsFound(root, "", names, node);
      assert PathOf("", names) == path;
    }
  }

  /** Names on the way are names of directories. */
  lemma {:induction false} NamesArePlain(children: seq<Child>, names: seq<string>, node: Node)
    requires Named(children) && Leads(children, names, node)
    ensures forall name <- names :: '/' !in name
    decreases children
  {
    LeadsThroughOne(children, names, node);
    if Leads([children[0]], names, node) {
      if |names| > 1 {
        NamesArePlain(children[0].node.children, names[1..], node);
      }
      assert names == [names[0]] + names[1..];
    } else {
      NamesArePlain(children[1..], names, node);
    }
  }

  /** A list of names leads to one thing. */
  lemma {:induction false} LeadsOnce(children: seq<Child>, names: seq<string>, a: Node, b: Node)
    requires Named(children) && Leads(children, names, a) && Leads(children, names, b)
    ensures a == b
    decreases children
  {
    LeadsThroughOne(children, names, a);
    LeadsThroughOne(children, names, b);
    if children[0].name == names[0] {
      NotAmongOthers(children[1..], names, a, children[0].name);
      NotAmongOthers(children[1..], names, b, children[0].name);
      if |names| > 1 {
        LeadsOnce(children[0].node.children, names[1..], a, b);
      }
    } else {
      LeadsOnce(children[1..], names, a, b);
    }
  }

  lemma NotAmongOthers(children: seq<Child>, names: seq<string>, node: Node, name: string)
    requires names != [] && names[0] == name && forall other <- children :: other.name != name
    ensures !Leads(children, names, node)
  {
  }

  /** The path of a thing tells its names, and they the thing. */
  lemma FoundOnce(root: seq<Child>, path: string, a: Node, b: Node)
    requires Named(root) && IsFound(Below(root, ""), path, a) && IsFound(Below(root, ""), path, b)
    ensures a == b
  {
    var names := FoundIsThere(root, "", path, a);
    var others := FoundIsThere(root, "", path, b);
    NamesArePlain(root, names, a);
    NamesArePlain(root, others, b);
    SplitOfJoin(names, '/');
    SplitOfJoin(others, '/');
    LeadsOnce(root, names, a, b);
  }

  /** The map says of every path what was found there, and of no other path anything. */
  ghost predicate Charts(observed: map<string, Kind>, found: seq<Found>) {
    (forall k :: 0 <= k < |found| ==> found[k].path in observed && observed[found[k].path] == KindFound(found[k].node)) &&
    (forall path <- observed :: exists node :: IsFound(found, path, node))
  }

  lemma {:induction false} RecordedKeeps(observed: map<string, Kind>, found: seq<Found>, path: string)
    requires path in observed || exists k :: 0 <= k < |found| && found[k].path == path
    ensures path in Recorded(observed, found)
    decreases |found|
  {
    if found != [] {
      var next := observed[found[0].path := KindFound(found[0].node)];
      if path !in next {
        var k :| 0 <= k < |found| && found[k].path == path;
        assert found[1..][k - 1] == found[k];
      }
      RecordedKeeps(next, found[1..], path);
    }
  }

  lemma RecordedCharts(root: seq<Child>)
    requires Named(root)
    ensures Charts(Recorded(map[], Below(root, "")), Below(root, ""))
  {
    var found := Below(root, "");
    var observed := Recorded(map[], found);
    forall path <- observed
      ensures exists node :: IsFound(found, path, node)
    {
      RecordedWasFound(map[], found, path);
      var k :| 0 <= k < |found| && found[k].path == path;
      assert IsFound(found, path, found[k].node);
    }
    forall k | 0 <= k < |found|
      ensures found[k].path in observed && observed[found[k].path] == KindFound(found[k].node)
    {
      var path := found[k].path;
      RecordedKeeps(map[], found, path);
      RecordedWasFound(map[], found, path);
      var l :| 0 <= l < |found| && found[l].path == path && KindFound(found[l].node) == observed[path];
      assert IsFound(found, path, found[k].node) && IsFound(found, path, found[l].node);
      FoundOnce(root, path, found[k].node, found[l].node);
    }
  }

  /** Only one map charts what was found. */
  lemma ChartedOnce(a: map<string, Kind>, b: map<string, Kind>, found: seq<Found>)
    requires Charts(a, found) && Charts(b, found)
    ensures a == b
  {
    forall path
      ensures path in a <==> path in b
      ensures path in a && path in b ==> a[path] == b[path]
    {
      if path in a || path in b {
        var node :| IsFound(found, path, node);
        var k :| 0 <= k < |found| && found[k] == Found(path, node);
        assert found[k].path == path;
      }
    }
  }

  /** Everything that lies below the root is expected there and is the commit's, and nothing else is expected. */
  ghost predicate IsExpected(root: seq<Child>, expected: map<string, Kind>, commitTree: map<string, Blob>) {
    (forall names, node | Leads(root, names, node) ::
       var path := Join(names, '/');
       path in expected && expected[path] == KindFound(node) && AsCommitted(Found(path, node), commitTree)) &&
    (forall path <- expected :: exists names, node :: Leads(root, names, node) && path == Join(names, '/'))
  }

  lemma FoundIsExpected(
    root: seq<Child>, expected: map<string, Kind>, commitTree: map<string, Blob>, path: string, node: Node)
    requires Named(root) && IsExpected(root, expected, commitTree) && IsFound(Below(root, ""), path, node)
    ensures path in expected && expected[path] == KindFound(node) && AsCommitted(Found(path, node), commitTree)
  {
    var names := FoundIsThere(root, "", path, node);
    assert Leads(root, names, node) && Join(names, '/') == path;
  }

  lemma ExpectedIsFound(root: seq<Child>, expected: map<string, Kind>, commitTree: map<string, Blob>, path: string)
    requires Named(root) && IsExpected(root, expected, commitTree) && path in expected
    ensures exists node :: IsFound(Below(root, ""), path, node)
  {
    var names, node :| Leads(root, names, node) && path == Join(names, '/');
    ThereIsFound(root, "", names, node);
    assert PathOf("", names) == path;
  }

  lemma ExpectedIsCharted(root: seq<Child>, expected: map<string, Kind>, commitTree: map<string, Blob>)
    requires Named(root) && IsExpected(root, expected, commitTree)
    ensures Charts(expected, Below(root, "")) && AllAsCommitted(Below(root, ""), commitTree)
  {
    var found := Below(root, "");
    forall k | 0 <= k < |found|
      ensures found[k].path in expected && expected[found[k].path] == KindFound(found[k].node)
      ensures AsCommitted(found[k], commitTree)
    {
      assert found[k] == Found(found[k].path, found[k].node);
      FoundIsExpected(root, expected, commitTree, found[k].path, found[k].node);
    }
    forall path <- expected
      ensures exists node :: IsFound(found, path, node)
    {
      ExpectedIsFound(root, expected, commitTree, path);
    }
  }

  lemma ChartedIsExpected(root: seq<Child>, expected: map<string, Kind>, commitTree: map<string, Blob>)
    requires Named(root) && Charts(expected, Below(root, "")) && AllAsCommitted(Below(root, ""), commitTree)
    ensures IsExpected(root, expected, commitTree)
  {
    forall names, node | Leads(root, names, node)
      ensures var path := Join(names, '/');
        path in expected && expected[path] == KindFound(node) && AsCommitted(Found(path, node), commitTree)
    {
      FoundExactlyWhereItLies(root, Join(names, '/'), node);
    }
    forall path <- expected
      ensures exists names, node :: Leads(root, names, node) && path == Join(names, '/')
    {
      var node :| IsFound(Below(root, ""), path, node);
      FoundExactlyWhereItLies(root, path, node);
    }
  }

  /**
   * Accept exactly what has the expected paths and, in every file, the commit's
   * bytes: where names are as a directory lists them, everything that names lead to
   * is expected under these names, and nothing else is.
   */
  method VerifyExtractedTree(root: seq<Child>, expected: map<string, Kind>, commitTree: map<string, Blob>) returns (ok: bool)
    ensures ok <==> AllAsCommitted(Below(root, ""), commitTree) && Recorded(map[], Below(root, "")) == expected
    ensures Named(root) ==> (ok <==> IsExpected(root, expected, commitTree))
  {
    var walk := new Walk(commitTree);
    ok := walk.Visit(root, "");
    if ok {
      ok := Agrees(walk.observed, expected);
    }
    AcceptsTheExpected(root, expected, commitTree);
  }

  lemma AcceptsTheExpected(root: seq<Child>, expected: map<string, Kind>, commitTree: map<string, Blob>)
    ensures Named(root) ==>
              (AllAsCommitted(Below(root, ""), commitTree) && Recorded(map[], Below(root, "")) == expected <==>
               IsExpected(root, expected, commitTree))
  {
    if Named(root) {
      RecordedCharts(root);
      if IsExpected(root, expected, commitTree) {
        ExpectedIsCharted(root, expected, commitTree);
        ChartedOnce(Recorded(map[], Below(root, "")), expected, Below(root, ""));
      }
      if AllAsCommitted(Below(root, ""), commitTree) && Recorded(map[], Below(root, "")) == expected {
        ChartedIsExpected(root, expected, commitTree);
      }
    }
  }

  // ---- archive and extraction together ----

  ghost predicate FileFound(found: seq<Found>, path: string, objectId: string) {
    exists k :: 0 <= k < |found| && found[k].path == path && found[k].node.FileNode? && found[k].node.objectId == objectId
  }

  lemma {:induction false} RecordedWasFound(observed: map<string, Kind>, found: seq<Found>, path: string)
    requires path in Recorded(observed, found) && path !in observed
    ensures exists k :: 0 <= k < |found| && found[k].path == path && KindFound(found[k].node) == Recorded(observed, found)[path]
    decreases |found|
  {
    var front, last := found[..|found| - 1], found[|found| - 1];
    assert found == front + [last];
    RecordedInTwoParts(observed, front, [last]);
    assert Recorded(Recorded(observed, front), [last]) == Recorded(observed, front)[last.path := KindFound(last.node)];
    if path == last.path {
      assert found[|found| - 1].path == path;
    } else {
      RecordedWasFound(observed, front, path);
      var k :| 0 <= k < |front| && front[k].path == path && KindFound(front[k].node) == Recorded(observed, front)[path];
      assert found[k] == front[k];
    }
  }

  lemma CommittedPathsAreFiles(members: seq<Member>, lines: seq<Line>, commitTree: map<string, Blob>, path: string)
    requires Acceptable(members, lines, commitTree) && path in commitTree
    ensures path in KindsOf(lines) && KindsOf(lines)[path] == File
  {
    MapsHoldTheLines(lines);
    var i :| 0 <= i < |lines| && lines[i].path == path;
    assert SourceArchive.Says(lines[i], KindsOf(lines), BlobsOf(lines));
  }

  /**
   * An extraction that is accepted for an accepted archive holds exactly the
   * commit's files with the commit's bytes, and nothing else but directories.
   */
  lemma ExtractionIsTheCommit(
    members: seq<Member>, lines: seq<Line>, commitTree: map<string, Blob>, root: seq<Child>, path: string, objectId: string)
    requires Acceptable(members, lines, commitTree)
    requires AllAsCommitted(Below(root, ""), commitTree) && Recorded(map[], Below(root, "")) == KindsOf(lines)
    ensures FileFound(Below(root, ""), path, objectId) <==> path in commitTree && commitTree[path].objectId == objectId
  {
    var found := Below(root, "");
    if FileFound(found, path, objectId) {
      var k :| 0 <= k < |found| && found[k].path == path && found[k].node.FileNode? && found[k].node.objectId == objectId;
      assert AsCommitted(found[k], commitTree);
    }
    if path in commitTree && commitTree[path].objectId == objectId {
      CommittedPathsAreFiles(members, lines, commitTree, path);
      RecordedWasFound(map[], found, path);
      var k :| 0 <= k < |found| && found[k].path == path && KindFound(found[k].node) == File;
      assert AsCommitted(found[k], commitTree);
    }
  }

  /** Going down by the components of a path one comes to a file if and only if the commit has that path, and then to its bytes. */
  lemma FilesLieWhereCommitted(
    members: seq<Member>, lines: seq<Line>, commitTree: map<string, Blob>, root: seq<Child>, path: string, objectId: string)
    requires Acceptable(members, lines, commitTree) && Named(root) && IsExpected(root, KindsOf(lines), commitTree)
    ensures (exists size :: Leads(root, Split(path, '/'), FileNode(size, objectId))) <==>
              path in commitTree && commitTree[path].objectId == objectId
  {
    JoinOfSplit(path, '/');
    if path in commitTree && commitTree[path].objectId == objectId {
      CommittedPathsAreFiles(members, lines, commitTree, path);
      var names, node :| Leads(root, names, node) && path == Join(names, '/');
      NamesArePlain(root, names, node);
      SplitOfJoin(names, '/');
      assert KindFound(node) == File && AsCommitted(Found(path, node), commitTree);
      assert node == FileNode(node.size, objectId);
    }
  }
}
