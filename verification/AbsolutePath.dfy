/** Canonical absolute paths, and where a symbolic link leads. */
module AbsolutePath {
  import opened Texts
  import opened ArchivePath

  predicate Segment(text: string) {
    text != "" && text != "." && text != ".." && forall c <- text :: c != '/' && c != NUL
  }

  predicate AllSegments(segments: seq<string>) {
    forall i :: 0 <= i < |segments| ==> Segment(segments[i])
  }

  function Segments(path: string): seq<string> {
    if path == "/" || path == "" then [] else Split(path[1..], '/')
  }

  /** Absolute, without empty, dot or dot-dot segments, and without NUL. */
  predicate CanonicalAbsolute(path: string) {
    path != "" && path[0] == '/' && AllSegments(Segments(path))
  }

  function Render(segments: seq<string>): string {
    if segments == [] then "/" else "/" + Join(segments, '/')
  }

  /** Walk on from a directory: a dot stays, a dot-dot goes up but not above the root. */
  function WalkOn(directory: seq<string>, steps: seq<string>): seq<string>
    decreases |steps|
  {
    if steps == [] then directory
    else
      var next :=
        if steps[0] == "" || steps[0] == "." then directory
        else if steps[0] != ".." then directory + [steps[0]]
        else if directory == [] then [] else directory[..|directory| - 1];
      WalkOn(next, steps[1..])
  }

  /** `path.posix.resolve` of a link's target from the directory that holds the link. */
  function LeadsTo(link: string, target: string): string {
    var at := Segments(link);
    var directory := if target != "" && target[0] == '/' then [] else if at == [] then [] else at[..|at| - 1];
    Render(WalkOn(directory, Split(target, '/')))
  }

  lemma {:induction false} WalkStaysPlain(directory: seq<string>, steps: seq<string>)
    requires AllSegments(directory)
    requires forall i :: 0 <= i < |steps| ==> steps[i] == "" || steps[i] == "." || steps[i] == ".." || Segment(steps[i])
    ensures AllSegments(WalkOn(directory, steps))
    decreases |steps|
  {
    if steps != [] {
      var next :=
        if steps[0] == "" || steps[0] == "." then directory
        else if steps[0] != ".." then directory + [steps[0]]
        else if directory == [] then [] else directory[..|directory| - 1];
      assert AllSegments(next);
      WalkStaysPlain(next, steps[1..]);
    }
  }

  lemma RenderIsCanonical(segments: seq<string>)
    requires AllSegments(segments)
    ensures CanonicalAbsolute(Render(segments)) && Segments(Render(segments)) == segments
  {
    if segments != [] {
      assert Segment(segments[0]);
      assert Join(segments, '/') != "";
      assert Render(segments)[1..] == Join(segments, '/');
      forall part <- segments
        ensures '/' !in part
      {
        var i :| 0 <= i < |segments| && segments[i] == part;
        assert Segment(segments[i]);
      }
      SplitOfJoin(segments, '/');
    }
  }

  /** A link leads from a canonical path to a canonical path. */
  lemma LeadsToCanonical(link: string, target: string)
    requires CanonicalAbsolute(link) && NUL !in target
    ensures CanonicalAbsolute(LeadsTo(link, target))
  {
    var at, steps := Segments(link), Split(target, '/');
    var directory := if target != "" && target[0] == '/' then [] else if at == [] then [] else at[..|at| - 1];
    SplitKeepsCharacters(target, '/');
    forall i | 0 <= i < |steps|
      ensures steps[i] == "" || steps[i] == "." || steps[i] == ".." || Segment(steps[i])
    {
      assert steps[i] in steps;
      assert forall c <- steps[i] :: c in target && c != '/';
    }
    WalkStaysPlain(directory, steps);
    RenderIsCanonical(WalkOn(directory, steps));
  }

  // ---- where a link leads ----

  /** One more component of a path: a dot stays, a dot-dot goes to the parent, which the root is for itself. */
  predicate OneStep(before: seq<string>, step: string, after: seq<string>) {
    if step == "" || step == "." then after == before
    else if step == ".." then after == if before == [] then [] else before[..|before| - 1]
    else after == before + [step]
  }

  /** The directory that holds a link. */
  function Parent(link: string): seq<string> {
    if Segments(link) == [] then [] else Segments(link)[..|Segments(link)| - 1]
  }

  lemma {:induction false} WalkOneMore(directory: seq<string>, steps: seq<string>, step: string)
    ensures OneStep(WalkOn(directory, steps), step, WalkOn(directory, steps + [step]))
    decreases |steps|
  {
    if steps == [] {
      assert [step][1..] == [];
      assert WalkOn(directory, [step]) == WalkOn(WalkOn(directory, [step]), []);
    } else {
      var next :=
        if steps[0] == "" || steps[0] == "." then directory
        else if steps[0] != ".." then directory + [steps[0]]
        else if directory == [] then [] else directory[..|directory| - 1];
      WalkOneMore(next, steps[1..], step);
      assert (steps + [step])[1..] == steps[1..] + [step];
    }
  }

  /** The segments of what a link leads to are those of the walk. */
  lemma SegmentsOfTarget(link: string, target: string)
    requires CanonicalAbsolute(link) && NUL !in target
    ensures Segments(LeadsTo(link, target)) ==
              WalkOn(if target != "" && target[0] == '/' then [] else Parent(link), Split(target, '/'))
  {
    var steps := Split(target, '/');
    SplitKeepsCharacters(target, '/');
    forall i | 0 <= i < |steps|
      ensures steps[i] == "" || steps[i] == "." || steps[i] == ".." || Segment(steps[i])
    {
      assert steps[i] in steps;
      assert forall c <- steps[i] :: c in target && c != '/';
    }
    var directory := if target != "" && target[0] == '/' then [] else Parent(link);
    WalkStaysPlain(directory, steps);
    RenderIsCanonical(WalkOn(directory, steps));
  }

  /**
   * A target of one component leads on from the directory of the link, and one
   * that begins with a slash from the root.
   */
  lemma FirstComponent(link: string, step: string)
    requires CanonicalAbsolute(link) && '/' !in step && NUL !in step
    ensures OneStep(Parent(link), step, Segments(LeadsTo(link, step)))
    ensures OneStep([], step, Segments(LeadsTo(link, "/" + step)))
  {
    SegmentsOfTarget(link, step);
    SplitWithout(step, '/');
    WalkOneMore(Parent(link), [], step);
    assert [] + [step] == [step];
    SegmentsOfTarget(link, "/" + step);
    SplitAtFirst("", '/', step);
    assert "" + ['/'] + step == "/" + step;
    WalkOneMore([], [""], step);
    assert [""] + [step] == ["", step];
    assert [""][1..] == [];
  }

  /** Every further component leads on from where the target led before. */
  lemma NextComponent(link: string, target: string, step: string)
    requires CanonicalAbsolute(link) && target != "" && NUL !in target && '/' !in step && NUL !in step
    ensures OneStep(Segments(LeadsTo(link, target)), step, Segments(LeadsTo(link, target + "/" + step)))
  {
    var longer := target + "/" + step;
    SplitAtLast(target, '/', step);
    SegmentsOfTarget(link, target);
    SegmentsOfTarget(link, longer);
    assert longer[0] == target[0];
    WalkOneMore(if target[0] == '/' then [] else Parent(link), Split(target, '/'), step);
  }

  lemma {:induction false} PlainWalk(directory: seq<string>, steps: seq<string>)
    requires AllSegments(steps)
    ensures WalkOn(directory, steps) == directory + steps
    decreases |steps|
  {
    if steps != [] {
      assert Segment(steps[0]);
      assert forall i :: 0 <= i < |steps[1..]| ==> steps[1..][i] == steps[i + 1];
      PlainWalk(directory + [steps[0]], steps[1..]);
      assert directory + [steps[0]] + steps[1..] == directory + steps;
    }
  }

  /** A plain relative target stays below the directory of its link. */
  lemma PlainTarget(link: string, directory: seq<string>, name: string, target: string)
    requires CanonicalAbsolute(link) && Segments(link) == directory + [name] && AllSegments(Split(target, '/'))
    ensures Segments(LeadsTo(link, target)) == directory + Split(target, '/')
  {
    PlainCharacters(target);
    SegmentsOfTarget(link, target);
    PlainWalk(directory, Split(target, '/'));
    assert (directory + [name])[..|directory|] == directory;
  }

  /** A plain absolute target is where it says, whatever the link is. */
  lemma AbsoluteTarget(link: string, target: string)
    requires CanonicalAbsolute(link) && AllSegments(Split(target, '/'))
    ensures Segments(LeadsTo(link, "/" + target)) == Split(target, '/')
  {
    PlainCharacters(target);
    SegmentsOfTarget(link, "/" + target);
    SplitAtFirst("", '/', target);
    assert "" + ['/'] + target == "/" + target;
    PlainWalk([], Split(target, '/'));
    assert ([""] + Split(target, '/'))[1..] == Split(target, '/');
  }

  /** A target that begins with a dot-dot leads on from the parent of the link's directory. */
  lemma ParentTarget(link: string, directory: seq<string>, name: string, target: string)
    requires CanonicalAbsolute(link) && Segments(link) == directory + [name] && AllSegments(Split(target, '/'))
    ensures Segments(LeadsTo(link, "../" + target)) ==
              (if directory == [] then [] else directory[..|directory| - 1]) + Split(target, '/')
  {
    PlainCharacters(target);
    SegmentsOfTarget(link, "../" + target);
    SplitAtFirst("..", '/', target);
    assert ".." + ['/'] + target == "../" + target;
    PlainWalk(if directory == [] then [] else directory[..|directory| - 1], Split(target, '/'));
    assert ([".."] + Split(target, '/'))[1..] == Split(target, '/');
    assert (directory + [name])[..|directory|] == directory;
  }

  /** Texts of plain components have no NUL and begin with no slash. */
  lemma PlainCharacters(target: string)
    requires AllSegments(Split(target, '/'))
    ensures NUL !in target && target != "" && target[0] != '/'
  {
    var steps := Split(target, '/');
    JoinOfSplit(target, '/');
    PlainJoin(steps);
  }

  lemma {:induction false} PlainJoin(steps: seq<string>)
    requires AllSegments(steps) && steps != []
    ensures var text := Join(steps, '/'); NUL !in text && text != "" && text[0] != '/'
  {
    assert Segment(steps[0]);
    assert steps[0][0] in steps[0];
    if |steps| > 1 {
      assert forall i :: 0 <= i < |steps[1..]| ==> steps[1..][i] == steps[i + 1];
      PlainJoin(steps[1..]);
      assert Join(steps, '/') == steps[0] + ['/'] + Join(steps[1..], '/');
    }
  }

  /** Canonical paths are exactly what is written for lists of segments. */
  lemma CanonicalIsRendered(path: string)
    ensures CanonicalAbsolute(path) <==> AllSegments(Segments(path)) && path == Render(Segments(path))
  {
    if CanonicalAbsolute(path) && path != "/" {
      JoinOfSplit(path[1..], '/');
      assert path == ['/'] + path[1..];
    }
    if AllSegments(Segments(path)) && path == Render(Segments(path)) {
      assert path[0] == '/';
    }
  }
}
