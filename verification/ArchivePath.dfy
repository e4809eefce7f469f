/** The paths that a source archive may name. */
module ArchivePath {
  import opened Options
  import opened Texts

  const MAX_PATH_BYTES := 4 * 1024
  const NUL := '\0'

  datatype PathFault = NotCanonical | WrongType

  // ---- the posix path library, for relative paths ----

  function Resolve(components: seq<string>, resolved: seq<string>): seq<string> {
    if components == [] then resolved
    else
      var first := components[0];
      var next :=
        if first == "" || first == "." then resolved
        else if first != ".." || resolved == [] || resolved[|resolved| - 1] == ".." then resolved + [first]
        else resolved[..|resolved| - 1];
      Resolve(components[1..], next)
  }

  /** `path.posix.normalize` of a path that is neither empty nor absolute. */
  function Normalize(text: string): string
    requires text != ""
  {
    var resolved := Resolve(Split(text, '/'), []);
    var trailing := if text[|text| - 1] == '/' then "/" else "";
    if resolved == [] then "." + trailing else Join(resolved, '/') + trailing
  }

  // ---- canonical paths ----

  predicate Plain(component: string) {
    component != "" && component != "." && component != ".." && forall c <- component :: c != '/' && c != '\\' && c != NUL
  }

  /** A relative path of plain components, which is its own normal form. */
  predicate Canonical(text: string) {
    forall component <- Split(text, '/') :: Plain(component)
  }

  lemma {:induction false} PlainResolvesToItself(components: seq<string>, resolved: seq<string>)
    requires forall component <- components :: Plain(component)
    ensures Resolve(components, resolved) == resolved + components
  {
    if components != [] {
      PlainResolvesToItself(components[1..], resolved + [components[0]]);
      assert Plain(components[0]);
      assert resolved + components == resolved + [components[0]] + components[1..];
    }
  }

  lemma {:induction false} JoinEndsPlainly(components: seq<string>)
    requires |components| > 0 && forall component <- components :: Plain(component)
    ensures var text := Join(components, '/'); text != "" && text[0] != '/' && text[|text| - 1] != '/'
    ensures forall c <- Join(components, '/') :: c != '\\' && c != NUL
  {
    var first := components[0];
    assert Plain(first);
    assert first[0] in first && first[|first| - 1] in first;
    if |components| > 1 {
      JoinEndsPlainly(components[1..]);
      var rest := Join(components[1..], '/');
      assert Join(components, '/') == first + ['/'] + rest;
    }
  }

  lemma CanonicalIsNormal(text: string)
    requires Canonical(text)
    ensures text != "" && text[0] != '/' && text[|text| - 1] != '/' && Normalize(text) == text
    ensures forall c <- text :: c != '\\' && c != NUL
  {
    JoinOfSplit(text, '/');
    JoinEndsPlainly(Split(text, '/'));
    PlainResolvesToItself(Split(text, '/'), []);
    assert [] + Split(text, '/') == Split(text, '/');
  }

  /** Characters of a component are characters of the text. */
  lemma {:induction false} SplitKeepsCharacters(text: string, c: char)
    ensures forall part <- Split(text, c) :: forall x <- part :: x in text
  {
    if text != "" {
      SplitKeepsCharacters(text[1..], c);
      var rest := Split(text[1..], c);
      assert text == [text[0]] + text[1..];
      forall part <- Split(text, c)
        ensures forall x <- part :: x in text
      {
        if text[0] == c {
          assert part == "" || part in rest;
        } else {
          assert rest[0] in rest;
          assert part == [text[0]] + rest[0] || part in rest;
        }
      }
    }
  }

  function ValidateArchivePath(rawPath: string, directory: bool): Result<string, PathFault> {
    if rawPath == "" || '\\' in rawPath || NUL in rawPath || rawPath[0] == '/' || |rawPath| > MAX_PATH_BYTES then
      Err(NotCanonical)
    else
      var hasTerminalSlash := rawPath[|rawPath| - 1] == '/';
      if directory != hasTerminalSlash then Err(WrongType)
      else
        var logicalPath := if hasTerminalSlash then rawPath[..|rawPath| - 1] else rawPath;
        if logicalPath == "" || Normalize(logicalPath) != logicalPath ||
           (exists component <- Split(logicalPath, '/') :: component == "" || component == "." || component == "..")
        then Err(NotCanonical)
        else Ok(logicalPath)
  }

  /** How an archive writes a canonical path. */
  function Written(text: string, directory: bool): string {
    if directory then text + "/" else text
  }

  /** What is accepted is exactly what is written for a canonical path, and the path is read back. */
  lemma AcceptsExactlyCanonicalPaths(rawPath: string, directory: bool, text: string)
    ensures ValidateArchivePath(rawPath, directory) == Ok(text) <==>
              |rawPath| <= MAX_PATH_BYTES && Canonical(text) && rawPath == Written(text, directory)
  {
    if rawPath == Written(text, directory) {
      if Canonical(text) && |rawPath| <= MAX_PATH_BYTES {
        CanonicalIsNormal(text);
        assert rawPath[0] == text[0];
        assert directory ==> rawPath[..|rawPath| - 1] == text;
      }
      if ValidateArchivePath(rawPath, directory) == Ok(text) {
        SplitKeepsCharacters(text, '/');
        forall component <- Split(text, '/')
          ensures Plain(component)
        {
          assert forall c <- component :: c in text;
          assert forall c <- text :: c in rawPath;
        }
      }
    }
  }
}
