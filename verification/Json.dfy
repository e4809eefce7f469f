/**
 * JSON values as JavaScript holds them, their text as `JSON.stringify` writes
 * it, and the proof that the text of a value determines the value.
 */
module Json {
  /** One UTF-16 code unit. */
  type CodeUnit = c: int | 0 <= c < 0x1_0000
  type Text = seq<CodeUnit>

  /**
   * Numbers are held by their text, which is taken to be injective.  The
   * members of an object are listed in the order in which JavaScript
   * enumerates them.
   */
  datatype Json =
    | Null
    | Bool(value: bool)
    | Number(text: Text)
    | String(chars: Text)
    | Array(items: seq<Json>)
    | Object(members: seq<Member>)

  datatype Member = Member(key: Text, value: Json)

  const QUOTE: CodeUnit := 0x22
  const BACKSLASH: CodeUnit := 0x5c
  const COMMA: CodeUnit := 0x2c
  const COLON: CodeUnit := 0x3a
  const OPEN_BRACKET: CodeUnit := 0x5b
  const CLOSE_BRACKET: CodeUnit := 0x5d
  const OPEN_BRACE: CodeUnit := 0x7b
  const CLOSE_BRACE: CodeUnit := 0x7d
  const NULL_TEXT: Text := [0x6e, 0x75, 0x6c, 0x6c]
  const TRUE_TEXT: Text := [0x74, 0x72, 0x75, 0x65]
  const FALSE_TEXT: Text := [0x66, 0x61, 0x6c, 0x73, 0x65]

  predicate HighSurrogate(c: CodeUnit) {
    0xd800 <= c < 0xdc00
  }

  predicate LowSurrogate(c: CodeUnit) {
    0xdc00 <= c < 0xe000
  }

  predicate Paired(s: Text) {
    |s| >= 2 && HighSurrogate(s[0]) && LowSurrogate(s[1])
  }

  function HexDigit(d: int): CodeUnit
    requires 0 <= d < 16
  {
    if d < 10 then 0x30 + d else 0x61 + d - 10
  }

  function UnicodeEscape(c: CodeUnit): Text {
    [BACKSLASH, 0x75, HexDigit(c / 0x1000), HexDigit(c / 0x100 % 16), HexDigit(c / 0x10 % 16), HexDigit(c % 16)]
  }

  /** The text of one code unit that is not part of a surrogate pair. */
  function EscapeUnit(c: CodeUnit): Text {
    if c == QUOTE || c == BACKSLASH then [BACKSLASH, c]
    else if c == 0x08 then [BACKSLASH, 0x62]
    else if c == 0x0c then [BACKSLASH, 0x66]
    else if c == 0x0a then [BACKSLASH, 0x6e]
    else if c == 0x0d then [BACKSLASH, 0x72]
    else if c == 0x09 then [BACKSLASH, 0x74]
    else if c < 0x20 || HighSurrogate(c) || LowSurrogate(c) then UnicodeEscape(c)
    else [c]
  }

  function Escape(s: Text): Text {
    if s == [] then []
    else if Paired(s) then [s[0], s[1]] + Escape(s[2..])
    else EscapeUnit(s[0]) + Escape(s[1..])
  }

  function PrintString(s: Text): Text {
    [QUOTE] + Escape(s) + [QUOTE]
  }

  function Print(v: Json): Text
    decreases v, 0
  {
    match v
    case Null => NULL_TEXT
    case Bool(b) => if b then TRUE_TEXT else FALSE_TEXT
    case Number(text) => text
    case String(chars) => PrintString(chars)
    case Array(items) => [OPEN_BRACKET] + PrintItems(items) + [CLOSE_BRACKET]
    case Object(members) => [OPEN_BRACE] + PrintMembers(members) + [CLOSE_BRACE]
  }

  function PrintItems(items: seq<Json>): Text
    decreases items, 1
  {
    if items == [] then []
    else if |items| == 1 then Print(items[0])
    else Print(items[0]) + [COMMA] + PrintItems(items[1..])
  }

  function PrintMember(m: Member): Text
    decreases m, 1
  {
    PrintString(m.key) + [COLON] + Print(m.value)
  }

  function PrintMembers(members: seq<Member>): Text
    decreases members, 1
  {
    if members == [] then []
    else if |members| == 1 then PrintMember(members[0])
    else PrintMember(members[0]) + [COMMA] + PrintMembers(members[1..])
  }

  predicate NumberUnit(c: CodeUnit) {
    0x30 <= c < 0x3a || c == 0x2d || c == 0x2b || c == 0x2e || c == 0x65 || c == 0x45
  }

  /** The text that a finite number may print as. */
  predicate NumberText(text: Text) {
    text != [] && (0x30 <= text[0] < 0x3a || text[0] == 0x2d) && forall c <- text :: NumberUnit(c)
  }

  predicate DistinctKeys(members: seq<Member>) {
    forall i, j :: 0 <= i < j < |members| ==> members[i].key != members[j].key
  }

  predicate WellFormed(v: Json) {
    match v
    case Number(text) => NumberText(text)
    case Array(items) => forall item <- items :: WellFormed(item)
    case Object(members) => DistinctKeys(members) && forall m <- members :: WellFormed(m.value)
    case _ => true
  }

  /** What may follow a value: the end of the text, a comma, or a closing bracket. */
  predicate Ends(rest: Text) {
    rest == [] || rest[0] == COMMA || rest[0] == CLOSE_BRACKET || rest[0] == CLOSE_BRACE
  }

  lemma HexDigitIsInjective(d: int, e: int)
    requires 0 <= d < 16 && 0 <= e < 16 && HexDigit(d) == HexDigit(e)
    ensures d == e
  {
  }

  lemma FromNibbles(c: CodeUnit)
    ensures c == c / 0x1000 * 0x1000 + c / 0x100 % 16 * 0x100 + c / 0x10 % 16 * 0x10 + c % 16
  {
    var c1 := c / 0x10;
    var c2 := c / 0x100;
    var c3 := c / 0x1000;
    assert c == c1 * 16 + c % 16;
    assert c1 == c2 * 16 + c1 % 16;
    assert c2 == c3 * 16 + c2 % 16;
  }

  lemma HexDigitsDetermine(c: CodeUnit, d: CodeUnit)
    requires UnicodeEscape(c) == UnicodeEscape(d)
    ensures c == d
  {
    var e, f := UnicodeEscape(c), UnicodeEscape(d);
    assert e[2] == f[2] && e[3] == f[3] && e[4] == f[4] && e[5] == f[5];
    HexDigitIsInjective(c / 0x1000, d / 0x1000);
    HexDigitIsInjective(c / 0x100 % 16, d / 0x100 % 16);
    HexDigitIsInjective(c / 0x10 % 16, d / 0x10 % 16);
    HexDigitIsInjective(c % 16, d % 16);
    FromNibbles(c);
    FromNibbles(d);
  }

  /** The text of a code unit shows where it ends and which code unit it stands for. */
  lemma UnitIsPrefixFree(c: CodeUnit, d: CodeUnit, x: Text, y: Text)
    requires EscapeUnit(c) + x == EscapeUnit(d) + y
    ensures c == d && x == y
  {
    var p, q := EscapeUnit(c) + x, EscapeUnit(d) + y;
    assert p[0] == EscapeUnit(c)[0] && q[0] == EscapeUnit(d)[0];
    if p[0] == BACKSLASH {
      assert p[1] == EscapeUnit(c)[1] && q[1] == EscapeUnit(d)[1];
    }
    assert |EscapeUnit(c)| == |EscapeUnit(d)|;
    assert EscapeUnit(c) == p[..|EscapeUnit(c)|] == q[..|EscapeUnit(d)|] == EscapeUnit(d);
    assert x == p[|EscapeUnit(c)|..] && y == q[|EscapeUnit(d)|..];
    if |EscapeUnit(c)| == 6 {
      HexDigitsDetermine(c, d);
    }
  }

  /** What the text of a string begins with. */
  lemma EscapeBegins(s: Text, x: Text)
    requires s != []
    ensures Escape(s) + [QUOTE] + x ==
            if Paired(s) then [s[0], s[1]] + (Escape(s[2..]) + [QUOTE] + x)
            else EscapeUnit(s[0]) + (Escape(s[1..]) + [QUOTE] + x)
    ensures (Escape(s) + [QUOTE] + x)[0] == Escape(s)[0] != QUOTE
  {
    FirstOfEscape(s);
    if Paired(s) {
      RegroupFour([s[0], s[1]], Escape(s[2..]), [QUOTE], x);
    } else {
      RegroupFour(EscapeUnit(s[0]), Escape(s[1..]), [QUOTE], x);
    }
  }

  lemma RegroupFour(a: Text, b: Text, c: Text, d: Text)
    ensures a + b + c + d == a + (b + c + d)
  {
  }

  lemma SamePair(a: Text, b: Text, x: Text, y: Text)
    requires |a| == |b| == 2 && a + x == b + y
    ensures a == b && x == y
  {
    assert a == (a + x)[..2] == (b + y)[..2] == b;
    assert x == (a + x)[2..] == (b + y)[2..] == y;
  }

  /** A string is read back up to its closing quote, whatever follows. */
  lemma {:induction false} EscapeIsPrefixFree(a: Text, b: Text, x: Text, y: Text)
    requires Escape(a) + [QUOTE] + x == Escape(b) + [QUOTE] + y
    ensures a == b && x == y
    decreases |a| + |b|
  {
    var p, q := Escape(a) + [QUOTE] + x, Escape(b) + [QUOTE] + y;
    FirstOfEscape(a);
    FirstOfEscape(b);
    if a != [] {
      EscapeBegins(a, x);
    }
    if b != [] {
      EscapeBegins(b, y);
    }
    if a == [] || b == [] {
      assert x == p[1..] && y == q[1..];
    } else if Paired(a) {
      SamePair([a[0], a[1]], [b[0], b[1]], Escape(a[2..]) + [QUOTE] + x, Escape(b[2..]) + [QUOTE] + y);
      EscapeIsPrefixFree(a[2..], b[2..], x, y);
      assert a == [a[0], a[1]] + a[2..] && b == [b[0], b[1]] + b[2..];
    } else {
      UnitIsPrefixFree(a[0], b[0], Escape(a[1..]) + [QUOTE] + x, Escape(b[1..]) + [QUOTE] + y);
      EscapeIsPrefixFree(a[1..], b[1..], x, y);
      assert a == [a[0]] + a[1..] && b == [b[0]] + b[1..];
    }
  }

  lemma FirstOfEscape(s: Text)
    ensures s != [] ==> Escape(s) != [] && Escape(s)[0] != QUOTE
    ensures s != [] ==> (HighSurrogate(Escape(s)[0]) <==> Paired(s)) && !LowSurrogate(Escape(s)[0])
  {
  }

  lemma StringIsPrefixFree(a: Text, b: Text, x: Text, y: Text)
    requires PrintString(a) + x == PrintString(b) + y
    ensures a == b && x == y
  {
    assert PrintString(a) + x == [QUOTE] + (Escape(a) + [QUOTE] + x);
    assert PrintString(b) + y == [QUOTE] + (Escape(b) + [QUOTE] + y);
    assert (PrintString(a) + x)[1..] == Escape(a) + [QUOTE] + x;
    assert (PrintString(b) + y)[1..] == Escape(b) + [QUOTE] + y;
    EscapeIsPrefixFree(a, b, x, y);
  }

  lemma {:induction false} NumberIsPrefixFree(a: Text, b: Text, x: Text, y: Text)
    requires (forall c <- a :: NumberUnit(c)) && (forall c <- b :: NumberUnit(c)) && Ends(x) && Ends(y)
    requires a + x == b + y
    ensures a == b && x == y
    decreases |a|
  {
    var p, q := a + x, b + y;
    assert a == [] ==> p == x;
    assert b == [] ==> q == y;
    assert a != [] ==> p[0] == a[0];
    assert b != [] ==> q[0] == b[0];
    assert (a != [] ==> a[0] in a) && (b != [] ==> b[0] in b);
    if a != [] && b != [] {
      assert p[1..] == a[1..] + x && q[1..] == b[1..] + y;
      NumberIsPrefixFree(a[1..], b[1..], x, y);
      assert a == [a[0]] + a[1..] && b == [b[0]] + b[1..];
    }
  }

  /** The first code unit of a text tells which kind of value it prints. */
  lemma FirstOfPrint(v: Json)
    requires WellFormed(v)
    ensures Print(v) != []
    ensures Print(v)[0] ==
            match v
            case Null => 0x6e
            case Bool(b) => if b then 0x74 else 0x66
            case Number(text) => text[0]
            case String(_) => QUOTE
            case Array(_) => OPEN_BRACKET
            case Object(_) => OPEN_BRACE
  {
  }

  lemma Unwrap(first: CodeUnit, inner: Text, last: CodeUnit, x: Text)
    ensures ([first] + inner + [last] + x)[1..] == inner + [last] + x
  {
  }

  /** A value is read back from its text, whatever follows it. */
  lemma {:induction false} PrintIsPrefixFree(a: Json, b: Json, x: Text, y: Text)
    requires WellFormed(a) && WellFormed(b) && Ends(x) && Ends(y)
    requires Print(a) + x == Print(b) + y
    ensures a == b && x == y
    decreases a, 2
  {
    FirstOfPrint(a);
    FirstOfPrint(b);
    assert Print(a)[0] == (Print(a) + x)[0] == (Print(b) + y)[0] == Print(b)[0];
    if a.Array? {
      Unwrap(OPEN_BRACKET, PrintItems(a.items), CLOSE_BRACKET, x);
      Unwrap(OPEN_BRACKET, PrintItems(b.items), CLOSE_BRACKET, y);
      ItemsArePrefixFree(a.items, b.items, x, y);
    } else if a.Object? {
      Unwrap(OPEN_BRACE, PrintMembers(a.members), CLOSE_BRACE, x);
      Unwrap(OPEN_BRACE, PrintMembers(b.members), CLOSE_BRACE, y);
      MembersArePrefixFree(a.members, b.members, x, y);
    } else {
      ScalarIsPrefixFree(a, b, x, y);
    }
  }

  lemma ScalarIsPrefixFree(a: Json, b: Json, x: Text, y: Text)
    requires WellFormed(a) && WellFormed(b) && Ends(x) && Ends(y) && Print(a)[0] == Print(b)[0]
    requires Print(a) + x == Print(b) + y && !a.Array? && !a.Object?
    ensures a == b && x == y
  {
    FirstOfPrint(b);
    if a.Number? {
      NumberIsPrefixFree(a.text, b.text, x, y);
    } else if a.String? {
      StringIsPrefixFree(a.chars, b.chars, x, y);
    } else {
      assert x == (Print(a) + x)[|Print(a)|..] && y == (Print(b) + y)[|Print(b)|..];
    }
  }

  /** What the text of a list begins with. */
  lemma ItemsBegin(a: seq<Json>, x: Text)
    requires a != []
    ensures PrintItems(a) + [CLOSE_BRACKET] + x ==
            Print(a[0]) + if |a| == 1 then [CLOSE_BRACKET] + x else [COMMA] + (PrintItems(a[1..]) + [CLOSE_BRACKET] + x)
  {
    Regroup(Print(a[0]), [COMMA], if |a| > 1 then PrintItems(a[1..]) else [], [CLOSE_BRACKET], x);
  }

  lemma {:induction false} ItemsArePrefixFree(a: seq<Json>, b: seq<Json>, x: Text, y: Text)
    requires (forall v <- a :: WellFormed(v)) && (forall v <- b :: WellFormed(v))
    requires PrintItems(a) + [CLOSE_BRACKET] + x == PrintItems(b) + [CLOSE_BRACKET] + y
    ensures a == b && x == y
    decreases a, 3
  {
    var p, q := PrintItems(a) + [CLOSE_BRACKET] + x, PrintItems(b) + [CLOSE_BRACKET] + y;
    if a != [] {
      FirstOfPrint(a[0]);
      assert p[0] == Print(a[0])[0];
    }
    if b != [] {
      FirstOfPrint(b[0]);
      assert q[0] == Print(b[0])[0];
    }
    if a == [] || b == [] {
      assert x == p[1..] && y == q[1..];
    } else {
      var u := if |a| == 1 then [CLOSE_BRACKET] + x else [COMMA] + (PrintItems(a[1..]) + [CLOSE_BRACKET] + x);
      var w := if |b| == 1 then [CLOSE_BRACKET] + y else [COMMA] + (PrintItems(b[1..]) + [CLOSE_BRACKET] + y);
      ItemsBegin(a, x);
      ItemsBegin(b, y);
      PrintIsPrefixFree(a[0], b[0], u, w);
      assert u[0] == w[0] && u[1..] == w[1..];
      if |a| > 1 {
        ItemsArePrefixFree(a[1..], b[1..], x, y);
        assert a == [a[0]] + a[1..] && b == [b[0]] + b[1..];
      }
    }
  }

  lemma MemberBegins(m: Member, u: Text)
    ensures PrintMember(m) + u == PrintString(m.key) + ([COLON] + (Print(m.value) + u))
    ensures ([COLON] + (Print(m.value) + u))[1..] == Print(m.value) + u
    ensures (PrintMember(m) + u)[0] == QUOTE
  {
    assert PrintString(m.key)[0] == QUOTE;
  }

  lemma {:induction false} MemberIsPrefixFree(a: Member, b: Member, u: Text, w: Text)
    requires WellFormed(a.value) && WellFormed(b.value) && Ends(u) && Ends(w)
    requires PrintMember(a) + u == PrintMember(b) + w
    ensures a == b && u == w
    decreases a, 3
  {
    MemberBegins(a, u);
    MemberBegins(b, w);
    StringIsPrefixFree(a.key, b.key, [COLON] + (Print(a.value) + u), [COLON] + (Print(b.value) + w));
    PrintIsPrefixFree(a.value, b.value, u, w);
  }

  lemma Regroup(p: Text, c: Text, r: Text, e: Text, x: Text)
    ensures p + c + r + e + x == p + (c + (r + e + x))
    ensures p + e + x == p + (e + x)
  {
  }

  /** What follows the first member of an object's text. */
  function AfterFirst(a: seq<Member>, x: Text): Text
    requires a != []
  {
    if |a| == 1 then [CLOSE_BRACE] + x else [COMMA] + (PrintMembers(a[1..]) + [CLOSE_BRACE] + x)
  }

  lemma MembersBegin(a: seq<Member>, x: Text)
    requires a != []
    ensures PrintMembers(a) + [CLOSE_BRACE] + x == PrintMember(a[0]) + AfterFirst(a, x) && Ends(AfterFirst(a, x))
    ensures (PrintMembers(a) + [CLOSE_BRACE] + x)[0] == QUOTE
  {
    MemberBegins(a[0], AfterFirst(a, x));
    Regroup(PrintMember(a[0]), [COMMA], PrintMembers(a[1..]), [CLOSE_BRACE], x);
  }

  lemma AfterFirstEnds(a: seq<Member>, x: Text)
    requires a != []
    ensures Ends(AfterFirst(a, x))
    ensures AfterFirst(a, x)[1..] == if |a| == 1 then x else PrintMembers(a[1..]) + [CLOSE_BRACE] + x
  {
  }

  lemma {:induction false} MembersArePrefixFree(a: seq<Member>, b: seq<Member>, x: Text, y: Text)
    requires (forall m <- a :: WellFormed(m.value)) && (forall m <- b :: WellFormed(m.value))
    requires PrintMembers(a) + [CLOSE_BRACE] + x == PrintMembers(b) + [CLOSE_BRACE] + y
    ensures a == b && x == y
    decreases a, 3
  {
    if a == [] || b == [] {
      EmptyMembersArePrefixFree(a, b, x, y);
    } else {
      BothBegin(a, b, x, y);
      MemberIsPrefixFree(a[0], b[0], AfterFirst(a, x), AfterFirst(b, y));
      SameRest(a, b, x, y);
      if |a| > 1 {
        MembersArePrefixFree(a[1..], b[1..], x, y);
      }
      SameHeadAndTail(a, b);
    }
  }

  lemma BothBegin(a: seq<Member>, b: seq<Member>, x: Text, y: Text)
    requires a != [] && b != []
    requires PrintMembers(a) + [CLOSE_BRACE] + x == PrintMembers(b) + [CLOSE_BRACE] + y
    ensures PrintMember(a[0]) + AfterFirst(a, x) == PrintMember(b[0]) + AfterFirst(b, y)
    ensures Ends(AfterFirst(a, x)) && Ends(AfterFirst(b, y))
  {
    MembersBegin(a, x);
    MembersBegin(b, y);
  }

  lemma SameHeadAndTail(a: seq<Member>, b: seq<Member>)
    requires a != [] && b != [] && a[0] == b[0] && a[1..] == b[1..]
    ensures a == b
  {
    assert a == [a[0]] + a[1..] && b == [b[0]] + b[1..];
  }

  lemma EmptyMembersArePrefixFree(a: seq<Member>, b: seq<Member>, x: Text, y: Text)
    requires a == [] || b == []
    requires PrintMembers(a) + [CLOSE_BRACE] + x == PrintMembers(b) + [CLOSE_BRACE] + y
    ensures a == b && x == y
  {
    if a != [] {
      MembersBegin(a, x);
    }
    if b != [] {
      MembersBegin(b, y);
    }
    assert x == (PrintMembers(a) + [CLOSE_BRACE] + x)[1..] && y == (PrintMembers(b) + [CLOSE_BRACE] + y)[1..];
  }

  /** What follows equal first members says whether there are more. */
  lemma SameRest(a: seq<Member>, b: seq<Member>, x: Text, y: Text)
    requires a != [] && b != [] && AfterFirst(a, x) == AfterFirst(b, y)
    ensures |a| == 1 <==> |b| == 1
    ensures if |a| == 1 then x == y
            else PrintMembers(a[1..]) + [CLOSE_BRACE] + x == PrintMembers(b[1..]) + [CLOSE_BRACE] + y
  {
    AfterFirstEnds(a, x);
    AfterFirstEnds(b, y);
    assert AfterFirst(a, x)[0] == AfterFirst(b, y)[0] && AfterFirst(a, x)[1..] == AfterFirst(b, y)[1..];
  }

  /** Different values, or the same members in different orders, print differently. */
  lemma PrintIsInjective(a: Json, b: Json)
    requires WellFormed(a) && WellFormed(b) && Print(a) == Print(b)
    ensures a == b
  {
    assert Print(a) + [] == Print(b) + [];
    PrintIsPrefixFree(a, b, [], []);
  }
}
