/** Searching and splitting text; every character stands for one byte. */
module Texts {
  import opened Options

  /** The first place at or after `from` where `c` stands. */
  function IndexOf(text: string, c: char, from: nat): (index: Option<nat>)
    requires from <= |text|
    ensures index.None? ==> c !in text[from..]
    ensures index.Some? ==> from <= index.value < |text| && text[index.value] == c && c !in text[from..index.value]
    decreases |text| - from
  {
    if from == |text| then None
    else if text[from] == c then Some(from)
    else
      var rest := IndexOf(text, c, from + 1);
      assert text[from..] == [text[from]] + text[from + 1..];
      assert rest.Some? ==> text[from..rest.value] == [text[from]] + text[from + 1..rest.value];
      rest
  }

  lemma Associates(a: string, b: string, c: string)
    ensures a + (b + c) == a + b + c
  {
  }

  lemma AssociatesTwice(a: string, b: string, c: string, d: string)
    ensures a + (b + c + d) == a + b + c + d
  {
    Associates(a, b + c, d);
    Associates(a, b, c);
  }

  lemma CutAt(text: string, at: nat)
    requires at < |text|
    ensures text == text[..at] + [text[at]] + text[at + 1..]
  {
  }

  lemma TakeThrough(text: string, from: nat, to: nat)
    requires from <= to < |text|
    ensures text[..to + 1] == text[..from] + text[from..to] + [text[to]]
    ensures text[from..to] == text[from..][..to - from]
  {
  }

  function Split(text: string, c: char): (parts: seq<string>)
    ensures |parts| > 0
    ensures forall part <- parts :: c !in part
  {
    if text == "" then [""]
    else
      var rest := Split(text[1..], c);
      if text[0] == c then [""] + rest else [[text[0]] + rest[0]] + rest[1..]
  }

  function Join(parts: seq<string>, c: char): string
    requires |parts| > 0
  {
    if |parts| == 1 then parts[0] else parts[0] + [c] + Join(parts[1..], c)
  }

  lemma {:induction false} JoinOfSplit(text: string, c: char)
    ensures Join(Split(text, c), c) == text
  {
    if text != "" {
      JoinOfSplit(text[1..], c);
      var rest := Split(text[1..], c);
      assert text == [text[0]] + text[1..];
      if text[0] == c {
        assert ([""] + rest)[1..] == rest;
      } else {
        assert ([[text[0]] + rest[0]] + rest[1..])[1..] == rest[1..];
      }
    }
  }

  /** Splitting starts with the text up to the first separator. */
  lemma {:induction false} SplitAtFirst(head: string, c: char, tail: string)
    requires c !in head
    ensures Split(head + [c] + tail, c) == [head] + Split(tail, c)
  {
    var text := head + [c] + tail;
    if head == "" {
      assert text[1..] == tail;
    } else {
      SplitAtFirst(head[1..], c, tail);
      assert text[1..] == head[1..] + [c] + tail;
      assert head == [head[0]] + head[1..];
    }
  }

  /** Splitting ends with the text after the last separator. */
  lemma {:induction false} SplitAtLast(head: string, c: char, tail: string)
    requires c !in tail
    ensures Split(head + [c] + tail, c) == Split(head, c) + [tail]
  {
    var text := head + [c] + tail;
    if head == "" {
      assert text[1..] == tail;
      SplitWithout(tail, c);
    } else {
      SplitAtLast(head[1..], c, tail);
      assert text[1..] == head[1..] + [c] + tail;
      var rest := Split(head[1..], c);
      assert (rest + [tail])[1..] == rest[1..] + [tail];
    }
  }

  lemma {:induction false} SplitWithout(text: string, c: char)
    requires c !in text
    ensures Split(text, c) == [text]
  {
    if text != "" {
      SplitWithout(text[1..], c);
      assert text == [text[0]] + text[1..];
    }
  }

  lemma {:induction false} SplitOfJoin(parts: seq<string>, c: char)
    requires |parts| > 0 && forall part <- parts :: c !in part
    ensures Split(Join(parts, c), c) == parts
  {
    if |parts| == 1 {
      SplitWithout(parts[0], c);
    } else {
      SplitAtFirst(parts[0], c, Join(parts[1..], c));
      SplitOfJoin(parts[1..], c);
    }
  }

  /** The part before the first separator is determined by the whole text. */
  lemma {:induction false} FirstSeparatorIsUnique(a: string, b: string, c: char, aRest: string, bRest: string)
    requires c !in a && c !in b && a + [c] + aRest == b + [c] + bRest
    ensures a == b && aRest == bRest
  {
    var text := a + [c] + aRest;
    assert forall k :: 0 <= k < |a| ==> text[k] == a[k] && a[k] != c;
    assert forall k :: 0 <= k < |b| ==> text[k] == b[k] && b[k] != c;
    assert text[|a|] == c && text[|b|] == c;
    assert a == text[..|a|] && b == text[..|b|];
    assert aRest == text[|a| + 1..] && bRest == text[|b| + 1..];
  }

  /** The text of the first parts ends where the text has a separator. */
  lemma {:induction false} JoinOfPrefix(parts: seq<string>, c: char, index: nat)
    requires 0 < index < |parts|
    ensures Join(parts, c) == Join(parts[..index], c) + [c] + Join(parts[index..], c)
  {
    if index == 1 {
      assert parts[..1] == [parts[0]];
    } else {
      JoinOfPrefix(parts[1..], c, index - 1);
      assert parts[..index][1..] == parts[1..][..index - 1] && parts[index..] == parts[1..][index - 1..];
      var head, left, right := parts[0], Join(parts[1..][..index - 1], c), Join(parts[index..], c);
      assert head + [c] + (left + [c] + right) == head + [c] + left + [c] + right;
    }
  }

  /** Every separator of the joined text stands after some of the parts. */
  lemma {:induction false} SeparatorIsAfterParts(parts: seq<string>, c: char, k: nat) returns (index: nat)
    requires |parts| > 0 && (forall part <- parts :: c !in part) && k < |Join(parts, c)| && Join(parts, c)[k] == c
    ensures 0 < index < |parts| && Join(parts, c)[..k] == Join(parts[..index], c)
  {
    var head := parts[0];
    assert head in parts;
    assert forall j :: 0 <= j < |head| ==> head[j] in head && Join(parts, c)[j] == head[j];
    if |parts| > 1 {
      if k == |head| {
        index := 1;
        assert parts[..1] == [head];
      } else {
        var rest := Join(parts[1..], c);
        assert Join(parts, c) == head + [c] + rest;
        var inner := SeparatorIsAfterParts(parts[1..], c, k - |head| - 1);
        index := inner + 1;
        assert parts[..index][1..] == parts[1..][..inner] && parts[..index][0] == head;
        assert Join(parts, c)[..k] == head + [c] + rest[..k - |head| - 1];
      }
    }
  }
}
