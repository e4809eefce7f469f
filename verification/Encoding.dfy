/** Texts in UTF-8 (section 4 of RFC 3629), and the decoder that drops a leading byte order mark. */
module Encoding {
  predicate Between(low: char, c: char, high: char) {
    low <= c <= high
  }

  predicate Continues(c: char) {
    Between('\U{80}', c, '\U{BF}')
  }

  /** The second of three bytes: no overlong form and no surrogate. */
  predicate SecondOfThree(first: char, c: char) {
    Between(if first == '\U{E0}' then '\U{A0}' else '\U{80}', c, if first == '\U{ED}' then '\U{9F}' else '\U{BF}')
  }

  /** The second of four bytes: no overlong form and nothing beyond the last code point. */
  predicate SecondOfFour(first: char, c: char) {
    Between(if first == '\U{F0}' then '\U{90}' else '\U{80}', c, if first == '\U{F4}' then '\U{8F}' else '\U{BF}')
  }

  /** How many bytes the first character takes; 0 when they encode none. */
  function FirstLength(bytes: string): (length: nat)
    ensures length <= |bytes|
  {
    if bytes == "" then 0
    else if bytes[0] < '\U{80}' then 1
    else if Between('\U{C2}', bytes[0], '\U{DF}') && |bytes| >= 2 && Continues(bytes[1]) then 2
    else if Between('\U{E0}', bytes[0], '\U{EF}') && |bytes| >= 3 && SecondOfThree(bytes[0], bytes[1]) && Continues(bytes[2]) then 3
    else if Between('\U{F0}', bytes[0], '\U{F4}') && |bytes| >= 4 && SecondOfFour(bytes[0], bytes[1]) && Continues(bytes[2]) && Continues(bytes[3]) then 4
    else 0
  }

  predicate Utf8(bytes: string) {
    bytes == "" || (FirstLength(bytes) > 0 && Utf8(bytes[FirstLength(bytes)..]))
  }

  lemma {:induction false} AsciiIsUtf8(text: string)
    requires forall i :: 0 <= i < |text| ==> text[i] < '\U{80}'
    ensures Utf8(text)
  {
    if text != "" {
      AsciiIsUtf8(text[1..]);
    }
  }

  // ---- what the bytes stand for ----

  /** A code point that is no surrogate. */
  predicate Scalar(p: int) {
    0 <= p <= 0x10_FFFF && !(0xD800 <= p <= 0xDFFF)
  }

  function EncodePoint(p: int): string
    requires Scalar(p)
  {
    if p < 0x80 then [p as char]
    else if p < 0x800 then [(0xC0 + p / 64) as char, (0x80 + p % 64) as char]
    else if p < 0x1_0000 then [(0xE0 + p / 4096) as char, (0x80 + p / 64 % 64) as char, (0x80 + p % 64) as char]
    else
      [(0xF0 + p / 262_144) as char, (0x80 + p / 4096 % 64) as char, (0x80 + p / 64 % 64) as char, (0x80 + p % 64) as char]
  }

  predicate Scalars(points: seq<int>) {
    forall i :: 0 <= i < |points| ==> Scalar(points[i])
  }

  function EncodeAll(points: seq<int>): string
    requires Scalars(points)
  {
    if points == [] then "" else EncodePoint(points[0]) + EncodeAll(points[1..])
  }

  lemma EncodedHasItsLength(p: int, rest: string)
    requires Scalar(p)
    ensures FirstLength(EncodePoint(p) + rest) == |EncodePoint(p)|
  {
    var point := EncodePoint(p);
    var bytes := point + rest;
    assert bytes[0] == point[0];
    if |point| == 2 {
      assert bytes[1] == point[1];
    } else if |point| == 3 {
      assert bytes[1] == point[1] && bytes[2] == point[2];
    } else if |point| == 4 {
      FourAreFour(p, point, bytes);
    }
  }

  lemma FourAreFour(p: int, point: string, bytes: string)
    requires 0x1_0000 <= p <= 0x10_FFFF && point == EncodePoint(p) && point <= bytes
    ensures FirstLength(bytes) == 4
  {
    assert bytes[0] == point[0] && bytes[1] == point[1] && bytes[2] == point[2] && bytes[3] == point[3];
  }

  lemma {:induction false} EncodedIsUtf8(points: seq<int>)
    requires Scalars(points)
    ensures Utf8(EncodeAll(points))
  {
    if points != [] {
      var rest := EncodeAll(points[1..]);
      EncodedHasItsLength(points[0], rest);
      EncodedIsUtf8(points[1..]);
      assert (EncodePoint(points[0]) + rest)[|EncodePoint(points[0])|..] == rest;
    }
  }

  /** The code point that the first bytes stand for. */
  lemma TwoBytes(bytes: string) returns (p: int)
    requires FirstLength(bytes) == 2
    ensures Scalar(p) && bytes[..2] == EncodePoint(p)
  {
    p := (bytes[0] as int - 0xC0) * 64 + bytes[1] as int - 0x80;
    assert p / 64 == bytes[0] as int - 0xC0 && p % 64 == bytes[1] as int - 0x80;
    assert bytes[..2] == [bytes[0], bytes[1]];
  }

  lemma ThreeBytes(bytes: string) returns (p: int)
    requires FirstLength(bytes) == 3
    ensures Scalar(p) && bytes[..3] == EncodePoint(p)
  {
    var a, b, c := bytes[0] as int - 0xE0, bytes[1] as int - 0x80, bytes[2] as int - 0x80;
    p := a * 4096 + b * 64 + c;
    assert p / 4096 == a && p / 64 % 64 == b && p % 64 == c;
    assert bytes[..3] == [bytes[0], bytes[1], bytes[2]];
  }

  lemma FourBytes(bytes: string) returns (p: int)
    requires FirstLength(bytes) == 4
    ensures Scalar(p) && bytes[..4] == EncodePoint(p)
  {
    var a, b, c, d := bytes[0] as int - 0xF0, bytes[1] as int - 0x80, bytes[2] as int - 0x80, bytes[3] as int - 0x80;
    p := FourDigits(a, b, c, d);
    assert bytes[..4] == [bytes[0], bytes[1], bytes[2], bytes[3]];
  }

  lemma FourDigits(a: int, b: int, c: int, d: int) returns (p: int)
    requires 0 <= a <= 4 && 0 <= b < 64 && 0 <= c < 64 && 0 <= d < 64
    ensures p == a * 262_144 + b * 4096 + c * 64 + d
    ensures p / 262_144 == a && p / 4096 % 64 == b && p / 64 % 64 == c && p % 64 == d
  {
    p := a * 262_144 + b * 4096 + c * 64 + d;
    var q := a * 4096 + b * 64 + c;
    assert p == q * 64 + d;
    assert p / 64 == q;
    assert p / 4096 == a * 64 + b;
  }

  lemma FirstPoint(bytes: string) returns (p: int)
    requires FirstLength(bytes) > 0
    ensures Scalar(p) && bytes[..FirstLength(bytes)] == EncodePoint(p)
  {
    if FirstLength(bytes) == 1 {
      p := bytes[0] as int;
      assert bytes[..1] == [bytes[0]];
    } else if FirstLength(bytes) == 2 {
      p := TwoBytes(bytes);
    } else if FirstLength(bytes) == 3 {
      p := ThreeBytes(bytes);
    } else {
      p := FourBytes(bytes);
    }
  }

  lemma {:induction false} Utf8IsEncoded(bytes: string) returns (points: seq<int>)
    requires Utf8(bytes)
    ensures Scalars(points) && bytes == EncodeAll(points)
  {
    points := [];
    if bytes != "" {
      var length := FirstLength(bytes);
      var p := FirstPoint(bytes);
      var rest := Utf8IsEncoded(bytes[length..]);
      points := [p] + rest;
      assert points[1..] == rest && bytes == bytes[..length] + bytes[length..];
    }
  }

  /** Bytes are UTF-8 exactly when they encode some code points, surrogates apart. */
  lemma Utf8ExactlyWhenEncoded(bytes: string)
    ensures Utf8(bytes) <==> exists points :: Scalars(points) && bytes == EncodeAll(points)
  {
    if Utf8(bytes) {
      var points := Utf8IsEncoded(bytes);
    }
    forall points | Scalars(points) && bytes == EncodeAll(points)
      ensures Utf8(bytes)
    {
      EncodedIsUtf8(points);
    }
  }

  // ---- the byte order mark ----

  const MARK := "\U{EF}\U{BB}\U{BF}"

  predicate Marked(bytes: string) {
    MARK <= bytes
  }

  function WithMark(marked: bool, text: string): string {
    (if marked then MARK else "") + text
  }

  /** The decoder refuses what is no UTF-8, and drops one mark at the beginning. */
  function Decode(bytes: string): string {
    if Marked(bytes) then bytes[|MARK|..] else bytes
  }

  lemma MarkIsUtf8(marked: bool, text: string)
    ensures Utf8(WithMark(marked, text)) <==> Utf8(text)
  {
    if marked {
      var all := WithMark(marked, text);
      assert all[0] == '\U{EF}' && all[1] == '\U{BB}' && all[2] == '\U{BF}';
      assert FirstLength(all) == 3 && all[3..] == text;
    } else {
      assert WithMark(marked, text) == text;
    }
  }

  lemma DecodeDropsTheMark(marked: bool, text: string)
    requires Marked(text) ==> marked
    ensures Decode(WithMark(marked, text)) == text
    ensures Marked(WithMark(marked, text)) <==> marked
  {
    assert !marked ==> WithMark(marked, text) == text;
  }

  lemma MarkIsPutBack(bytes: string)
    ensures WithMark(Marked(bytes), Decode(bytes)) == bytes
  {
  }
}
