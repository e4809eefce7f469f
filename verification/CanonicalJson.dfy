/**
 * Comparing JSON values by sorting their keys and comparing their texts, and
 * the proof that this is equality of JSON trees up to the order of members.
 */
module CanonicalJson {
  import opened Json

  /** The order in which `sort()` puts strings. */
  predicate LexLess(a: Text, b: Text) {
    b != [] && (a == [] || a[0] < b[0] || (a[0] == b[0] && LexLess(a[1..], b[1..])))
  }

  const MAX_INDEX: Text := [0x34, 0x32, 0x39, 0x34, 0x39, 0x36, 0x37, 0x32, 0x39, 0x34]  // "4294967294"

  /** A key that JavaScript enumerates as an array index, before all other keys. */
  predicate IndexKey(key: Text) {
    1 <= |key| <= 10 && (forall c <- key :: 0x30 <= c < 0x3a) && (key[0] == 0x30 ==> |key| == 1) &&
    (|key| == 10 ==> !LexLess(MAX_INDEX, key))
  }

  /** Ascending numeric order of decimal texts without leading zeros. */
  predicate IndexLess(a: Text, b: Text) {
    |a| < |b| || (|a| == |b| && LexLess(a, b))
  }

  /** The order in which JavaScript enumerates keys that were inserted sorted. */
  predicate KeyLess(a: Text, b: Text) {
    if IndexKey(a) != IndexKey(b) then IndexKey(a)
    else if IndexKey(a) then IndexLess(a, b)
    else LexLess(a, b)
  }

  function InsertMember(m: Member, members: seq<Member>, less: (Text, Text) -> bool): seq<Member> {
    if members == [] || less(m.key, members[0].key) then [m] + members
    else [members[0]] + InsertMember(m, members[1..], less)
  }

  function SortMembers(members: seq<Member>, less: (Text, Text) -> bool): seq<Member> {
    if members == [] then [] else InsertMember(members[0], SortMembers(members[1..], less), less)
  }

  function Select(members: seq<Member>, index: bool): seq<Member> {
    if members == [] then []
    else (if IndexKey(members[0].key) == index then [members[0]] else []) + Select(members[1..], index)
  }

  /** The members of `Object.fromEntries(members)` in enumeration order. */
  function FromEntries(members: seq<Member>): seq<Member> {
    SortMembers(Select(members, true), IndexLess) + Select(members, false)
  }

  /** Recursively sort object keys while retaining array order. */
  function Canonical(v: Json): Json
    decreases v, 0
  {
    match v
    case Array(items) => Array(CanonicalItems(items))
    case Object(members) => Object(FromEntries(SortMembers(CanonicalMembers(members), LexLess)))
    case _ => v
  }

  function CanonicalItems(items: seq<Json>): (r: seq<Json>)
    ensures |r| == |items|
    decreases items, 1
  {
    if items == [] then [] else [Canonical(items[0])] + CanonicalItems(items[1..])
  }

  function CanonicalMembers(members: seq<Member>): (r: seq<Member>)
    ensures |r| == |members| && forall i :: 0 <= i < |r| ==> r[i].key == members[i].key
    decreases members, 1
  {
    if members == [] then []
    else [Member(members[0].key, Canonical(members[0].value))] + CanonicalMembers(members[1..])
  }

  function HasSameCanonicalJson(left: Json, right: Json): bool {
    Print(Canonical(left)) == Print(Canonical(right))
  }

  /** A JSON tree in which the members of an object have no order. */
  datatype Tree =
    | NullTree
    | BoolTree(value: bool)
    | NumberTree(text: Text)
    | StringTree(chars: Text)
    | ArrayTree(items: seq<Tree>)
    | ObjectTree(members: map<Text, Tree>)

  function Meaning(v: Json): Tree
    decreases v, 0
  {
    match v
    case Null => NullTree
    case Bool(b) => BoolTree(b)
    case Number(text) => NumberTree(text)
    case String(chars) => StringTree(chars)
    case Array(items) => ArrayTree(MeaningOfItems(items))
    case Object(members) => ObjectTree(MeaningOfMembers(members))
  }

  function MeaningOfItems(items: seq<Json>): (r: seq<Tree>)
    ensures |r| == |items|
    decreases items, 1
  {
    if items == [] then [] else [Meaning(items[0])] + MeaningOfItems(items[1..])
  }

  function MeaningOfMembers(members: seq<Member>): map<Text, Tree>
    decreases members, 1
  {
    if members == [] then map[]
    else MeaningOfMembers(members[1..])[members[0].key := Meaning(members[0].value)]
  }

  // ---- the order of keys is total ----

  lemma {:induction false} LexIsTransitive(a: Text, b: Text, c: Text)
    requires LexLess(a, b) && LexLess(b, c)
    ensures LexLess(a, c)
  {
    if a != [] && a[0] == b[0] == c[0] {
      LexIsTransitive(a[1..], b[1..], c[1..]);
    }
  }

  lemma {:induction false} LexIsTotal(a: Text, b: Text)
    ensures LexLess(a, b) || a == b || LexLess(b, a)
    ensures !(LexLess(a, b) && LexLess(b, a))
    decreases |a| + |b|
  {
    if a != [] && b != [] && a[0] == b[0] {
      LexIsTotal(a[1..], b[1..]);
      SameText(a, b);
    }
  }

  lemma SameText(a: Text, b: Text)
    requires a != [] && b != [] && a[0] == b[0]
    ensures a == b <==> a[1..] == b[1..]
  {
    assert a == [a[0]] + a[1..] && b == [b[0]] + b[1..];
  }

  /** A strict total order on keys. */
  ghost predicate TotalOrder(less: (Text, Text) -> bool) {
    (forall a, b, c :: less(a, b) && less(b, c) ==> less(a, c)) &&
    (forall a, b :: less(a, b) || a == b || less(b, a)) &&
    (forall a, b :: less(a, b) ==> !less(b, a))
  }

  lemma OrdersAreTotal()
    ensures TotalOrder(LexLess) && TotalOrder(IndexLess) && TotalOrder(KeyLess)
  {
    forall a: Text, b: Text, c: Text | LexLess(a, b) && LexLess(b, c)
      ensures LexLess(a, c)
    {
      LexIsTransitive(a, b, c);
    }
    forall a: Text, b: Text
      ensures (LexLess(a, b) || a == b || LexLess(b, a)) && !(LexLess(a, b) && LexLess(b, a))
    {
      LexIsTotal(a, b);
    }
  }

  // ---- sorting ----

  ghost predicate Sorted(members: seq<Member>, less: (Text, Text) -> bool) {
    forall i, j :: 0 <= i < j < |members| ==> less(members[i].key, members[j].key)
  }

  ghost predicate SameMembers(a: seq<Member>, b: seq<Member>) {
    forall m :: m in a <==> m in b
  }

  lemma {:induction false} InsertSorts(m: Member, members: seq<Member>, less: (Text, Text) -> bool)
    requires TotalOrder(less) && Sorted(members, less) && forall n <- members :: n.key != m.key
    ensures Sorted(InsertMember(m, members, less), less)
    ensures SameMembers(InsertMember(m, members, less), [m] + members)
  {
    if members != [] && !less(m.key, members[0].key) {
      var rest := InsertMember(m, members[1..], less);
      InsertSorts(m, members[1..], less);
      forall j | 0 <= j < |rest|
        ensures less(members[0].key, rest[j].key)
      {
        assert rest[j] in [m] + members[1..];
      }
      assert forall n :: n in members <==> n == members[0] || n in members[1..];
    }
  }

  lemma {:induction false} SortSorts(members: seq<Member>, less: (Text, Text) -> bool)
    requires TotalOrder(less) && DistinctKeys(members)
    ensures Sorted(SortMembers(members, less), less)
    ensures SameMembers(SortMembers(members, less), members)
  {
    if members != [] {
      SortSorts(members[1..], less);
      InsertSorts(members[0], SortMembers(members[1..], less), less);
      assert forall n :: n in members <==> n == members[0] || n in members[1..];
    }
  }

  lemma {:induction false} SelectKeeps(members: seq<Member>, index: bool, less: (Text, Text) -> bool)
    ensures forall m :: m in Select(members, index) <==> m in members && IndexKey(m.key) == index
    ensures Sorted(members, less) ==> Sorted(Select(members, index), less)
  {
    if members != [] {
      SelectKeeps(members[1..], index, less);
      assert forall n :: n in members <==> n == members[0] || n in members[1..];
      if Sorted(members, less) {
        var rest := Select(members[1..], index);
        forall j | 0 <= j < |rest|
          ensures less(members[0].key, rest[j].key)
        {
          assert rest[j] in members[1..];
        }
      }
    }
  }

  /** Object keys come out in one order that only depends on which keys there are. */
  lemma FromEntriesSorts(members: seq<Member>)
    requires Sorted(members, LexLess)
    ensures Sorted(FromEntries(members), KeyLess) && SameMembers(FromEntries(members), members)
  {
    OrdersAreTotal();
    SelectKeeps(members, true, LexLess);
    SelectKeeps(members, false, LexLess);
    var first, second := SortMembers(Select(members, true), IndexLess), Select(members, false);
    SortedIsDistinct(Select(members, true), LexLess);
    SortSorts(Select(members, true), IndexLess);
    var all := FromEntries(members);
    forall i, j | 0 <= i < j < |all|
      ensures KeyLess(all[i].key, all[j].key)
    {
      assert i < |first| ==> first[i] in first;
      assert j < |first| ==> first[j] in first;
      assert i >= |first| ==> second[i - |first|] in second;
      assert j >= |first| ==> second[j - |first|] in second;
    }
  }

  lemma SortedIsDistinct(members: seq<Member>, less: (Text, Text) -> bool)
    requires TotalOrder(less) && Sorted(members, less)
    ensures DistinctKeys(members)
  {
  }

  // ---- meaning ----

  lemma {:induction false} MeaningIsLookup(members: seq<Member>)
    requires DistinctKeys(members)
    ensures forall k :: k in MeaningOfMembers(members) <==> exists m :: m in members && m.key == k
    ensures forall m <- members :: MeaningOfMembers(members)[m.key] == Meaning(m.value)
  {
    if members != [] {
      MeaningIsLookup(members[1..]);
      var first, rest := members[0], members[1..];
      assert forall m :: m in members <==> m == first || m in rest;
      forall m <- rest
        ensures m.key != first.key
      {
        var i :| 0 <= i < |rest| && rest[i] == m;
        assert members[i + 1] == m;
      }
    }
  }

  lemma SameMembersMeanTheSame(a: seq<Member>, b: seq<Member>)
    requires DistinctKeys(a) && DistinctKeys(b) && SameMembers(a, b)
    ensures MeaningOfMembers(a) == MeaningOfMembers(b)
  {
    MeaningIsLookup(a);
    MeaningIsLookup(b);
    forall k | k in MeaningOfMembers(a)
      ensures k in MeaningOfMembers(b) && MeaningOfMembers(a)[k] == MeaningOfMembers(b)[k]
    {
      var m :| m in a && m.key == k;
      assert m in b;
    }
    forall k | k in MeaningOfMembers(b)
      ensures k in MeaningOfMembers(a)
    {
      var m :| m in b && m.key == k;
      assert m in a;
    }
  }

  /** A value whose object members stand in canonical order throughout. */
  ghost predicate CanonicalForm(v: Json) {
    match v
    case Array(items) => forall item <- items :: CanonicalForm(item)
    case Object(members) => Sorted(members, KeyLess) && forall m <- members :: CanonicalForm(m.value)
    case _ => true
  }

  /** Canonicalizing neither changes the tree nor leaves a choice of member order. */
  lemma {:induction false} CanonicalIsFaithful(v: Json)
    requires WellFormed(v)
    ensures Meaning(Canonical(v)) == Meaning(v)
    ensures CanonicalForm(Canonical(v)) && WellFormed(Canonical(v))
    decreases v, 0
  {
    match v
    case Array(items) => ItemsAreFaithful(items);
    case Object(members) =>
      MembersAreFaithful(members);
      var plain := CanonicalMembers(members);
      var sorted := SortMembers(plain, LexLess);
      OrdersAreTotal();
      SortSorts(plain, LexLess);
      FromEntriesSorts(sorted);
      SortedIsDistinct(sorted, LexLess);
      SortedIsDistinct(FromEntries(sorted), KeyLess);
      SameMembersMeanTheSame(plain, sorted);
      SameMembersMeanTheSame(sorted, FromEntries(sorted));
      assert forall m <- FromEntries(sorted) :: m in plain;
    case _ =>
  }

  lemma {:induction false} ItemsAreFaithful(items: seq<Json>)
    requires forall item <- items :: WellFormed(item)
    ensures MeaningOfItems(CanonicalItems(items)) == MeaningOfItems(items)
    ensures forall item <- CanonicalItems(items) :: CanonicalForm(item) && WellFormed(item)
    decreases items, 1
  {
    if items != [] {
      CanonicalIsFaithful(items[0]);
      ItemsAreFaithful(items[1..]);
    }
  }

  lemma {:induction false} MembersAreFaithful(members: seq<Member>)
    requires DistinctKeys(members) && forall m <- members :: WellFormed(m.value)
    ensures DistinctKeys(CanonicalMembers(members))
    ensures MeaningOfMembers(CanonicalMembers(members)) == MeaningOfMembers(members)
    ensures forall m <- CanonicalMembers(members) :: CanonicalForm(m.value) && WellFormed(m.value)
    decreases members, 1
  {
    if members != [] {
      CanonicalIsFaithful(members[0].value);
      MembersAreFaithful(members[1..]);
    }
  }

  /** A canonical form is determined by the tree it stands for. */
  lemma {:induction false} CanonicalFormIsUnique(a: Json, b: Json)
    requires CanonicalForm(a) && CanonicalForm(b) && Meaning(a) == Meaning(b)
    ensures a == b
    decreases a, 0
  {
    match a
    case Array(items) => ItemsAreUnique(items, b.items);
    case Object(members) => MembersAreUnique(members, b.members);
    case _ =>
  }

  lemma {:induction false} ItemsAreUnique(a: seq<Json>, b: seq<Json>)
    requires (forall v <- a :: CanonicalForm(v)) && (forall v <- b :: CanonicalForm(v))
    requires MeaningOfItems(a) == MeaningOfItems(b)
    ensures a == b
    decreases a, 1
  {
    if a != [] {
      assert MeaningOfItems(a)[0] == MeaningOfItems(b)[0] && MeaningOfItems(a)[1..] == MeaningOfItems(b)[1..];
      CanonicalFormIsUnique(a[0], b[0]);
      ItemsAreUnique(a[1..], b[1..]);
      assert a == [a[0]] + a[1..] && b == [b[0]] + b[1..];
    }
  }

  /** The least key of a sorted object comes first. */
  lemma FirstKeyIsLeast(a: seq<Member>, key: Text)
    requires Sorted(a, KeyLess) && DistinctKeys(a) && key in MeaningOfMembers(a)
    ensures a != [] && (a[0].key == key || KeyLess(a[0].key, key))
  {
    MeaningIsLookup(a);
    var m :| m in a && m.key == key;
    var i :| 0 <= i < |a| && a[i] == m;
  }

  lemma TailMeaning(a: seq<Member>)
    requires DistinctKeys(a) && a != []
    ensures MeaningOfMembers(a[1..]) == MeaningOfMembers(a) - {a[0].key}
    ensures a[0].key in MeaningOfMembers(a) && MeaningOfMembers(a)[a[0].key] == Meaning(a[0].value)
  {
    FirstKeyIsNotInTail(a);
    AddAndRemove(MeaningOfMembers(a[1..]), a[0].key, Meaning(a[0].value));
  }

  lemma FirstKeyIsNotInTail(a: seq<Member>)
    requires DistinctKeys(a) && a != []
    ensures a[0].key !in MeaningOfMembers(a[1..])
  {
    var tail := a[1..];
    MeaningIsLookup(tail);
    forall m <- tail
      ensures m.key != a[0].key
    {
      var i :| 0 <= i < |tail| && tail[i] == m;
      assert a[i + 1] == m;
    }
  }

  lemma AddAndRemove(tree: map<Text, Tree>, key: Text, value: Tree)
    requires key !in tree
    ensures tree[key := value] - {key} == tree
  {
  }

  lemma SameFirstKey(a: seq<Member>, b: seq<Member>)
    requires Sorted(a, KeyLess) && Sorted(b, KeyLess) && MeaningOfMembers(a) == MeaningOfMembers(b)
    ensures DistinctKeys(a) && DistinctKeys(b)
    ensures a == [] <==> b == []
    ensures a != [] ==> a[0].key == b[0].key
  {
    OrdersAreTotal();
    SortedIsDistinct(a, KeyLess);
    SortedIsDistinct(b, KeyLess);
    if a != [] {
      TailMeaning(a);
      FirstKeyIsLeast(b, a[0].key);
    }
    if b != [] {
      TailMeaning(b);
      FirstKeyIsLeast(a, b[0].key);
    }
  }

  lemma {:induction false} MembersAreUnique(a: seq<Member>, b: seq<Member>)
    requires Sorted(a, KeyLess) && Sorted(b, KeyLess)
    requires (forall m <- a :: CanonicalForm(m.value)) && (forall m <- b :: CanonicalForm(m.value))
    requires MeaningOfMembers(a) == MeaningOfMembers(b)
    ensures a == b
    decreases a, 1
  {
    SameFirstKey(a, b);
    if a != [] {
      TailMeaning(a);
      TailMeaning(b);
      CanonicalFormIsUnique(a[0].value, b[0].value);
      MembersAreUnique(a[1..], b[1..]);
      assert a == [a[0]] + a[1..] && b == [b[0]] + b[1..];
    }
  }

  /** Comparing canonical texts is comparing JSON trees. */
  lemma SameTextExactlyForSameTree(left: Json, right: Json)
    requires WellFormed(left) && WellFormed(right)
    ensures HasSameCanonicalJson(left, right) <==> Meaning(left) == Meaning(right)
  {
    CanonicalIsFaithful(left);
    CanonicalIsFaithful(right);
    if HasSameCanonicalJson(left, right) {
      PrintIsInjective(Canonical(left), Canonical(right));
    }
    if Meaning(left) == Meaning(right) {
      CanonicalFormIsUnique(Canonical(left), Canonical(right));
    }
  }

  /** The order in which members were inserted is not part of the comparison. */
  lemma InsertionOrderIsImmaterial(a: seq<Member>, b: seq<Member>)
    requires WellFormed(Object(a)) && WellFormed(Object(b)) && SameMembers(a, b)
    ensures HasSameCanonicalJson(Object(a), Object(b))
  {
    SameMembersMeanTheSame(a, b);
    SameTextExactlyForSameTree(Object(a), Object(b));
  }
}
