/** The cleanup audit: what is read, what is reported, and what the second process checks again. */
module Audit {
  import opened Options

  const MAX_PAGES := 16
  const MAX_RECORDS := 4096

  type Id = string

  datatype Provider = Aws | Hetzner

  datatype Reason =
    | ReadFailed | ReadTimeout | PaginationLimit | ScopeMismatch | CloseFailed | BindingFailed

  // ---- one paginated read ----

  /** A listed resource; a malformed one has a wrong ID or an unknown state. Only instances can be terminated. */
  datatype Item = BadItem | Item(id: Id, terminated: bool)

  datatype NextToken = NoToken | BadToken | Token(text: string)

  /** `outer` counts the records of the page itself, which for instances are reservations. */
  datatype Response = NoResponse | Response(outer: nat, items: seq<Item>, next: NextToken)

  function ItemsOf(responses: seq<Response>): seq<Item> {
    if responses == [] then []
    else
      var last := responses[|responses| - 1];
      ItemsOf(responses[..|responses| - 1]) + (if last.Response? then last.items else [])
  }

  function OuterOf(responses: seq<Response>): nat {
    if responses == [] then 0
    else
      var last := responses[|responses| - 1];
      OuterOf(responses[..|responses| - 1]) + (if last.Response? then last.outer else 0)
  }

  predicate DistinctIds(items: seq<Item>) {
    (forall i <- items :: i.Item?) &&
    forall i, j :: 0 <= i < j < |items| ==> items[i].Item? && items[j].Item? && items[i].id != items[j].id
  }

  /** The first `n` pages are sound and each of them asks for the next one with a new token. */
  ghost predicate Chained(responses: seq<Response>, n: nat) {
    n <= |responses| &&
    (forall k :: 0 <= k < n ==> responses[k].Response? && responses[k].next.Token?) &&
    (forall j, k :: 0 <= j < k < n ==> responses[j].next != responses[k].next) &&
    WithinLimits(responses, n)
  }

  ghost predicate WithinLimits(responses: seq<Response>, n: nat)
    requires n <= |responses|
  {
    DistinctIds(ItemsOf(responses[..n])) && |ItemsOf(responses[..n])| <= MAX_RECORDS &&
    OuterOf(responses[..n]) <= MAX_RECORDS
  }

  /** Page `n` is the last page: the read saw everything there is. */
  ghost predicate Exhausted(responses: seq<Response>, n: nat) {
    n < MAX_PAGES && n < |responses| && Chained(responses, n) &&
    responses[n].Response? && responses[n].next.NoToken? && WithinLimits(responses, n + 1)
  }

  lemma {:induction false} ItemsOfGrow(responses: seq<Response>, n: nat)
    requires n < |responses| && responses[n].Response?
    ensures ItemsOf(responses[..n + 1]) == ItemsOf(responses[..n]) + responses[n].items
    ensures OuterOf(responses[..n + 1]) == OuterOf(responses[..n]) + responses[n].outer
  {
    assert responses[..n + 1][..n] == responses[..n];
  }

  lemma {:induction false} PrefixIsDistinct(a: seq<Item>, b: seq<Item>)
    requires DistinctIds(a + b)
    ensures DistinctIds(a)
  {
    assert forall i :: 0 <= i < |a| ==> (a + b)[i] == a[i];
    assert forall i <- a :: i in a + b;
  }

  function IdsOf(items: seq<Item>): set<Id> {
    set i | i in items && i.Item? :: i.id
  }

  lemma RepeatedItem(before: seq<Item>, item: Item, after: seq<Item>)
    requires item.BadItem? || item.id in IdsOf(before)
    ensures !DistinctIds(before + [item] + after)
  {
    var all := before + [item] + after;
    assert all[|before|] == item;
    if item.Item? {
      var twin :| twin in before && twin.Item? && twin.id == item.id;
      var i :| 0 <= i < |before| && before[i] == twin;
      assert all[i] == twin;
    }
  }

  /** Add the items of one page, refusing malformed and repeated ones. */
  method AddItems(result: seq<Item>, ids: set<Id>, items: seq<Item>) returns (ok: bool, grown: seq<Item>, seen: set<Id>)
    requires DistinctIds(result) && ids == IdsOf(result) && |result| <= MAX_RECORDS
    ensures ok <==> DistinctIds(result + items) && |result + items| <= MAX_RECORDS
    ensures ok ==> grown == result + items && seen == IdsOf(grown)
  {
    grown, seen := result, ids;
    for k := 0 to |items|
      invariant grown == result + items[..k] && seen == IdsOf(grown)
      invariant DistinctIds(grown) && |grown| <= MAX_RECORDS
    {
      var item := items[k];
      var before := grown;
      assert result + items == before + [item] + items[k + 1..];
      if item.BadItem? || item.id in seen {
        RepeatedItem(before, item, items[k + 1..]);
        return false, grown, seen;
      }
      grown, seen := grown + [item], seen + {item.id};
      if |grown| > MAX_RECORDS {
        return false, grown, seen;
      }
      assert items[..k + 1] == items[..k] + [item];
    }
    ok := true;
    assert items[..|items|] == items;
  }

  /**
   * All items of all pages exactly when the pages chain to a last one, the page limit
   * exactly when too many chain, and a failed read otherwise.
   */
  ghost predicate Settles(responses: seq<Response>, r: Result<seq<Item>, Reason>) {
    (r.Ok? ==> exists n :: Exhausted(responses, n) && r.value == ItemsOf(responses[..n + 1])) &&
    (forall n :: Exhausted(responses, n) ==> r == Ok(ItemsOf(responses[..n + 1]))) &&
    (r.Err? && r.error == PaginationLimit <==> Chained(responses, MAX_PAGES)) &&
    (r.Err? ==> r.error == ReadFailed || r.error == PaginationLimit)
  }

  /** Only one result settles a read. */
  lemma SettlesOnce(responses: seq<Response>, r: Result<seq<Item>, Reason>)
    requires Settles(responses, r)
    ensures r == Paged(responses)
  {
  }

  /** Where the pages stop chaining, the read settles. */
  lemma ReadEnds(responses: seq<Response>, page: nat)
    requires Chained(responses, page) && !Chained(responses, page + 1) && page < MAX_PAGES
    requires forall n :: 0 <= n < page ==> !Exhausted(responses, n)
    ensures var r := if Exhausted(responses, page) then Ok(ItemsOf(responses[..page + 1])) else Err(ReadFailed);
            Settles(responses, r) && r == Paged(responses)
  {
    NoChainBeyond(responses, page);
    SettlesOnce(responses, if Exhausted(responses, page) then Ok(ItemsOf(responses[..page + 1])) else Err(ReadFailed));
  }

  lemma LimitReached(responses: seq<Response>)
    requires Chained(responses, MAX_PAGES) && forall n :: 0 <= n < MAX_PAGES ==> !Exhausted(responses, n)
    ensures Settles(responses, Err(PaginationLimit)) && Paged(responses) == Err(PaginationLimit)
  {
    SettlesOnce(responses, Err(PaginationLimit));
  }

  /** Read every page of one filtered listing. */
  method AwsRecords(responses: seq<Response>) returns (r: Result<seq<Item>, Reason>)
    ensures Settles(responses, r) && r == Paged(responses)
  {
    var result: seq<Item>, ids: set<Id>, tokens: set<string>, outerCount := [], {}, {}, 0;
    assert responses[..0] == [];
    for page := 0 to MAX_PAGES
      invariant Chained(responses, page)
      invariant result == ItemsOf(responses[..page]) && ids == IdsOf(result)
      invariant outerCount == OuterOf(responses[..page])
      invariant tokens == set k | 0 <= k < page :: responses[k].next.text
      invariant forall n :: 0 <= n < page ==> !Exhausted(responses, n)
    {
      if page >= |responses| || responses[page].NoResponse? {
        ReadEnds(responses, page);
        return Err(ReadFailed);
      }
      var response := responses[page];
      ItemsOfGrow(responses, page);
      outerCount := outerCount + response.outer;
      if outerCount > MAX_RECORDS {
        ReadEnds(responses, page);
        return Err(ReadFailed);
      }
      var ok;
      ok, result, ids := AddItems(result, ids, response.items);
      if !ok {
        ReadEnds(responses, page);
        return Err(ReadFailed);
      }
      if response.next.NoToken? {
        ReadEnds(responses, page);
        return Ok(result);
      }
      if response.next.BadToken? || response.next.text in tokens {
        ReadEnds(responses, page);
        return Err(ReadFailed);
      }
      tokens := tokens + {response.next.text};
    }
    LimitReached(responses);
    return Err(PaginationLimit);
  }

  /** What a paginated read comes to. */
  ghost function Paged(responses: seq<Response>): Result<seq<Item>, Reason> {
    if exists n :: Exhausted(responses, n) then
      var n :| Exhausted(responses, n);
      Ok(ItemsOf(responses[..n + 1]))
    else Err(if Chained(responses, MAX_PAGES) then PaginationLimit else ReadFailed)
  }

  /** A page that does not chain is the last one that any reading can reach. */
  lemma NoChainBeyond(responses: seq<Response>, page: nat)
    requires Chained(responses, page) && !Chained(responses, page + 1) && page < MAX_PAGES
    requires forall n :: 0 <= n < page ==> !Exhausted(responses, n)
    ensures !Chained(responses, MAX_PAGES)
    ensures forall n :: Exhausted(responses, n) ==> n == page
  {
    forall n | page < n
      ensures !Chained(responses, n)
    {
      if Chained(responses, n) {
        ChainedPrefix(responses, n, page + 1);
      }
    }
  }

  lemma {:induction false} ChainedPrefix(responses: seq<Response>, n: nat, m: nat)
    requires Chained(responses, n) && m <= n
    ensures Chained(responses, m)
    decreases n
  {
    if m < n {
      ItemsOfGrow(responses, n - 1);
      PrefixIsDistinct(ItemsOf(responses[..n - 1]), responses[n - 1].items);
      ChainedPrefix(responses, n - 1, m);
    }
  }
}
