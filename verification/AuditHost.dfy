/**
 * The auditor at work: it opens a provider, runs the six reads against a deadline,
 * and returns the report that they left behind.
 */
module AuditHost {
  import opened Options
  import opened Audit
  import opened AuditReport

  /** The answer to one bounded request. */
  datatype Reply<+T> = Answer(value: T) | Refused | Late

  /** A single Hetzner resource by ID: the API error with status 404 is the only absence. */
  datatype Lookup = NotFound | LookupFailed | Found(id: Id)

  /** Everything that the provider says during one audit; `settled` and `late` order the six reads. */
  datatype Cloud =
    | AwsCloud(
        expected: string, opening: Reply<()>, pinned: Option<string>, observed: Reply<string>,
        pages: Check -> seq<Response>, closing: Reply<()>)
    | HetznerCloud(binding: Reply<Id>, lists: nat -> Option<seq<Option<Id>>>, lookups: nat -> Lookup)

  datatype Timing = Timing(settled: seq<Check>, late: seq<Check>)

  function Elements(checks: seq<Check>): (elements: set<Check>)
    ensures forall check :: check in elements <==> check in checks
  {
    set check | check in checks
  }

  predicate TimingOk(timing: Timing) {
    (forall check <- timing.settled :: check in CHECKS) && (forall check <- timing.late :: check in CHECKS)
  }

  ghost predicate AllSettled(timing: Timing) {
    forall check <- CHECKS :: check in timing.settled
  }

  // ---- what one read comes to ----

  /** Everything but a terminated instance counts as live. */
  predicate Live(check: Check, item: Item) {
    item.Item? && (check.index != 0 || !item.terminated)
  }

  function CountLive(check: Check, items: seq<Item>): (n: nat)
    ensures n <= |items|
    ensures n == 0 <==> forall item <- items :: !Live(check, item)
  {
    if items == [] then 0
    else
      var front, last := items[..|items| - 1], items[|items| - 1];
      assert items == front + [last];
      CountLive(check, front) + if Live(check, last) then 1 else 0
  }

  /** The places of everything that is there, terminated instances apart. */
  ghost function LivePlaces(check: Check, items: seq<Item>): set<nat> {
    set k: nat | k < |items| && items[k].Item? && !(check.index == 0 && items[k].terminated)
  }

  /** The count is that of the live items. */
  lemma {:induction false} CountsTheLive(check: Check, items: seq<Item>)
    ensures CountLive(check, items) == |LivePlaces(check, items)|
  {
    if items == [] {
      assert LivePlaces(check, items) == {};
    } else {
      var front := items[..|items| - 1];
      CountsTheLive(check, front);
      assert LivePlaces(check, items) == LivePlaces(check, front) + if Live(check, items[|front|]) then {|front|} else {};
    }
  }

  /** What the items of an AWS read come to. */
  ghost function FindingIn(journal: Journal, check: Check, items: seq<Item>): (finding: Finding)
    requires check in CHECKS && |items| <= MAX_RECORDS && (check.exact ==> ResourceId(journal, check.index).Some?)
    ensures FindingOk(journal, check, finding)
  {
    if !check.exact then Inventory(CountLive(check, items))
    else if |items| > 1 || (|items| == 1 && (items[0].BadItem? || items[0].id != ResourceId(journal, check.index).value)) then
      Failure(ReadFailed)
    else Exact(if |items| == 0 || !Live(check, items[0]) then Absent else Present)
  }

  ghost function FindingOf(journal: Journal, cloud: Cloud, check: Check): (finding: Finding)
    requires check in CHECKS
    ensures FindingOk(journal, check, finding)
  {
    var id := ResourceId(journal, check.index);
    if check.exact && id.None? then Exact(Unrecorded)
    else if cloud.AwsCloud? then
      match Paged(cloud.pages(check))
      case Err(reason) => Failure(reason)
      case Ok(items) =>
        PagedIsBounded(cloud.pages(check));
        FindingIn(journal, check, items)
    else if check.exact then
      match cloud.lookups(check.index)
      case NotFound => Exact(Absent)
      case LookupFailed => Failure(ReadFailed)
      case Found(found) => if found == id.value then Exact(Present) else Failure(ReadFailed)
    else
      match cloud.lists(check.index)
      case None => Failure(ReadFailed)
      case Some(entries) =>
        if |entries| > MAX_RECORDS || (exists entry <- entries :: entry.None?) then Failure(ReadFailed)
        else Inventory(|entries|)
  }

  lemma PagedIsBounded(responses: seq<Response>)
    requires Paged(responses).Ok?
    ensures exists n :: Exhausted(responses, n) && Paged(responses).value == ItemsOf(responses[..n + 1])
    ensures |Paged(responses).value| <= MAX_RECORDS && DistinctIds(Paged(responses).value)
  {
  }

  /** The provider let this read run to its end, and the end showed nothing alive. */
  ghost predicate NothingLive(journal: Journal, cloud: Cloud, check: Check)
    requires check in CHECKS
  {
    (check.exact && ResourceId(journal, check.index).None?) ||
    match cloud
    case AwsCloud(_, _, _, _, pages, _) =>
      exists n :: Exhausted(pages(check), n) && NoneLive(journal, check, ItemsOf(pages(check)[..n + 1]))
    case HetznerCloud(_, lists, lookups) =>
      if check.exact then lookups(check.index).NotFound? else lists(check.index) == Some([])
  }

  /** By ownership nothing is live; by exact ID there is nothing else than that resource, if anything. */
  ghost predicate NoneLive(journal: Journal, check: Check, items: seq<Item>)
    requires check in CHECKS && (check.exact ==> ResourceId(journal, check.index).Some?)
  {
    (forall item <- items :: item.Item? ==> check.index == 0 && item.terminated) &&
    (check.exact ==> |items| <= 1 && forall item <- items :: item.Item? && item.id == ResourceId(journal, check.index).value)
  }

  ghost predicate Clear(journal: Journal, check: Check, finding: Finding)
    requires check in CHECKS
  {
    finding == if !check.exact then Inventory(0)
               else Exact(if ResourceId(journal, check.index).None? then Unrecorded else Absent)
  }

  lemma ItemsAreClear(journal: Journal, check: Check, items: seq<Item>)
    requires check in CHECKS && |items| <= MAX_RECORDS && (check.exact ==> ResourceId(journal, check.index).Some?)
    ensures Clear(journal, check, FindingIn(journal, check, items)) <==> NoneLive(journal, check, items)
  {
    if |items| == 1 {
      assert items[0] in items;
    }
  }

  lemma ClearExactlyWhenNothingLives(journal: Journal, cloud: Cloud, check: Check)
    requires check in CHECKS
    ensures Clear(journal, check, FindingOf(journal, cloud, check)) <==> NothingLive(journal, cloud, check)
  {
    if cloud.AwsCloud? && !(check.exact && ResourceId(journal, check.index).None?) {
      var responses := cloud.pages(check);
      if Paged(responses).Ok? {
        var items := Paged(responses).value;
        forall n | Exhausted(responses, n)
          ensures ItemsOf(responses[..n + 1]) == items
        {
          LastPageIsUnique(responses, n);
        }
        PagedIsBounded(responses);
        ItemsAreClear(journal, check, items);
      }
    }
  }

  /** Whichever page is called the last one, the read comes to the same items. */
  lemma LastPageIsUnique(responses: seq<Response>, n: nat)
    requires Exhausted(responses, n)
    ensures Paged(responses) == Ok(ItemsOf(responses[..n + 1]))
  {
    PagedIsBounded(responses);
    var m: nat :| Exhausted(responses, m) && Paged(responses).value == ItemsOf(responses[..m + 1]);
    LastPagesAgree(responses, m, n);
  }

  lemma LastPagesAgree(responses: seq<Response>, m: nat, n: nat)
    requires Exhausted(responses, m) && Exhausted(responses, n)
    ensures m == n
  {
    assert responses[m].next.NoToken? && responses[n].next.NoToken?;
    assert Chained(responses, m) && Chained(responses, n);
  }

  ghost function FindingsOf(journal: Journal, cloud: Cloud): (findings: map<Check, Finding>)
    ensures FindingsOk(journal, findings)
    ensures forall check <- CHECKS :: findings[check] == FindingOf(journal, cloud, check)
  {
    map check | check in CHECKS :: FindingOf(journal, cloud, check)
  }

  /** The findings in the order in which the reads were started. */
  ghost function InOrder(journal: Journal, cloud: Cloud): (findings: seq<Finding>)
    ensures |findings| == |CHECKS|
    ensures forall i :: 0 <= i < |CHECKS| ==> findings[i] == FindingOf(journal, cloud, CHECKS[i])
  {
    seq(|CHECKS|, i requires 0 <= i < |CHECKS| => FindingOf(journal, cloud, CHECKS[i]))
  }

  function Ordered(outcomes: map<Check, Finding>): (findings: seq<Finding>)
    requires forall check <- CHECKS :: check in outcomes
    ensures |findings| == |CHECKS|
    ensures forall i :: 0 <= i < |CHECKS| ==> CHECKS[i] in outcomes && findings[i] == outcomes[CHECKS[i]]
  {
    assert forall i :: 0 <= i < |CHECKS| ==> CHECKS[i] in CHECKS;
    seq(|CHECKS|, i requires 0 <= i < |CHECKS| => outcomes[CHECKS[i]])
  }

  /** The first failed read in the order in which the reads were started. */
  function FirstFailure(findings: seq<Finding>): (reason: Option<Reason>)
    ensures reason.None? <==> forall finding <- findings :: !finding.Failure?
    ensures reason.Some? ==> exists k :: 0 <= k < |findings| && findings[k] == Failure(reason.value) &&
                                         forall j :: 0 <= j < k ==> !findings[j].Failure?
  {
    if findings == [] then None
    else if findings[0].Failure? then
      Some(findings[0].reason)
    else
      assert findings == [findings[0]] + findings[1..];
      var rest := FirstFailure(findings[1..]);
      assert rest.Some? ==> exists k :: 0 <= k < |findings| && findings[k] == Failure(rest.value) &&
                                        forall j :: 0 <= j < k ==> !findings[j].Failure? by {
        if rest.Some? {
          var k :| 0 <= k < |findings[1..]| && findings[1..][k] == Failure(rest.value) &&
                   forall j :: 0 <= j < k ==> !findings[1..][j].Failure?;
          assert findings[k + 1] == Failure(rest.value);
          assert forall j :: 0 < j < k + 1 ==> findings[j] == findings[1..][j - 1];
        }
      }
      rest
  }

  ghost predicate ReadsFine(journal: Journal, cloud: Cloud) {
    forall check <- CHECKS :: !FindingOf(journal, cloud, check).Failure?
  }

  /** No failure comes first exactly when there is none; and what comes first is a failure of one read. */
  lemma FirstFailureInOrder(journal: Journal, cloud: Cloud)
    ensures FirstFailure(InOrder(journal, cloud)).None? <==> ReadsFine(journal, cloud)
    ensures FirstFailure(InOrder(journal, cloud)).Some? ==>
              FirstFailure(InOrder(journal, cloud)).value in {ReadFailed, PaginationLimit}
  {
    var findings := InOrder(journal, cloud);
    assert forall i :: 0 <= i < |CHECKS| ==> CHECKS[i] in CHECKS;
    forall i | 0 <= i < |findings| && findings[i].Failure?
      ensures findings[i].reason in {ReadFailed, PaginationLimit}
    {
      assert findings[i] == FindingOf(journal, cloud, CHECKS[i]);
    }
    if ReadsFine(journal, cloud) {
      assert forall finding <- findings :: !finding.Failure?;
    } else {
      var check :| check in CHECKS && FindingOf(journal, cloud, check).Failure?;
      var i :| 0 <= i < |CHECKS| && CHECKS[i] == check;
      assert findings[i] in findings;
    }
  }

  // ---- the auditor ----

  class Auditor {
    const journal: Journal
    const cloud: Cloud
    var report: Report
    ghost var written: set<Check>

    constructor (journal: Journal, cloud: Cloud)
      ensures this.journal == journal && this.cloud == cloud
      ensures Valid() && report == Blank(journal) && written == {}
    {
      this.journal, this.cloud, report, written := journal, cloud, Blank(journal), {};
      new;
      BlankReflects(journal, FindingsOf(journal, cloud));
    }

    ghost predicate Valid()
      reads this
    {
      report.reason.None? && Reflects(report, journal, FindingsOf(journal, cloud), written)
    }

    /** Read one AWS listing or one AWS resource. */
    method ReadAws(check: Check) returns (finding: Finding)
      requires check in CHECKS && cloud.AwsCloud?
      ensures finding == FindingOf(journal, cloud, check)
    {
      var id := ResourceId(journal, check.index);
      if check.exact && id.None? {
        return Exact(Unrecorded);
      }
      var found := AwsRecords(cloud.pages(check));
      if found.Err? {
        return Failure(found.error);
      }
      if !check.exact {
        return Inventory(CountLive(check, found.value));
      }
      if (exists item <- found.value :: item.BadItem? || item.id != id.value) || |found.value| > 1 {
        return Failure(ReadFailed);
      }
      if |found.value| == 0 || !Live(check, found.value[0]) {
        return Exact(Absent);
      }
      return Exact(Present);
    }

    /** Read one Hetzner listing or one Hetzner resource. */
    method ReadHetzner(check: Check) returns (finding: Finding)
      requires check in CHECKS && cloud.HetznerCloud?
      ensures finding == FindingOf(journal, cloud, check)
    {
      var id := ResourceId(journal, check.index);
      if check.exact {
        if id.None? {
          return Exact(Unrecorded);
        }
        match cloud.lookups(check.index)
        case NotFound => return Exact(Absent);
        case LookupFailed => return Failure(ReadFailed);
        case Found(found) => return if found == id.value then Exact(Present) else Failure(ReadFailed);
      }
      var listed := cloud.lists(check.index);
      if listed.None? || |listed.value| > MAX_RECORDS {
        return Failure(ReadFailed);
      }
      for k := 0 to |listed.value|
        invariant forall j :: 0 <= j < k ==> listed.value[j].Some?
      {
        if listed.value[k].None? {
          return Failure(ReadFailed);
        }
      }
      return Inventory(|listed.value|);
    }

    /** One read finishes and writes its line of the report. */
    method Settle(check: Check) returns (finding: Finding)
      requires Valid() && check in CHECKS
      modifies this
      ensures Valid() && finding == FindingOf(journal, cloud, check)
      ensures report == Written(old(report), check, finding) && written == old(written) + {check}
    {
      if cloud.AwsCloud? {
        finding := ReadAws(check);
      } else {
        finding := ReadHetzner(check);
      }
      WrittenReflects(report, journal, FindingsOf(journal, cloud), written, check);
      report := Written(report, check, finding);
      written := written + {check};
    }

    /** What has been collected so far is what the reads came to. */
    ghost predicate Observed(outcomes: map<Check, Finding>) {
      forall check <- outcomes.Keys :: check in CHECKS && outcomes[check] == FindingOf(journal, cloud, check)
    }

    lemma ObservedInOrder(outcomes: map<Check, Finding>)
      requires Observed(outcomes) && forall check <- CHECKS :: check in outcomes.Keys
      ensures Ordered(outcomes) == InOrder(journal, cloud)
    {
    }

    /** Wait for all six reads, but not past the deadline. */
    method SettleAll(timing: Timing) returns (failure: Option<Reason>)
      requires Valid() && TimingOk(timing)
      modifies this
      ensures Valid()
      ensures written == old(written) + Elements(timing.settled)
      ensures !AllSettled(timing) ==> failure == Some(ReadTimeout)
      ensures AllSettled(timing) ==>
                failure == FirstFailure(InOrder(journal, cloud))
    {
      var outcomes: map<Check, Finding> := map[];
      for k := 0 to |timing.settled|
        invariant Valid() && written == old(written) + Elements(timing.settled[..k])
        invariant outcomes.Keys == Elements(timing.settled[..k])
        invariant Observed(outcomes)
      {
        var finding := Settle(timing.settled[k]);
        outcomes := outcomes[timing.settled[k] := finding];
        assert timing.settled[..k + 1] == timing.settled[..k] + [timing.settled[k]];
        assert Elements(timing.settled[..k + 1]) == Elements(timing.settled[..k]) + {timing.settled[k]};
      }
      assert timing.settled[..|timing.settled|] == timing.settled;
      if exists check <- CHECKS :: check !in outcomes.Keys {
        return Some(ReadTimeout);
      }
      ObservedInOrder(outcomes);
      failure := FirstFailure(Ordered(outcomes));
    }

    /** Reads that outlive the deadline still write their lines until the report is returned. */
    method SettleLate(late: seq<Check>)
      requires Valid() && forall check <- late :: check in CHECKS
      modifies this
      ensures Valid() && old(written) <= written
    {
      for k := 0 to |late|
        invariant Valid() && old(written) <= written
      {
        var _ := Settle(late[k]);
      }
    }

    /** Nothing went wrong around the reads: the right account was open, all reads came in, and it closed. */
    ghost predicate Undisturbed(timing: Timing) {
      AllSettled(timing) &&
      match cloud
      case AwsCloud(expected, opening, pinned, observed, _, closing) =>
        opening.Answer? && pinned == Some(expected) && observed == Answer(expected) && closing.Answer?
      case HetznerCloud(binding, _, _) => binding == Answer(journal.deploymentInstanceId)
    }

    /** The scope that was pinned, or the one that the provider reports, is not the deployment's own. */
    ghost predicate WrongAccount()
      requires cloud.AwsCloud?
    {
      cloud.pinned.Some? && cloud.observed.Answer? && (cloud.pinned.value != cloud.expected || cloud.observed.value != cloud.expected)
    }

    /** What the reads themselves come to: the timeout if one is missing, and else the first failure in starting order. */
    ghost predicate ReadsExplain(timing: Timing, reason: Option<Reason>) {
      if !AllSettled(timing) then reason == Some(ReadTimeout)
      else
        (reason.None? <==> ReadsFine(journal, cloud)) &&
        (reason.Some? ==>
           exists k :: 0 <= k < |CHECKS| && FailsFirst(k) && InOrder(journal, cloud)[k] == Failure(reason.value))
    }

    ghost predicate FailsFirst(k: nat)
      requires k < |CHECKS|
    {
      forall j :: 0 <= j < k ==> !InOrder(journal, cloud)[j].Failure?
    }

    /** Why an audit is not whole: the first thing that went wrong, except that a failed close comes before all after it. */
    ghost predicate Explained(timing: Timing, reason: Option<Reason>) {
      match cloud
      case HetznerCloud(binding, _, _) =>
        if binding != Answer(journal.deploymentInstanceId) then reason == Some(BindingFailed) else ReadsExplain(timing, reason)
      case AwsCloud(expected, opening, pinned, observed, _, closing) =>
        if !opening.Answer? then reason == Some(if opening.Late? then ReadTimeout else ReadFailed)
        else if !closing.Answer? then reason == Some(CloseFailed)
        else if pinned.None? || observed.Refused? then reason == Some(ReadFailed)
        else if observed.Late? then reason == Some(ReadTimeout)
        else if WrongAccount() then reason == Some(ScopeMismatch)
        else ReadsExplain(timing, reason)
    }

    method AuditAws(timing: Timing) returns (failure: Option<Reason>)
      requires Valid() && TimingOk(timing) && cloud.AwsCloud? && written == {}
      modifies this
      ensures Valid() && Explained(timing, failure)
      ensures failure.None? <==> Undisturbed(timing) && ReadsFine(journal, cloud)
      ensures failure.None? ==> forall check <- CHECKS :: check in written
      ensures failure == Some(CloseFailed) <==> cloud.opening.Answer? && !cloud.closing.Answer?
      ensures cloud.opening.Answer? && cloud.closing.Answer? && WrongAccount() ==> failure == Some(ScopeMismatch)
      ensures cloud.opening.Late? ==> failure == Some(ReadTimeout)
    {
      if !cloud.opening.Answer? {
        return Some(if cloud.opening.Late? then ReadTimeout else ReadFailed);
      }
      var readError: Option<Reason> := None;
      if cloud.pinned.None? || cloud.observed.Refused? {
        readError := Some(ReadFailed);
      } else if cloud.observed.Late? {
        readError := Some(ReadTimeout);
      } else if cloud.pinned.value != cloud.expected || cloud.observed.value != cloud.expected {
        readError := Some(ScopeMismatch);
      } else {
        readError := SettleAll(timing);
        SettledFailures(timing, readError);
        SettleLate(timing.late);
      }
      if !cloud.closing.Answer? {
        return Some(CloseFailed);
      }
      return readError;
    }

    method AuditHetzner(timing: Timing) returns (failure: Option<Reason>)
      requires Valid() && TimingOk(timing) && cloud.HetznerCloud? && written == {}
      modifies this
      ensures Valid() && Explained(timing, failure)
      ensures failure.None? <==> Undisturbed(timing) && ReadsFine(journal, cloud)
      ensures failure.None? ==> forall check <- CHECKS :: check in written
      ensures failure == Some(BindingFailed) <==> cloud.binding != Answer(journal.deploymentInstanceId)
    {
      if !cloud.binding.Answer? || cloud.binding.value != journal.deploymentInstanceId {
        return Some(BindingFailed);
      }
      failure := SettleAll(timing);
      SettledFailures(timing, failure);
      SettleLate(timing.late);
    }

    /** What `SettleAll` returns, in terms of the six reads. */
    lemma SettledFailures(timing: Timing, failure: Option<Reason>)
      requires !AllSettled(timing) ==> failure == Some(ReadTimeout)
      requires AllSettled(timing) ==>
                 failure == FirstFailure(InOrder(journal, cloud))
      ensures failure.None? <==> AllSettled(timing) && ReadsFine(journal, cloud)
      ensures failure.Some? ==> failure.value in {ReadFailed, PaginationLimit, ReadTimeout}
      ensures ReadsExplain(timing, failure)
    {
      FirstFailureInOrder(journal, cloud);
    }

    /** One whole audit. */
    method Run(timing: Timing) returns (result: Report)
      requires Valid() && TimingOk(timing) && written == {}
      modifies this
      ensures CheckedReport(result, journal)
      ensures result.status == Absent <==>
                Undisturbed(timing) && ReadsFine(journal, cloud) && forall check <- CHECKS :: NothingLive(journal, cloud, check)
      ensures result.status == Unknown <==> !(Undisturbed(timing) && ReadsFine(journal, cloud))
      ensures result.status == Unknown <==> result.reason.Some?
      ensures Explained(timing, result.reason)
      ensures Reflects(result, journal, FindingsOf(journal, cloud), written)
    {
      var failure: Option<Reason>;
      if cloud.AwsCloud? {
        failure := AuditAws(timing);
      } else {
        failure := AuditHetzner(timing);
      }
      ghost var findings := FindingsOf(journal, cloud);
      var finished := report.(reason := failure);
      ReasonIsApart(report, failure, journal, findings, written);
      ReflectingReportsPass(finished, journal, findings, written);
      AbsentExactlyWhenAllClear(finished, journal, findings, written);
      forall check <- CHECKS
        ensures Clear(journal, check, findings[check]) <==> NothingLive(journal, cloud, check)
      {
        ClearExactlyWhenNothingLives(journal, cloud, check);
      }
      if failure.None? {
        WholeReportsAreDecided(finished, journal, cloud, written);
      }
      result := finished.(status := Verdict(finished));
      StatusIsApart(finished, result.status, journal, findings, written);
    }
  }

  lemma StatusIsApart(
    report: Report, status: Status, journal: Journal, findings: map<Check, Finding>, written: set<Check>)
    requires FindingsOk(journal, findings) && Reflects(report, journal, findings, written)
    ensures Reflects(report.(status := status), journal, findings, written)
  {
    var other := report.(status := status);
    forall i | 0 <= i < ROLES
      ensures ResourceReflects(other, journal, findings, written, i) && InventoryReflects(other, journal, findings, written, i)
    {
      assert ResourceReflects(report, journal, findings, written, i) && InventoryReflects(report, journal, findings, written, i);
    }
  }

  /** The reason is no line of the report. */
  lemma ReasonIsApart(
    report: Report, reason: Option<Reason>, journal: Journal, findings: map<Check, Finding>, written: set<Check>)
    requires FindingsOk(journal, findings) && Reflects(report, journal, findings, written)
    ensures Reflects(report.(reason := reason), journal, findings, written)
  {
    var other := report.(reason := reason);
    forall i | 0 <= i < ROLES
      ensures ResourceReflects(other, journal, findings, written, i) && InventoryReflects(other, journal, findings, written, i)
    {
      assert ResourceReflects(report, journal, findings, written, i) && InventoryReflects(report, journal, findings, written, i);
    }
  }

  /** With every read written and none failed, no line is left unknown. */
  lemma WholeReportsAreDecided(report: Report, journal: Journal, cloud: Cloud, written: set<Check>)
    requires Reflects(report, journal, FindingsOf(journal, cloud), written) && report.reason.None?
    requires forall check <- CHECKS :: check in written && !FindingOf(journal, cloud, check).Failure?
    ensures Verdict(report) != Unknown
  {
    var findings := FindingsOf(journal, cloud);
    forall i | 0 <= i < ROLES
      ensures report.resources[i].status != Unknown && report.inventory[i].status != Unknown
    {
      assert ResourceReflects(report, journal, findings, written, i) && InventoryReflects(report, journal, findings, written, i);
      assert FindingOk(journal, Check(i, true), findings[Check(i, true)]);
      assert FindingOk(journal, Check(i, false), findings[Check(i, false)]);
    }
  }
}
