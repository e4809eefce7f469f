/**
 * The audit of one journal: six reads that finish in any order or too late, a
 * three-valued verdict, and the check that a second process makes of it.
 */
module AuditReport {
  import opened Options
  import opened Audit

  datatype Recorded = Recorded(role: string, providerResourceId: Option<Id>)

  datatype Journal = Journal(provider: Provider, deploymentInstanceId: string, resources: seq<Recorded>)

  datatype Status = Unknown | Present | Absent | Unrecorded

  datatype ResourceLine = ResourceLine(role: string, id: Option<Id>, status: Status)

  datatype InventoryLine = InventoryLine(role: string, status: Status, count: Option<nat>)

  datatype Report = Report(
    provider: Provider, deploymentInstanceId: string, status: Status,
    resources: seq<ResourceLine>, inventory: seq<InventoryLine>, reason: Option<Reason>)

  const ROLES := 3

  function Roles(provider: Provider): (roles: seq<string>)
    ensures |roles| == ROLES
  {
    if provider == Aws then ["instance", "rootVolume", "securityGroup"] else ["server", "primaryIp", "firewall"]
  }

  function FindRole(resources: seq<Recorded>, role: string): Option<Id> {
    if resources == [] then None
    else if resources[0].role == role then resources[0].providerResourceId
    else FindRole(resources[1..], role)
  }

  /** What the first entry of the role recorded, wherever it stands; nothing without one. */
  lemma {:induction false} FindsTheFirst(resources: seq<Recorded>, role: string, k: nat)
    requires k <= |resources| && forall j :: 0 <= j < k ==> resources[j].role != role
    ensures k == |resources| ==> FindRole(resources, role) == None
    ensures k < |resources| && resources[k].role == role ==> FindRole(resources, role) == resources[k].providerResourceId
  {
    if k > 0 {
      assert forall j :: 0 <= j < k - 1 ==> resources[1..][j] == resources[j + 1];
      FindsTheFirst(resources[1..], role, k - 1);
    }
  }

  function ResourceId(journal: Journal, index: nat): Option<Id>
    requires index < ROLES
  {
    FindRole(journal.resources, Roles(journal.provider)[index])
  }

  /** One of the six reads: by ownership, or by the exact recorded ID. */
  datatype Check = Check(index: nat, exact: bool)

  const CHECKS: seq<Check> := [
    Check(0, false), Check(0, true), Check(1, false), Check(1, true), Check(2, false), Check(2, true)]

  /** What a read comes to: a failure, a count of live resources, or the state of one resource. */
  datatype Finding = Failure(reason: Reason) | Inventory(count: nat) | Exact(status: Status)

  /** The findings that each kind of read can come to. */
  predicate FindingOk(journal: Journal, check: Check, finding: Finding) {
    check.index < ROLES &&
    match finding
    case Failure(_) => true
    case Inventory(count) => !check.exact && count <= MAX_RECORDS
    case Exact(status) =>
      check.exact && (status == Present || status == Absent || status == Unrecorded) &&
      (status == Unrecorded <==> ResourceId(journal, check.index).None?)
  }

  /** The findings of all six reads, whether or not they arrive in time. */
  ghost predicate FindingsOk(journal: Journal, findings: map<Check, Finding>) {
    forall check <- CHECKS :: check in findings && FindingOk(journal, check, findings[check])
  }

  function Blank(journal: Journal): Report {
    var roles := Roles(journal.provider);
    Report(
      journal.provider, journal.deploymentInstanceId, Unknown,
      [ResourceLine(roles[0], ResourceId(journal, 0), Unknown), ResourceLine(roles[1], ResourceId(journal, 1), Unknown),
       ResourceLine(roles[2], ResourceId(journal, 2), Unknown)],
      [InventoryLine(roles[0], Unknown, None), InventoryLine(roles[1], Unknown, None), InventoryLine(roles[2], Unknown, None)],
      None)
  }

  /** The verdict: anything unread is unknown, and only a full set of clean reads is an absence. */
  function Verdict(report: Report): Status {
    if report.reason.Some? ||
       (exists line <- report.resources :: line.status == Unknown) ||
       (exists line <- report.inventory :: line.status == Unknown) then Unknown
    else if (exists line <- report.resources :: line.status == Present) ||
            (exists line <- report.inventory :: line.status == Present) then Present
    else Absent
  }

  // ---- the second process ----

  /** One line by exact ID, whatever its read has found so far. */
  predicate ResourceLineOk(line: ResourceLine, role: string, id: Option<Id>) {
    line == ResourceLine(role, id, line.status) && (line.status == Unrecorded ==> id.None?)
  }

  /** One line by ownership: unread, or with a count that says whether anything is there. */
  predicate InventoryLineOk(line: InventoryLine, role: string) {
    line == InventoryLine(role, Unknown, None) ||
    (line.count.Some? && line.count.value <= MAX_RECORDS &&
     line == InventoryLine(role, if line.count.value == 0 then Absent else Present, line.count))
  }

  predicate LinesOk(report: Report, journal: Journal) {
    report.provider == journal.provider && report.deploymentInstanceId == journal.deploymentInstanceId &&
    |report.resources| == |report.inventory| == ROLES &&
    forall i | 0 <= i < ROLES ::
      ResourceLineOk(report.resources[i], Roles(journal.provider)[i], ResourceId(journal, i)) &&
      InventoryLineOk(report.inventory[i], Roles(journal.provider)[i])
  }

  /** Some line has not been written by its read. */
  ghost predicate Unread(report: Report) {
    (exists i :: 0 <= i < |report.resources| && report.resources[i].status == Unknown) ||
    (exists i :: 0 <= i < |report.inventory| && report.inventory[i].status == Unknown)
  }

  /** No line shows anything alive. */
  ghost predicate AllGone(report: Report) {
    (forall i :: 0 <= i < |report.resources| ==> report.resources[i].status == Absent || report.resources[i].status == Unrecorded) &&
    (forall i :: 0 <= i < |report.inventory| ==> report.inventory[i].status == Absent)
  }

  /** The status is what reason and lines come to. */
  ghost predicate StatusOk(report: Report) {
    (report.status == Unknown <==> report.reason.Some? || Unread(report)) &&
    (report.status == Absent <==> report.reason.None? && AllGone(report)) &&
    report.status != Unrecorded
  }

  /** What the child process passes on. */
  ghost predicate CheckedReport(report: Report, journal: Journal) {
    LinesOk(report, journal) && StatusOk(report)
  }

  lemma VerdictIsStatus(report: Report)
    requires forall i :: 0 <= i < |report.inventory| ==> report.inventory[i].status != Unrecorded
    ensures StatusOk(report) <==> report.status == Verdict(report)
  {
    assert (exists line <- report.resources :: line.status == Unknown) <==>
           (exists i :: 0 <= i < |report.resources| && report.resources[i].status == Unknown);
    assert (exists line <- report.inventory :: line.status == Unknown) <==>
           (exists i :: 0 <= i < |report.inventory| && report.inventory[i].status == Unknown);
    assert (exists line <- report.resources :: line.status == Present) <==>
           (exists i :: 0 <= i < |report.resources| && report.resources[i].status == Present);
    assert (exists line <- report.inventory :: line.status == Present) <==>
           (exists i :: 0 <= i < |report.inventory| && report.inventory[i].status == Present);
  }

  /** The check of one report against the journal that was audited. */
  method CheckReport(report: Report, journal: Journal) returns (ok: bool)
    ensures ok <==> CheckedReport(report, journal)
  {
    if report.provider != journal.provider || report.deploymentInstanceId != journal.deploymentInstanceId ||
       |report.resources| != ROLES || |report.inventory| != ROLES {
      return false;
    }
    var roles := Roles(report.provider);
    for index := 0 to ROLES
      invariant forall i :: 0 <= i < index ==>
                  ResourceLineOk(report.resources[i], roles[i], ResourceId(journal, i)) &&
                  InventoryLineOk(report.inventory[i], roles[i])
    {
      var resource, inventory := report.resources[index], report.inventory[index];
      if resource.role != roles[index] || inventory.role != roles[index] || resource.id != ResourceId(journal, index) ||
         (resource.status == Unrecorded && resource.id.Some?) || inventory.status == Unrecorded {
        return false;
      }
      if inventory.status == Unknown {
        if inventory.count.Some? {
          return false;
        }
      } else if inventory.count.None? || inventory.count.value > MAX_RECORDS ||
                (inventory.status == Absent) != (inventory.count.value == 0) {
        return false;
      }
    }
    VerdictIsStatus(report);
    return report.status == Verdict(report);
  }

  // ---- the audit ----

  /** A finished read writes its own line of the report. */
  function Written(report: Report, check: Check, finding: Finding): Report
    requires check.index < |report.resources| && check.index < |report.inventory|
  {
    match finding
    case Failure(_) => report
    case Inventory(count) =>
      report.(inventory := report.inventory[check.index :=
        report.inventory[check.index].(status := if count == 0 then Absent else Present, count := Some(count))])
    case Exact(status) =>
      report.(resources := report.resources[check.index := report.resources[check.index].(status := status)])
  }

  /** Every line says exactly what its read found, or unknown if that read has not written it. */
  ghost predicate Reflects(report: Report, journal: Journal, findings: map<Check, Finding>, written: set<Check>)
    requires FindingsOk(journal, findings)
  {
    report.provider == journal.provider && report.deploymentInstanceId == journal.deploymentInstanceId &&
    |report.resources| == ROLES && |report.inventory| == ROLES &&
    forall i | 0 <= i < ROLES ::
      ResourceReflects(report, journal, findings, written, i) && InventoryReflects(report, journal, findings, written, i)
  }

  ghost predicate ResourceReflects(
    report: Report, journal: Journal, findings: map<Check, Finding>, written: set<Check>, i: nat)
    requires FindingsOk(journal, findings) && i < ROLES == |report.resources|
  {
    var line, check := report.resources[i], Check(i, true);
    line.role == Roles(journal.provider)[i] && line.id == ResourceId(journal, i) &&
    check in CHECKS &&
    line.status == if check in written && findings[check].Exact? then findings[check].status else Unknown
  }

  ghost predicate InventoryReflects(
    report: Report, journal: Journal, findings: map<Check, Finding>, written: set<Check>, i: nat)
    requires FindingsOk(journal, findings) && i < ROLES == |report.inventory|
  {
    var line, check := report.inventory[i], Check(i, false);
    line.role == Roles(journal.provider)[i] && check in CHECKS &&
    if check in written && findings[check].Inventory? then
      line.count == Some(findings[check].count) && line.status == (if findings[check].count == 0 then Absent else Present)
    else line.status == Unknown && line.count.None?
  }

  lemma BlankReflects(journal: Journal, findings: map<Check, Finding>)
    requires FindingsOk(journal, findings)
    ensures Reflects(Blank(journal), journal, findings, {})
  {
  }

  lemma WrittenReflects(
    report: Report, journal: Journal, findings: map<Check, Finding>, written: set<Check>, check: Check)
    requires FindingsOk(journal, findings) && check in CHECKS && Reflects(report, journal, findings, written)
    ensures Reflects(Written(report, check, findings[check]), journal, findings, written + {check})
    ensures Written(report, check, findings[check]).reason == report.reason
  {
    var next, grown := Written(report, check, findings[check]), written + {check};
    assert FindingOk(journal, check, findings[check]);
    forall i | 0 <= i < ROLES
      ensures ResourceReflects(next, journal, findings, grown, i) && InventoryReflects(next, journal, findings, grown, i)
    {
      assert ResourceReflects(report, journal, findings, written, i) && InventoryReflects(report, journal, findings, written, i);
    }
  }

  /** Every report that reflects its reads passes the second process's check. */
  lemma ReflectingReportsPass(report: Report, journal: Journal, findings: map<Check, Finding>, written: set<Check>)
    requires FindingsOk(journal, findings) && Reflects(report, journal, findings, written)
    ensures CheckedReport(report.(status := Verdict(report)), journal)
  {
    var finished := report.(status := Verdict(report));
    ReflectingLinesAreOk(report, journal, findings, written);
    VerdictIsStatus(finished);
  }

  lemma ReflectingLinesAreOk(report: Report, journal: Journal, findings: map<Check, Finding>, written: set<Check>)
    requires FindingsOk(journal, findings) && Reflects(report, journal, findings, written)
    ensures LinesOk(report, journal)
  {
    forall i | 0 <= i < ROLES
      ensures ResourceLineOk(report.resources[i], Roles(journal.provider)[i], ResourceId(journal, i))
      ensures InventoryLineOk(report.inventory[i], Roles(journal.provider)[i])
    {
      assert ResourceReflects(report, journal, findings, written, i) && InventoryReflects(report, journal, findings, written, i);
      assert FindingOk(journal, Check(i, true), findings[Check(i, true)]);
      assert FindingOk(journal, Check(i, false), findings[Check(i, false)]);
    }
  }

  /** What an absence stands for: all six reads came in, and none of them found anything alive. */
  ghost predicate AllClear(journal: Journal, findings: map<Check, Finding>, written: set<Check>)
    requires FindingsOk(journal, findings)
  {
    forall check <- CHECKS ::
      check in written &&
      findings[check] == if !check.exact then Inventory(0)
                         else Exact(if ResourceId(journal, check.index).None? then Unrecorded else Absent)
  }

  lemma AbsentExactlyWhenAllClear(
    report: Report, journal: Journal, findings: map<Check, Finding>, written: set<Check>)
    requires FindingsOk(journal, findings) && Reflects(report, journal, findings, written)
    ensures Verdict(report) == Absent <==> report.reason.None? && AllClear(journal, findings, written)
  {
    forall check <- CHECKS
      ensures report.reason.None? && Verdict(report) == Absent ==>
        check in written &&
        findings[check] == if !check.exact then Inventory(0)
                           else Exact(if ResourceId(journal, check.index).None? then Unrecorded else Absent)
    {
      assert FindingOk(journal, check, findings[check]);
      assert ResourceReflects(report, journal, findings, written, check.index);
      assert InventoryReflects(report, journal, findings, written, check.index);
      assert report.resources[check.index] in report.resources && report.inventory[check.index] in report.inventory;
    }
    if report.reason.None? && AllClear(journal, findings, written) {
      forall i | 0 <= i < ROLES
        ensures report.resources[i].status in {Absent, Unrecorded} && report.inventory[i].status == Absent
      {
        assert ResourceReflects(report, journal, findings, written, i) && InventoryReflects(report, journal, findings, written, i);
      }
    }
  }

  // ---- what the check lets through ----

  /** Some findings, and some of the six reads finished, leave these lines; the status is what they come to. */
  ghost predicate Attested(report: Report, journal: Journal) {
    StatusOk(report) &&
    exists findings, written :: FindingsOk(journal, findings) && Reflects(report, journal, findings, written)
  }

  /** A resource that was never recorded is only ever unread or unrecorded. */
  predicate NothingInvented(report: Report) {
    forall i :: 0 <= i < |report.resources| && report.resources[i].id.None? ==>
      report.resources[i].status == Unknown || report.resources[i].status == Unrecorded
  }

  /** The finding that a line stands for; an unread line leaves it open. */
  function FindingBehind(report: Report, journal: Journal, check: Check): (finding: Finding)
    requires LinesOk(report, journal) && NothingInvented(report) && check in CHECKS
    ensures FindingOk(journal, check, finding)
    ensures check.exact && report.resources[check.index].status != Unknown ==>
              finding == Exact(report.resources[check.index].status)
    ensures !check.exact && report.inventory[check.index].status != Unknown ==>
              finding.Inventory? && report.inventory[check.index].count == Some(finding.count)
  {
    var i := check.index;
    assert ResourceLineOk(report.resources[i], Roles(journal.provider)[i], ResourceId(journal, i));
    assert InventoryLineOk(report.inventory[i], Roles(journal.provider)[i]);
    if check.exact then
      if report.resources[i].status == Unknown then Failure(ReadFailed) else Exact(report.resources[i].status)
    else if report.inventory[i].count.None? then Failure(ReadFailed) else Inventory(report.inventory[i].count.value)
  }

  /** The check lets through exactly the reports that reads can leave, and those that invent the state of an unrecorded resource. */
  lemma AttestedExactlyWhenChecked(report: Report, journal: Journal)
    ensures Attested(report, journal) <==> CheckedReport(report, journal) && NothingInvented(report)
  {
    if Attested(report, journal) {
      var findings, written :| FindingsOk(journal, findings) && Reflects(report, journal, findings, written);
      ReflectingLinesAreOk(report, journal, findings, written);
      forall i | 0 <= i < ROLES && report.resources[i].id.None?
        ensures report.resources[i].status == Unknown || report.resources[i].status == Unrecorded
      {
        assert ResourceReflects(report, journal, findings, written, i);
        assert FindingOk(journal, Check(i, true), findings[Check(i, true)]);
      }
    }
    if CheckedReport(report, journal) && NothingInvented(report) {
      var findings := map check | check in CHECKS :: FindingBehind(report, journal, check);
      var written := set check | check in CHECKS;
      forall i | 0 <= i < ROLES
        ensures ResourceReflects(report, journal, findings, written, i) && InventoryReflects(report, journal, findings, written, i)
      {
        assert Check(i, true) in CHECKS && Check(i, false) in CHECKS;
        assert ResourceLineOk(report.resources[i], Roles(journal.provider)[i], ResourceId(journal, i));
        assert InventoryLineOk(report.inventory[i], Roles(journal.provider)[i]);
      }
      assert Reflects(report, journal, findings, written);
    }
  }

  /** The check does let through a report that calls a resource absent that was never recorded, as no audit does. */
  lemma InventedAbsencePasses() returns (journal: Journal, report: Report)
    ensures CheckedReport(report, journal) && report.status == Absent && !Attested(report, journal)
  {
    journal := Journal(Aws, "deployment", []);
    var roles := Roles(Aws);
    report := Report(
      Aws, "deployment", Absent,
      [ResourceLine(roles[0], None, Absent), ResourceLine(roles[1], None, Absent), ResourceLine(roles[2], None, Absent)],
      [InventoryLine(roles[0], Absent, Some(0)), InventoryLine(roles[1], Absent, Some(0)),
       InventoryLine(roles[2], Absent, Some(0))],
      None);
    assert report.resources[0].id.None?;
    AttestedExactlyWhenChecked(report, journal);
  }
}
