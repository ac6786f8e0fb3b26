/**
 * The aggregator's scan-report loops: they stop early at a cap, and return the leading findings of the
 * whole report. Vendor fields that only fill a finding are kept as the raw text of the item.
 */
module Aggregator {
  import opened Prelude

  /** The request body of an ingest call: one JSON value or a list of them. */
  datatype Payload<+T> = Single(item: T) | List(items: seq<T>)

  function Items<T>(payload: Payload<T>): seq<T> {
    match payload
    case Single(item) => [item]
    case List(items) => items
  }

  datatype Category = Vulnerability | Misconfiguration | Secret | Summary | Posture

  datatype Finding = Finding(category: Category, image: string, target: string, status: string, raw: string)

  /** One entry of a report's Results; an empty text stands for a missing key. */
  datatype ScanResult = ScanResult(target: string, vulnerabilities: seq<string>, misconfigurations: seq<string>, secrets: seq<string>)

  datatype Report = Report(artifactName: string, results: seq<ScanResult>)

  /** The slice s[:n] of Python, which counts a negative n from the end. */
  function Upto<T>(s: seq<T>, n: int): seq<T> {
    if n >= |s| then s else if n >= 0 then s[..n] else if |s| + n >= 0 then s[..|s| + n] else []
  }

  lemma Regroup<T>(a: seq<T>, b: seq<T>, c: seq<T>)
    ensures (a + b) + c == a + (b + c)
  {
  }

  /** A cap keeps leading elements: that many, or all but that many when it is negative. */
  lemma UptoExactly<T>(s: seq<T>, n: int)
    ensures Upto(s, n) <= s
    ensures |Upto(s, n)| == if n >= 0 then Min(n, |s|) else Max(0, |s| + n)
  {
  }

  // ---------------------------------------------------------------- every finding of a Trivy report

  function Image(report: Report): string {
    if report.artifactName == "" then "unknown-image" else report.artifactName
  }

  function Target(report: Report, result: ScanResult): string {
    if result.target == "" then Image(report) else result.target
  }

  function Found(category: Category, image: string, target: string, items: seq<string>): seq<Finding> {
    seq(|items|, i requires 0 <= i < |items| => Finding(category, image, target, "OPEN", items[i]))
  }

  function ResultFindings(report: Report, result: ScanResult): seq<Finding> {
    var image, target := Image(report), Target(report, result);
    Found(Vulnerability, image, target, result.vulnerabilities)
    + Found(Misconfiguration, image, target, result.misconfigurations)
    + Found(Secret, image, target, result.secrets)
  }

  function Flat(report: Report, n: nat): seq<Finding>
    requires n <= |report.results|
  {
    if n == 0 then [] else Flat(report, n - 1) + ResultFindings(report, report.results[n - 1])
  }

  function ScanSummary(report: Report): Finding {
    Finding(Summary, Image(report), "", "CLOSED", report.artifactName)
  }

  /** The report's findings without a cap; a clean report has one summary finding. */
  function ReportFindings(report: Report): seq<Finding> {
    var all := Flat(report, |report.results|);
    if all == [] then [ScanSummary(report)] else all
  }

  /** What a cap leaves of them: with no room for a finding, only the first result is looked at. */
  function CappedReport(report: Report, cap: int): seq<Finding> {
    if cap >= 1 then Upto(ReportFindings(report), cap)
    else
      var first := Flat(report, if report.results == [] then 0 else 1);
      if first == [] then [ScanSummary(report)] else Upto(first, cap)
  }

  lemma {:induction false} FlatIsPrefix(report: Report, m: nat, n: nat)
    requires m <= n <= |report.results|
    ensures Flat(report, m) <= Flat(report, n)
  {
    if m < n {
      FlatIsPrefix(report, m, n - 1);
    }
  }

  // ---------------------------------------------------------------- what those findings are

  function ItemCount(results: seq<ScanResult>): nat {
    if results == [] then 0
    else
      var last := results[|results| - 1];
      ItemCount(results[..|results| - 1]) + Size(last)
  }

  /** An open finding of this category for this item, naming the report's image and the result's target. */
  predicate Reports(f: Finding, category: Category, text: string, report: Report, result: ScanResult) {
    var image := if report.artifactName == "" then "unknown-image" else report.artifactName;
    && f.category == category && f.status == "OPEN" && f.raw == text && f.image == image
    && f.target == if result.target == "" then image else result.target
  }

  /** One finding for each item of a list, in order. */
  predicate ReportsList(findings: seq<Finding>, category: Category, items: seq<string>, report: Report, result: ScanResult) {
    |findings| == |items| && forall i :: 0 <= i < |items| ==> Reports(findings[i], category, items[i], report, result)
  }

  function Size(result: ScanResult): nat {
    |result.vulnerabilities| + |result.misconfigurations| + |result.secrets|
  }

  /** The findings of one result: those of its three lists, one list after the other. */
  predicate ReportsResult(findings: seq<Finding>, report: Report, result: ScanResult) {
    var v, m := |result.vulnerabilities|, |result.misconfigurations|;
    && |findings| == Size(result)
    && ReportsList(findings[..v], Vulnerability, result.vulnerabilities, report, result)
    && ReportsList(findings[v..v + m], Misconfiguration, result.misconfigurations, report, result)
    && ReportsList(findings[v + m..], Secret, result.secrets, report, result)
  }

  lemma ResultIsReported(report: Report, result: ScanResult)
    ensures ReportsResult(ResultFindings(report, result), report, result)
  {
    var image, target := Image(report), Target(report, result);
    var v, m, k := Found(Vulnerability, image, target, result.vulnerabilities),
                   Found(Misconfiguration, image, target, result.misconfigurations), Found(Secret, image, target, result.secrets);
    assert ResultFindings(report, result) == v + m + k;
    FoundReports(Vulnerability, report, result, result.vulnerabilities);
    FoundReports(Misconfiguration, report, result, result.misconfigurations);
    FoundReports(Secret, report, result, result.secrets);
    hide ReportsList, Found, ResultFindings, Image, Target;
    ThreeParts(v, m, k);
  }

  lemma FoundReports(category: Category, report: Report, result: ScanResult, items: seq<string>)
    ensures |Found(category, Image(report), Target(report, result), items)| == |items|
    ensures ReportsList(Found(category, Image(report), Target(report, result), items), category, items, report, result)
  {
  }

  lemma ThreeParts<T>(a: seq<T>, b: seq<T>, c: seq<T>)
    ensures (a + b + c)[..|a|] == a && (a + b + c)[|a|..|a| + |b|] == b && (a + b + c)[|a| + |b|..] == c
  {
  }

  lemma {:induction false} FlatLength(report: Report, n: nat)
    requires n <= |report.results|
    ensures |Flat(report, n)| == ItemCount(report.results[..n])
  {
    if n > 0 {
      FlatLength(report, n - 1);
      ResultIsReported(report, report.results[n - 1]);
      assert report.results[..n][..n - 1] == report.results[..n - 1];
      hide ResultFindings;
    }
  }

  /**
   * The findings of a report, spelled out: as many as its three lists have items over all results, result
   * by result and list by list, each open and with its item's text; or the one summary of a clean report.
   */
  lemma ReportFindingsExactly(report: Report)
    ensures ItemCount(report.results) > 0 ==> |ReportFindings(report)| == ItemCount(report.results)
    ensures ItemCount(report.results) > 0 ==> forall n :: 0 <= n < |report.results| ==>
      ReportsAt(ReportFindings(report), ItemCount(report.results[..n]), report, report.results[n])
    ensures ItemCount(report.results) == 0 ==>
      && |ReportFindings(report)| == 1
      && var f := ReportFindings(report)[0];
      f.category == Summary && f.status == "CLOSED" && f.image == if report.artifactName == "" then "unknown-image" else report.artifactName
  {
    FlatLength(report, |report.results|);
    assert report.results[..|report.results|] == report.results;
    if ItemCount(report.results) > 0 {
      forall n | 0 <= n < |report.results|
        ensures ReportsAt(ReportFindings(report), ItemCount(report.results[..n]), report, report.results[n])
      {
        ResultAt(report, n);
      }
    }
  }

  /** The findings of this result begin at position at. */
  predicate ReportsAt(findings: seq<Finding>, at: nat, report: Report, result: ScanResult) {
    at + Size(result) <= |findings| && ReportsResult(findings[at..at + Size(result)], report, result)
  }

  lemma ResultAt(report: Report, n: nat)
    requires n < |report.results|
    ensures ReportsAt(Flat(report, |report.results|), ItemCount(report.results[..n]), report, report.results[n])
  {
    FlatIsPrefix(report, n + 1, |report.results|);
    assert Flat(report, n + 1) == Flat(report, n) + ResultFindings(report, report.results[n]);
    FlatLength(report, n);
    ResultIsReported(report, report.results[n]);
    hide Flat, ResultFindings, ItemCount, ReportsList;
    SliceOfPrefix(Flat(report, n), ResultFindings(report, report.results[n]), Flat(report, |report.results|));
  }

  method AppendFound(findings: seq<Finding>, category: Category, image: string, target: string, items: seq<string>)
    returns (r: seq<Finding>)
    ensures r == findings + Found(category, image, target, items)
  {
    r := findings;
    for i := 0 to |items|
      invariant r == findings + Found(category, image, target, items)[..i]
    {
      r := r + [Finding(category, image, target, "OPEN", items[i])];
    }
  }

  method AppendResult(findings: seq<Finding>, report: Report, result: ScanResult) returns (r: seq<Finding>)
    ensures r == findings + ResultFindings(report, result)
  {
    var image := Image(report);
    var target := if result.target == "" then image else result.target;
    r := AppendFound(findings, Vulnerability, image, target, result.vulnerabilities);
    r := AppendFound(r, Misconfiguration, image, target, result.misconfigurations);
    r := AppendFound(r, Secret, image, target, result.secrets);
  }

  /** Stopping after n results, with enough findings or none left to read, keeps the leading findings of all. */
  lemma StoppingIsCutting(report: Report, n: nat, cap: int)
    requires n <= |report.results|
    requires n == |report.results| || (n > 0 && |Flat(report, n)| >= cap)
    requires cap <= 0 ==> n <= 1
    ensures CappedReport(report, cap) == if Flat(report, n) != [] then Upto(Flat(report, n), cap) else [ScanSummary(report)]
  {
    FlatIsPrefix(report, n, |report.results|);
    hide Flat;
  }

  method NormalizeTrivyReport(report: Report, cap: int) returns (r: seq<Finding>)
    ensures r == CappedReport(report, cap)
    ensures cap >= 1 ==> r <= ReportFindings(report) && |r| == Min(cap, |ReportFindings(report)|)
  {
    var findings := [];
    var n := 0;
    while n < |report.results|
      invariant n <= |report.results|
      invariant findings == Flat(report, n)
      invariant n > 0 ==> |findings| < cap
    {
      findings := AppendResult(findings, report, report.results[n]);
      n := n + 1;
      if |findings| >= cap {
        break;
      }
    }
    StoppingIsCutting(report, n, cap);
    if cap >= 1 { CutIsLeading(ReportFindings(report), cap); }
    hide Flat, ReportFindings, Upto;
    return if findings != [] then Upto(findings, cap) else [ScanSummary(report)];
  }

  // ---------------------------------------------------------------- a list of reports

  /** An element that is not an object is skipped. */
  function ElementFindings(element: Option<Report>): seq<Finding> {
    if element.None? then [] else ReportFindings(element.value)
  }

  function AllFindings(elements: seq<Option<Report>>): seq<Finding> {
    if elements == [] then [] else AllFindings(elements[..|elements| - 1]) + ElementFindings(elements[|elements| - 1])
  }

  /** How many findings the reports of a list have together. */
  function TotalFindings(elements: seq<Option<Report>>): nat {
    if elements == [] then 0
    else
      var last := elements[|elements| - 1];
      TotalFindings(elements[..|elements| - 1]) + if last.Some? then Max(1, ItemCount(last.value.results)) else 0
  }

  lemma {:induction false} AllFindingsLength(elements: seq<Option<Report>>)
    ensures |AllFindings(elements)| == TotalFindings(elements)
  {
    if elements != [] {
      var last := elements[|elements| - 1];
      AllFindingsLength(elements[..|elements| - 1]);
      if last.Some? { ReportFindingsExactly(last.value); }
      hide ReportFindings, ReportsAt;
    }
  }

  /** The findings of a list of reports are those of its reports, one report after the other. */
  lemma AllFindingsExactly(elements: seq<Option<Report>>, n: nat)
    requires n < |elements| && elements[n].Some?
    ensures |AllFindings(elements)| == TotalFindings(elements)
    ensures var at := TotalFindings(elements[..n]);
            at + |ReportFindings(elements[n].value)| <= |AllFindings(elements)|
            && AllFindings(elements)[at..at + |ReportFindings(elements[n].value)|] == ReportFindings(elements[n].value)
  {
    AllFindingsLength(elements);
    AllFindingsLength(elements[..n]);
    AllFindingsPrefix(elements, n + 1);
    AllFindingsNext(elements, n);
    hide AllFindings, ReportFindings, TotalFindings;
    SliceOfPrefix(AllFindings(elements[..n]), ReportFindings(elements[n].value), AllFindings(elements));
  }

  lemma SliceOfPrefix(a: seq<Finding>, b: seq<Finding>, all: seq<Finding>)
    requires a + b <= all
    ensures all[|a|..|a| + |b|] == b
  {
    assert (a + b)[|a|..] == b;
  }

  function FirstReport(elements: seq<Option<Report>>): Option<Report> {
    if elements == [] then None else if elements[0].Some? then elements[0] else FirstReport(elements[1..])
  }

  function CappedReports(elements: seq<Option<Report>>, cap: int): seq<Finding> {
    if cap >= 1 then Upto(AllFindings(elements), cap)
    else if FirstReport(elements).None? then []
    else Upto(CappedReport(FirstReport(elements).value, cap), cap)
  }

  lemma {:induction false} AllFindingsPrefix(elements: seq<Option<Report>>, n: nat)
    requires n <= |elements|
    ensures AllFindings(elements[..n]) <= AllFindings(elements)
  {
    if n == |elements| {
      assert elements[..n] == elements;
    } else {
      AllFindingsPrefix(elements[..|elements| - 1], n);
      assert elements[..|elements| - 1][..n] == elements[..n];
    }
  }

  /** Cutting a part before appending it changes nothing that the cap would keep. */
  lemma CutTwice(a: seq<Finding>, b: seq<Finding>, cap: int)
    requires |a| < cap
    ensures Upto(a + Upto(b, cap), cap) == Upto(a + b, cap)
    ensures |a + Upto(b, cap)| < cap ==> a + Upto(b, cap) == a + b
    ensures |a + Upto(b, cap)| >= cap ==> |a + b| >= cap
  {
  }

  lemma {:induction false} FirstReportAt(elements: seq<Option<Report>>, i: nat)
    requires i <= |elements| && forall j :: 0 <= j < i ==> elements[j].None?
    ensures FirstReport(elements) == if i < |elements| && elements[i].Some? then elements[i] else FirstReport(elements[i..])
  {
    if i > 0 {
      FirstReportAt(elements[1..], i - 1);
      assert elements[1..][i - 1..] == elements[i..];
    } else {
      assert elements[i..] == elements;
    }
  }

  lemma CutOfPrefix(a: seq<Finding>, b: seq<Finding>, cap: int)
    requires a <= b && 1 <= cap <= |a|
    ensures Upto(a, cap) == Upto(b, cap)
  {
  }

  lemma AllFindingsNext(reports: seq<Option<Report>>, i: nat)
    requires i < |reports|
    ensures AllFindings(reports[..i + 1]) == AllFindings(reports[..i]) + ElementFindings(reports[i])
  {
    assert reports[..i + 1][..i] == reports[..i];
  }

  lemma CutIsLeading(s: seq<Finding>, cap: int)
    requires cap >= 1
    ensures Upto(s, cap) <= s && |Upto(s, cap)| == Min(cap, |s|)
  {
  }

  lemma CappedIsLeading(elements: seq<Option<Report>>, cap: int)
    requires cap >= 1
    ensures CappedReports(elements, cap) <= AllFindings(elements)
    ensures |CappedReports(elements, cap)| == Min(cap, |AllFindings(elements)|)
  {
    hide AllFindings, Upto;
    CutIsLeading(AllFindings(elements), cap);
  }

  /** The same for a list of reports, each already cut. */
  lemma NextReport(reports: seq<Option<Report>>, i: nat, findings: seq<Finding>, cap: int)
    requires i < |reports| && reports[i].Some? && cap >= 1
    requires |findings| < cap && findings == AllFindings(reports[..i])
    ensures var next := findings + CappedReport(reports[i].value, cap);
            if |next| < cap then next == AllFindings(reports[..i + 1]) else Upto(next, cap) == CappedReports(reports, cap)
  {
    var part := ReportFindings(reports[i].value);
    var next, uncut := findings + Upto(part, cap), findings + part;
    AllFindingsNext(reports, i);
    AllFindingsPrefix(reports, i + 1);
    CutTwice(findings, part, cap);
    hide AllFindings, ReportFindings, Upto;
    if |next| >= cap {
      CutOfPrefix(uncut, AllFindings(reports), cap);
    }
  }

  /** No report seen yet although the cap leaves room for none: the first one decides the outcome. */
  predicate NoneYet(reports: seq<Option<Report>>, i: nat)
    requires i <= |reports|
  {
    forall j :: 0 <= j < i ==> reports[j].None?
  }

  lemma AllReportsRead(reports: seq<Option<Report>>, findings: seq<Finding>, cap: int)
    requires if cap >= 1 then |findings| < cap && findings == AllFindings(reports[..|reports|])
             else findings == [] && NoneYet(reports, |reports|)
    ensures Upto(findings, cap) == CappedReports(reports, cap)
  {
    hide AllFindings;
    assert reports[..|reports|] == reports;
    if cap <= 0 {
      FirstReportAt(reports, |reports|);
    }
  }

  lemma FirstReportDecides(reports: seq<Option<Report>>, i: nat, cap: int)
    requires i < |reports| && cap <= 0 && NoneYet(reports, i) && reports[i].Some?
    ensures Upto(CappedReport(reports[i].value, cap), cap) == CappedReports(reports, cap)
  {
    hide CappedReport;
    FirstReportAt(reports, i);
  }

  method NormalizeTrivy(payload: Payload<Option<Report>>, cap: int) returns (r: seq<Finding>)
    ensures r == CappedReports(Items(payload), cap)
    ensures cap >= 1 ==> r <= AllFindings(Items(payload)) && |r| == Min(cap, |AllFindings(Items(payload))|)
  {
    if cap >= 1 { CappedIsLeading(Items(payload), cap); }
    hide CappedReports, CappedReport, ReportFindings, Upto;
    var reports := Items(payload);
    var findings := [];
    var i := 0;
    assert reports[..0] == [];
    while i < |reports|
      invariant i <= |reports|
      invariant if cap >= 1 then |findings| < cap && findings == AllFindings(reports[..i]) else findings == [] && NoneYet(reports, i)
    {
      if reports[i].Some? {
        var part := NormalizeTrivyReport(reports[i].value, cap);
        if cap >= 1 {
          NextReport(reports, i, findings, cap);
        } else {
          FirstReportDecides(reports, i, cap);
          assert findings + part == part;
        }
        findings := findings + part;
        if |findings| >= cap {
          return Upto(findings, cap);
        }
      } else {
        AllFindingsNext(reports, i);
      }
      i := i + 1;
    }
    AllReportsRead(reports, findings, cap);
    return Upto(findings, cap);
  }

  // ---------------------------------------------------------------- Prowler

  /** One element of a Prowler report; an empty text stands for a missing key, raw for the other fields. */
  datatype Check = NotAnObject | Check(statusCode: string, status: string, raw: string)

  function UpperChar(c: char): char {
    if 'a' <= c <= 'z' then 'A' + (c - 'a') else c
  }

  function Upper(s: string): string {
    seq(|s|, i requires 0 <= i < |s| => UpperChar(s[i]))
  }

  function Status(check: Check): string
    requires check.Check?
  {
    Upper(if check.statusCode != "" then check.statusCode else check.status)
  }

  predicate Published(check: Check, publishPassed: bool) {
    check.Check? && (Status(check) != "PASS" || publishPassed)
  }

  function CheckFinding(check: Check): Finding
    requires check.Check?
  {
    var status := Status(check);
    Finding(Posture, "", "", if status in {"", "FAIL", "NEW"} then "OPEN" else status, check.raw)
  }

  /** Every finding of a Prowler report without a cap. */
  function CheckFindings(checks: seq<Check>, publishPassed: bool): seq<Finding> {
    if checks == [] then []
    else
      CheckFindings(checks[..|checks| - 1], publishPassed)
      + if Published(checks[|checks| - 1], publishPassed) then [CheckFinding(checks[|checks| - 1])] else []
  }

  lemma CheckFindingsSnoc(a: seq<Check>, check: Check, publishPassed: bool)
    ensures CheckFindings(a + [check], publishPassed)
            == CheckFindings(a, publishPassed) + if Published(check, publishPassed) then [CheckFinding(check)] else []
  {
    assert (a + [check])[..|a|] == a;
  }

  lemma {:induction false} CheckFindingsConcat(a: seq<Check>, b: seq<Check>, publishPassed: bool)
    ensures CheckFindings(a + b, publishPassed) == CheckFindings(a, publishPassed) + CheckFindings(b, publishPassed)
  {
    if b == [] {
      assert a + b == a;
    } else {
      var before, last := b[..|b| - 1], b[|b| - 1];
      CheckFindingsConcat(a, before, publishPassed);
      CheckFindingsSnoc(a + before, last, publishPassed);
      CheckFindingsSnoc(before, last, publishPassed);
      assert b == before + [last];
      hide *;
      Regroup(a, before, [last]);
      Regroup(CheckFindings(a, publishPassed), CheckFindings(before, publishPassed), if Published(last, publishPassed) then [CheckFinding(last)] else []);
    }
  }

  lemma CheckFindingsNext(checks: seq<Check>, i: nat, publishPassed: bool)
    requires i < |checks|
    ensures CheckFindings(checks[..i + 1], publishPassed)
            == CheckFindings(checks[..i], publishPassed) + if Published(checks[i], publishPassed) then [CheckFinding(checks[i])] else []
  {
    CheckFindingsSnoc(checks[..i], checks[i], publishPassed);
    assert checks[..i + 1] == checks[..i] + [checks[i]];
  }

  lemma CheckFindingsPrefix(checks: seq<Check>, n: nat, publishPassed: bool)
    requires n <= |checks|
    ensures CheckFindings(checks[..n], publishPassed) <= CheckFindings(checks, publishPassed)
  {
    CheckFindingsConcat(checks[..n], checks[n..], publishPassed);
    assert checks[..n] + checks[n..] == checks;
  }

  /** The 26 small letters are raised, everything else stays. */
  lemma UpperExactly(s: string)
    ensures |Upper(s)| == |s|
    ensures forall i :: 0 <= i < |s| && s[i] !in "abcdefghijklmnopqrstuvwxyz" ==> Upper(s)[i] == s[i]
    ensures forall i, k :: 0 <= i < |s| && 0 <= k < 26 && s[i] == "abcdefghijklmnopqrstuvwxyz"[k] ==> Upper(s)[i] == "ABCDEFGHIJKLMNOPQRSTUVWXYZ"[k]
  {
    forall c: char | c !in "abcdefghijklmnopqrstuvwxyz" ensures UpperChar(c) == c {
      SmallLetter(c);
    }
    forall k | 0 <= k < 26 ensures UpperChar("abcdefghijklmnopqrstuvwxyz"[k]) == "ABCDEFGHIJKLMNOPQRSTUVWXYZ"[k] {
      LetterRaised(k);
    }
    hide UpperChar;
  }

  lemma SmallLetter(c: char)
    ensures 'a' <= c <= 'z' ==> c in "abcdefghijklmnopqrstuvwxyz"
  {
    var letters := "abcdefghijklmnopqrstuvwxyz";
    if 'a' <= c <= 'z' { assert letters[c as int - 'a' as int] == c; }
  }

  lemma LetterRaised(k: nat)
    requires k < 26
    ensures UpperChar("abcdefghijklmnopqrstuvwxyz"[k]) == "ABCDEFGHIJKLMNOPQRSTUVWXYZ"[k]
  {
  }

  /** The text pass in any case. */
  predicate SaysPass(s: string) {
    |s| == 4 && s[0] in {'p', 'P'} && s[1] in {'a', 'A'} && s[2] in {'s', 'S'} && s[3] in {'s', 'S'}
  }

  /** The status code where there is one, else the status. */
  function StatusText(check: Check): string
    requires check.Check?
  {
    if check.statusCode == "" then check.status else check.statusCode
  }

  /** A check is reported unless it is no object, or passed and passes are not published. */
  predicate Wanted(check: Check, publishPassed: bool) {
    check.Check? && (publishPassed || !SaysPass(StatusText(check)))
  }

  lemma UpperIsPass(s: string)
    ensures Upper(s) == "PASS" <==> SaysPass(s)
  {
    if |s| == 4 {
      assert Upper(s) == [UpperChar(s[0]), UpperChar(s[1]), UpperChar(s[2]), UpperChar(s[3])];
    }
  }

  /** An open finding with the check's text; a status other than none, FAIL or NEW is kept in capitals. */
  predicate ReportsCheck(f: Finding, check: Check) {
    && check.Check? && f.category == Posture && f.raw == check.raw
    && var status := Upper(StatusText(check));
    f.status == if status == "" || status == "FAIL" || status == "NEW" then "OPEN" else status
  }

  /** The findings come, in order, from the checks at these positions, which are all that are wanted. */
  predicate Selects(from: seq<nat>, findings: seq<Finding>, checks: seq<Check>, publishPassed: bool) {
    && |from| == |findings|
    && (forall i, j :: 0 <= i < j < |from| ==> from[i] < from[j])
    && (forall k :: 0 <= k < |from| ==> from[k] < |checks| && ReportsCheck(findings[k], checks[from[k]]))
    && (forall i :: 0 <= i < |checks| ==> (i in from <==> Wanted(checks[i], publishPassed)))
  }

  lemma SelectsWithout(from: seq<nat>, findings: seq<Finding>, checks: seq<Check>, check: Check, publishPassed: bool)
    requires Selects(from, findings, checks, publishPassed) && !Wanted(check, publishPassed)
    ensures Selects(from, findings, checks + [check], publishPassed)
  {
    hide Wanted, ReportsCheck;
    assert |checks| !in from;
  }

  lemma SelectsWith(from: seq<nat>, findings: seq<Finding>, checks: seq<Check>, check: Check, f: Finding, publishPassed: bool)
    requires Selects(from, findings, checks, publishPassed) && Wanted(check, publishPassed) && ReportsCheck(f, check)
    ensures Selects(from + [|checks|], findings + [f], checks + [check], publishPassed)
  {
    hide Wanted, ReportsCheck;
    var from', checks' := from + [|checks|], checks + [check];
    assert from'[|from|] == |checks|;
    forall i | 0 <= i < |checks'| ensures i in from' <==> Wanted(checks'[i], publishPassed) {
      assert i < |checks| ==> checks'[i] == checks[i];
      assert i in from' <==> i in from || i == |checks|;
    }
  }

  /**
   * The findings of a Prowler report, spelled out: in the order of the report, one for each wanted check
   * and none for any other.
   */
  lemma {:induction false} CheckFindingsExactly(checks: seq<Check>, publishPassed: bool) returns (from: seq<nat>)
    ensures Selects(from, CheckFindings(checks, publishPassed), checks, publishPassed)
  {
    if checks == [] {
      from := [];
    } else {
      var n := |checks| - 1;
      from := CheckFindingsExactly(checks[..n], publishPassed);
      WantedIsPublished(checks[n], publishPassed);
      CheckFindingsSnoc(checks[..n], checks[n], publishPassed);
      hide CheckFindings, Published, CheckFinding, Wanted, ReportsCheck, Selects;
      assert checks == checks[..n] + [checks[n]];
      var before := CheckFindings(checks[..n], publishPassed);
      if Published(checks[n], publishPassed) {
        SelectsWith(from, before, checks[..n], checks[n], CheckFinding(checks[n]), publishPassed);
        from := from + [n];
      } else {
        SelectsWithout(from, before, checks[..n], checks[n], publishPassed);
        assert before + [] == before;
      }
    }
  }

  lemma WantedIsPublished(check: Check, publishPassed: bool)
    ensures Published(check, publishPassed) <==> Wanted(check, publishPassed)
    ensures Published(check, publishPassed) ==> check.Check? && ReportsCheck(CheckFinding(check), check)
  {
    if check.Check? { UpperIsPass(StatusText(check)); }
    hide Upper, SaysPass;
  }

  /** The cap is looked at only after a finding was added, so one always fits. */
  method NormalizeProwler(payload: Payload<Check>, cap: int, publishPassed: bool) returns (findings: seq<Finding>)
    ensures findings == Upto(CheckFindings(Items(payload), publishPassed), Max(cap, 1))
  {
    hide CheckFindings, CheckFinding, Status, Upto;
    var checks := Items(payload);
    findings := [];
    NothingYet(checks, publishPassed);
    for i := 0 to |checks|
      invariant findings == CheckFindings(checks[..i], publishPassed)
      invariant |findings| < Max(cap, 1)
    {
      CheckFindingsNext(checks, i, publishPassed);
      if checks[i].NotAnObject? {
        continue;
      }
      var status := Status(checks[i]);
      if status == "PASS" && !publishPassed {
        continue;
      }
      findings := findings + [CheckFinding(checks[i])];
      if |findings| >= cap {
        CheckFindingsPrefix(checks, i + 1, publishPassed);
        CutExactly(findings, CheckFindings(checks, publishPassed), Max(cap, 1));
        return;
      }
    }
    assert checks[..|checks|] == checks;
    CutExactly(findings, findings, Max(cap, 1));
  }

  lemma NothingYet(checks: seq<Check>, publishPassed: bool)
    ensures CheckFindings(checks[..0], publishPassed) == []
  {
  }

  lemma CutExactly(a: seq<Finding>, b: seq<Finding>, cap: int)
    requires a <= b && |a| <= cap && (a == b || |a| == cap)
    ensures a == Upto(b, cap)
  {
  }
}
