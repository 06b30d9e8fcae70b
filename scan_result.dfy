/**
 * Rendering of trivy scan results as the Markdown report uploaded for an
 * image (scanning/domain/scan_result.go). The report time is a parameter,
 * and the per-architecture results come as a sequence in the order the
 * report writes them.
 */
module ScanResults {
  import opened Wrappers
  import opened Strings
  import opened Tasks

  const OsTypeOpenEuler := "openEuler"
  const OsTypeUbuntu := "ubuntu"
  const OsPackagesClass := "os-pkgs"
  const OpenEulerAdvisoryPrefix := "https://www.openeuler.org/zh/security/security-bulletins/detail/?id="
  const UbuntuAdvisoryPrefix := "https://ubuntu.com/security/"

  /** The two lines of the table head. */
  const TableHeadLine := "|  软件包  | 漏洞ID | 严重级别 |  状态  | 安装版本 | 修复版本 |"
  const TableRuleLine := "| :----- | :-----  | :-----  | :----- | :----- | :----- |"
  const TableHead := TableHeadLine + "\n" + TableRuleLine
  const NoVulnerabilities := "无漏洞"

  datatype ImageConfig = ImageConfig(os: string, arch: string) {
    /** The `os/arch` platform string. */
    function GenArch(): string {
      os + "/" + arch
    }
  }

  datatype Metadata = Metadata(repoTags: seq<string>, imageConfig: ImageConfig)

  datatype Vulnerability = Vulnerability(vulnerabilityId: string, pkgName: string, installedVersion: string,
                                         fixedVersion: string, status: string, severity: string)

  /** One scanned target of a trivy report (Go's `Result`). */
  datatype TargetResult = TargetResult(target: string, resultClass: string, osType: string, vulnerabilities: seq<Vulnerability>)

  datatype ScanResult = ScanResult(createdAt: string, metadata: Metadata, results: seq<TargetResult>)

  /** The outcome of scanning one architecture: an error text or a scan result. */
  datatype ArchResult = ArchResult(err: Option<string>, scanResult: ScanResult)

  datatype ArchSection = ArchSection(arch: string, result: ArchResult)

  /** Only OS package results of openEuler or Ubuntu images are reported. */
  predicate IsValid(r: TargetResult) {
    r.resultClass == OsPackagesClass && (r.osType == OsTypeOpenEuler || r.osType == OsTypeUbuntu)
  }

  function AdvisoryPrefix(osType: string): (prefix: string)
    ensures osType == OsTypeOpenEuler ==> prefix == OpenEulerAdvisoryPrefix
    ensures osType == OsTypeUbuntu ==> prefix == UbuntuAdvisoryPrefix
    ensures osType != OsTypeOpenEuler && osType != OsTypeUbuntu ==> prefix == ""
  {
    if osType == OsTypeOpenEuler then OpenEulerAdvisoryPrefix
    else if osType == OsTypeUbuntu then UbuntuAdvisoryPrefix
    else ""
  }

  /** A Markdown link whose text is the id and whose target is the advisory prefix followed by the id. */
  function FormatVulnerabilityId(r: TargetResult, id: string): (link: string)
  {
    "[" + id + "](" + AdvisoryPrefix(r.osType) + id + ")"
  }

  /** The cells of a table row: empty, the six padded fields, empty. */
  function RowCells(r: TargetResult, v: Vulnerability): seq<string> {
    ["", " " + v.pkgName + " ", " " + FormatVulnerabilityId(r, v.vulnerabilityId) + " ", "  " + v.severity + " ",
     "  " + v.status + " ", "  " + v.installedVersion + " ", "  " + v.fixedVersion + " ", ""]
  }

  /** A table row: its cells separated by "|" (the row format `| %s | %s |  %s |  %s |  %s |  %s |`). */
  function Row(r: TargetResult, v: Vulnerability): string {
    Join(RowCells(r, v), '|')
  }

  /** The rows of one result: one per vulnerability, in order, or none when the result is not reported. */
  function ResultRows(r: TargetResult): seq<string> {
    if !IsValid(r) then []
    else seq(|r.vulnerabilities|, j requires 0 <= j < |r.vulnerabilities| => Row(r, r.vulnerabilities[j]))
  }

  /** The table body of a report: the rows of its results, in order. */
  function Rows(results: seq<TargetResult>): seq<string>
    decreases |results|
  {
    if |results| == 0 then []
    else Rows(results[..|results| - 1]) + ResultRows(results[|results| - 1])
  }

  /** The results that are reported, in order. */
  function Reported(results: seq<TargetResult>): (rs: seq<TargetResult>)
    ensures |rs| <= |results|
    ensures forall i :: 0 <= i < |rs| ==> IsValid(rs[i])
    decreases |results|
  {
    if |results| == 0 then []
    else
      var last := results[|results| - 1];
      Reported(results[..|results| - 1]) + (if IsValid(last) then [last] else [])
  }

  /** The vulnerabilities of all reported results. */
  function ValidVulnerabilityCount(results: seq<TargetResult>): nat
    decreases |results|
  {
    if |results| == 0 then 0
    else
      var last := results[|results| - 1];
      ValidVulnerabilityCount(results[..|results| - 1]) + (if IsValid(last) then |last.vulnerabilities| else 0)
  }

  /** The report of a table body: the two head lines, the rows and a final line break, or the no-vulnerability line. */
  function Markdown(rows: seq<string>): string {
    (if |rows| > 0 then TableHead + "\n" + Join(rows, '\n') else NoVulnerabilities) + "\n"
  }

  function Heading(stamp: string): string {
    "# 扫描时间：" + stamp + "\n"
  }

  function SectionHead(arch: string): string {
    "\n--- \n ### 扫描架构：" + arch + " \n"
  }

  /** One architecture's section: its heading, then the error text or the result's Markdown. */
  function SectionText(s: ArchSection): string {
    SectionHead(s.arch) +
    (if s.result.err.Some? then s.result.err.value + "\n" else Markdown(Rows(s.result.scanResult.results)))
  }

  /** The report: the heading, then the sections in order. */
  function Content(stamp: string, sections: seq<ArchSection>): string
    decreases |sections|
  {
    if |sections| == 0 then Heading(stamp)
    else Content(stamp, sections[..|sections| - 1]) + SectionText(sections[|sections| - 1])
  }

  // ---------------------------------------------------------------------
  // Methods
  // ---------------------------------------------------------------------

  /** The inner loop of ToMarkdown: appends one row per vulnerability of a reported result. */
  method AppendResultRows(result: TargetResult, tableBody: seq<string>) returns (tableBody': seq<string>)
    requires IsValid(result)
    ensures tableBody' == tableBody + ResultRows(result)
  {
    tableBody' := tableBody;
    ghost var rows := ResultRows(result);
    for j := 0 to |result.vulnerabilities|
      invariant tableBody' == tableBody + rows[..j]
    {
      var row := Row(result, result.vulnerabilities[j]);
      assert rows[..j + 1] == rows[..j] + [row];
      tableBody' := tableBody' + [row];
    }
    assert rows[..|result.vulnerabilities|] == rows;
  }

  /** ScanResult.ToMarkdown: collects the rows of the reported results, then renders the table. */
  method ToMarkdown(sr: ScanResult) returns (md: string)
    ensures md == Markdown(Rows(sr.results))
  {
    var tableBody: seq<string> := [];
    for i := 0 to |sr.results|
      invariant tableBody == Rows(sr.results[..i])
    {
      var result := sr.results[i];
      assert sr.results[..i + 1][..i] == sr.results[..i];
      if IsValid(result) {
        tableBody := AppendResultRows(result, tableBody);
      } else {
        assert tableBody + [] == tableBody;
      }
    }
    assert sr.results[..|sr.results|] == sr.results;
    md := Markdown(tableBody);
  }

  /** BuildContent: the heading with the report time, then one section per architecture. */
  method BuildContent(stamp: string, sections: seq<ArchSection>) returns (content: string)
    ensures content == Content(stamp, sections)
  {
    content := Heading(stamp);
    for i := 0 to |sections|
      invariant content == Content(stamp, sections[..i])
    {
      var s := sections[i];
      assert sections[..i + 1][..i] == sections[..i];
      var body: string;
      if s.result.err.None? {
        body := ToMarkdown(s.result.scanResult);
      } else {
        body := s.result.err.value + "\n";
      }
      assert SectionText(s) == SectionHead(s.arch) + body;
      AppendAssoc(content, SectionHead(s.arch), body);
      content := content + SectionHead(s.arch);
      content := content + body;
    }
    assert sections[..|sections|] == sections;
  }

  // ---------------------------------------------------------------------
  // Lemmas
  // ---------------------------------------------------------------------

  /** GenArch splits back into OS and architecture when neither contains "/". */
  lemma GenArchSplits(c: ImageConfig)
    requires '/' !in c.os && '/' !in c.arch
    ensures Split(c.GenArch(), '/') == [c.os, c.arch]
  {
    SplitAfterField(c.os, '/', c.arch);
    SplitNoSep(c.arch, '/');
  }

  /** A linux platform string loses exactly its "linux/" prefix under FormatArch. */
  lemma LinuxGenArchTrims(arch: string)
    ensures TrimPrefix(ImageConfig("linux", arch).GenArch(), LinuxPrefix) == arch
  {
    var s := ImageConfig("linux", arch).GenArch();
    assert s == LinuxPrefix + arch;
    assert HasPrefix(s, LinuxPrefix);
  }

  /** A row splits back at "|" into its cells when no field and no link contains "|". */
  lemma RowSplitsIntoCells(r: TargetResult, v: Vulnerability)
    requires '|' !in v.pkgName && '|' !in FormatVulnerabilityId(r, v.vulnerabilityId) && '|' !in v.severity
    requires '|' !in v.status && '|' !in v.installedVersion && '|' !in v.fixedVersion
    ensures Split(Row(r, v), '|') == RowCells(r, v)
  {
    SplitJoin(RowCells(r, v), '|');
  }

  /** Rows come only from reported results, in order, one per vulnerability. */
  lemma {:induction false} RowCount(results: seq<TargetResult>)
    ensures |Rows(results)| == ValidVulnerabilityCount(results)
    decreases |results|
  {
    if |results| > 0 {
      RowCount(results[..|results| - 1]);
    }
  }

  /** Results that are not reported add no row: the table is that of the reported results alone. */
  lemma {:induction false} OnlyReportedResultsHaveRows(results: seq<TargetResult>)
    ensures Rows(results) == Rows(Reported(results))
    decreases |results|
  {
    if |results| > 0 {
      var n := |results| - 1;
      var last := results[n];
      OnlyReportedResultsHaveRows(results[..n]);
      var front := Reported(results[..n]);
      if IsValid(last) {
        assert (front + [last])[..|front|] == front;
        assert Rows(front + [last]) == Rows(front) + ResultRows(last);
      } else {
        assert front + [] == front;
      }
    }
  }

  /** Without any row the report says there are no vulnerabilities. */
  lemma EmptyReport(results: seq<TargetResult>)
    requires ValidVulnerabilityCount(results) == 0
    ensures Markdown(Rows(results)) == NoVulnerabilities + "\n"
  {
    RowCount(results);
  }

  /** With rows and no line break inside any of them, the report's lines are those of the head, the rows and a final empty line. */
  lemma MarkdownLines(rows: seq<string>)
    requires |rows| > 0 && NoSep(rows, '\n')
    ensures Split(Markdown(rows), '\n') == Split(TableHead, '\n') + rows + [""]
  {
    var body := Join(rows, '\n');
    JoinSnoc(rows, "", '\n');
    assert NoSep(rows + [""], '\n');
    SplitJoin(rows + [""], '\n');
    assert Join(rows + [""], '\n') == body + "\n";
    assert Split(body + "\n", '\n') == rows + [""];
    AppendAssoc(TableHead + "\n", body, "\n");
    assert Markdown(rows) == TableHead + ['\n'] + (body + "\n");
    SplitConcat(TableHead, '\n', body + "\n");
    assert Split(TableHead, '\n') + (rows + [""]) == Split(TableHead, '\n') + rows + [""];
  }

  /** The link's text is the id and its target the advisory prefix followed by the id. */
  lemma LinkTextAndTarget(r: TargetResult, id: string)
    ensures var link := FormatVulnerabilityId(r, id);
            |link| == |id| + |AdvisoryPrefix(r.osType)| + |id| + 4 &&
            link[1..|id| + 1] == id && link[|id| + 3..|link| - 1] == AdvisoryPrefix(r.osType) + id
  {
    var p := AdvisoryPrefix(r.osType);
    var link := FormatVulnerabilityId(r, id);
    assert link == ("[" + id + "](") + (p + id) + ")";
  }

  lemma MarkdownEndsWithNewline(rows: seq<string>)
    ensures HasSuffix(Markdown(rows), "\n")
  {
  }

  /** Every section, and hence every report, ends with a line break. */
  lemma {:induction false} ContentEndsWithNewline(stamp: string, sections: seq<ArchSection>)
    ensures HasSuffix(Content(stamp, sections), "\n")
    decreases |sections|
  {
    if |sections| > 0 {
      var s := sections[|sections| - 1];
      var text := SectionText(s);
      if s.result.err.None? {
        MarkdownEndsWithNewline(Rows(s.result.scanResult.results));
      }
      assert text[|text| - 1] == '\n';
      var whole := Content(stamp, sections);
      assert whole == Content(stamp, sections[..|sections| - 1]) + text;
      assert whole[|whole| - 1] == text[|text| - 1];
    }
  }
}
