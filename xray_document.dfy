/**
 * The Xray execution-import document both reporter variants generate for one
 * finished test: its structure, how it is filled from the metadata and the
 * run information, and the JSON text of the template.
 */
module XrayDocument {
  import opened JsSemantics
  import opened Formatters

  datatype XrayInfo = XrayInfo(summary: string, testPlanKey: string)

  datatype XrayResult = XrayResult(name: string, status: Status, duration: nat, log: string)

  datatype XrayTest = XrayTest(testKey: string, status: Status, evidences: seq<Evidence>, result: XrayResult)

  /** The template describes exactly one test with exactly one result. */
  datatype XrayReport = XrayReport(info: XrayInfo, test: XrayTest)

  const SummaryPrefix := "Execution of automated tests for "

  const ResultName := "TestSuite TestCafe Test"

  /** `${meta.jiraTestKey}` */
  function TestKey(meta: Meta): string
  {
    TemplateText(Get(meta, "jiraTestKey"))
  }

  /** `${meta.jiraTestPlanKey}` */
  function TestPlanKey(meta: Meta): string
  {
    TemplateText(Get(meta, "jiraTestPlanKey"))
  }

  /** What the template is filled with; `generateStatus` is called once per status field. */
  function BuildReport(meta: Meta, testName: string, info: TestRunInfo,
                       readBase64: string -> string, formatMessage: seq<CallsiteError> -> string): XrayReport
  {
    XrayReport(
      XrayInfo(SummaryPrefix + TestKey(meta), TestPlanKey(meta)),
      XrayTest(
        TestKey(meta),
        GenerateStatus(info),
        Evidences(info.screenshots, testName, readBase64),
        XrayResult(ResultName, GenerateStatus(info), info.durationMs, GenerateLogSection(info, formatMessage))))
  }

  /**
   * The report agrees with itself and with its inputs: one status at test and
   * result level, the test key in summary and testKey, the plan key in
   * testPlanKey, one evidence per screenshot and the log of the first error.
   */
  lemma BuildReportConsistent(meta: Meta, testName: string, info: TestRunInfo,
                              readBase64: string -> string, formatMessage: seq<CallsiteError> -> string)
    ensures var r := BuildReport(meta, testName, info, readBase64, formatMessage);
      && r.test.status == r.test.result.status == GenerateStatus(info)
      && r.info.summary == SummaryPrefix + r.test.testKey
      && (Get(meta, "jiraTestKey").Str? ==> r.test.testKey == Get(meta, "jiraTestKey").s)
      && (Get(meta, "jiraTestPlanKey").Str? ==> r.info.testPlanKey == Get(meta, "jiraTestPlanKey").s)
      && |r.test.evidences| == |info.screenshots|
      && (r.test.result.log == "" <==> |info.errs| == 0)
      && r.test.result.duration == info.durationMs
  {
  }

  /**
   * The template as its literal pieces and the holes between them, in order;
   * holes sit at the odd positions: summary 1, testPlanKey 3, testKey 5,
   * status 7, evidence section 9, result name 11, result status 13,
   * duration 15, log 17.
   */
  function TemplatePieces(r: XrayReport, evidenceSection: string): (ps: seq<string>)
    ensures |ps| == 19
  {
    [ "{\n  \"info\" : {\n    \"summary\" : \"",
      r.info.summary,
      "\",\n    \"testPlanKey\" : \"",
      r.info.testPlanKey,
      "\"\n  },\n  \"tests\" : [\n    {\n      \"testKey\" : \"",
      r.test.testKey,
      "\",\n      \"status\" : \"",
      r.test.status.Name(),
      "\",\n      \"evidences\" : [\n        ",
      evidenceSection,
      "\n      ],\n      \"results\":[\n        {\n          \"name\":\"",
      r.test.result.name,
      "\",\n          \"status\":\"",
      r.test.result.status.Name(),
      "\",\n          \"duration\":",
      NatToString(r.test.result.duration),
      ",\n          \"log\":\"",
      r.test.result.log,
      "\"\n        }\n      ]\n    }\n  ]\n}" ]
  }

  /** The JSON text of the template, with the evidence section given as text. */
  function Fill(r: XrayReport, evidenceSection: string): string
  {
    Join(TemplatePieces(r, evidenceSection), "")
  }

  function Render(r: XrayReport): string
  {
    Fill(r, EvidenceSection(r.test.evidences))
  }

  /** The document generated for one finished test. */
  function Document(meta: Meta, testName: string, info: TestRunInfo,
                    readBase64: string -> string, formatMessage: seq<CallsiteError> -> string): string
  {
    Render(BuildReport(meta, testName, info, readBase64, formatMessage))
  }

  /**
   * The document of one finished test as a function of the test. What the
   * reporters do with documents is stated for any such function; they use this one.
   */
  function DocumentOf(readBase64: string -> string, formatMessage: seq<CallsiteError> -> string)
    : TestDone -> string
  {
    (e: TestDone) => Document(e.meta, e.name, e.info, readBase64, formatMessage)
  }

  /** What `reportTestDone` does to build its document: the screenshot section first, then the template. */
  method GenerateDocument(meta: Meta, testName: string, info: TestRunInfo,
                          readBase64: string -> string, formatMessage: seq<CallsiteError> -> string)
    returns (doc: string)
    ensures doc == DocumentOf(readBase64, formatMessage)(TestDone(testName, info, meta))
  {
    var section := GenerateScreenshotSection(info, testName, readBase64);
    doc := Fill(BuildReport(meta, testName, info, readBase64, formatMessage), section);
  }

  predicate ContainsAt(text: string, part: string, at: nat)
  {
    at + |part| <= |text| && text[at..at + |part|] == part
  }

  /** Where piece k of the template starts in the text. */
  function PieceOffset(r: XrayReport, evidenceSection: string, k: nat): nat
    requires k <= 19
  {
    JoinOffset(TemplatePieces(r, evidenceSection), "", k)
  }

  /** Every piece of the template, literal or hole, appears whole at its offset. */
  lemma PieceRendered(r: XrayReport, evidenceSection: string, k: nat)
    requires k < 19
    ensures var ps := TemplatePieces(r, evidenceSection);
      && ContainsAt(Fill(r, evidenceSection), ps[k], PieceOffset(r, evidenceSection, k))
      && PieceOffset(r, evidenceSection, k + 1) == PieceOffset(r, evidenceSection, k) + |ps[k]|
  {
    JoinPartAt(TemplatePieces(r, evidenceSection), "", k);
  }

  /** The test-level status field of the text carries the test's status. */
  lemma TestStatusRendered(r: XrayReport, sec: string)
    ensures && ContainsAt(Fill(r, sec), "\",\n      \"status\" : \"", PieceOffset(r, sec, 6))
            && PieceOffset(r, sec, 7) == PieceOffset(r, sec, 6) + 21
            && ContainsAt(Fill(r, sec), r.test.status.Name(), PieceOffset(r, sec, 7))
  {
    var ps := TemplatePieces(r, sec);
    var lit := "\",\n      \"status\" : \"";
    assert ps[6] == lit && |lit| == 21;
    PieceRendered(r, sec, 6);
    PieceRendered(r, sec, 7);
  }

  /** The result-level status field of the text carries the result's status. */
  lemma ResultStatusRendered(r: XrayReport, sec: string)
    ensures && ContainsAt(Fill(r, sec), "\",\n          \"status\":\"", PieceOffset(r, sec, 12))
            && PieceOffset(r, sec, 13) == PieceOffset(r, sec, 12) + 23
            && ContainsAt(Fill(r, sec), r.test.result.status.Name(), PieceOffset(r, sec, 13))
  {
    var ps := TemplatePieces(r, sec);
    var lit := "\",\n          \"status\":\"";
    assert ps[12] == lit && |lit| == 23;
    PieceRendered(r, sec, 12);
    PieceRendered(r, sec, 13);
  }

  /** The summary opens the document's info object. */
  lemma SummaryRendered(r: XrayReport, sec: string)
    ensures ContainsAt(Fill(r, sec), "{\n  \"info\" : {\n    \"summary\" : \"", 0)
    ensures ContainsAt(Fill(r, sec), r.info.summary, 32)
  {
    var ps := TemplatePieces(r, sec);
    PieceRendered(r, sec, 0);
    PieceRendered(r, sec, 1);
    assert ps[0] == "{\n  \"info\" : {\n    \"summary\" : \"";
  }

  /** The test key follows `"testKey" : "`, in the first and only test of the tests array. */
  lemma TestKeyRendered(r: XrayReport, sec: string)
    ensures && ContainsAt(Fill(r, sec), "\"\n  },\n  \"tests\" : [\n    {\n      \"testKey\" : \"", PieceOffset(r, sec, 4))
            && PieceOffset(r, sec, 5) == PieceOffset(r, sec, 4) + 46
            && ContainsAt(Fill(r, sec), r.test.testKey, PieceOffset(r, sec, 5))
  {
    var ps := TemplatePieces(r, sec);
    var lit := "\"\n  },\n  \"tests\" : [\n    {\n      \"testKey\" : \"";
    assert ps[4] == lit && |lit| == 46;
    PieceRendered(r, sec, 4);
    PieceRendered(r, sec, 5);
  }

  /** The plan key follows `"testPlanKey" : "`. */
  lemma TestPlanKeyRendered(r: XrayReport, sec: string)
    ensures && ContainsAt(Fill(r, sec), "\",\n    \"testPlanKey\" : \"", PieceOffset(r, sec, 2))
            && ContainsAt(Fill(r, sec), r.info.testPlanKey, PieceOffset(r, sec, 3))
  {
    var ps := TemplatePieces(r, sec);
    PieceRendered(r, sec, 2);
    PieceRendered(r, sec, 3);
    assert ps[2] == "\",\n    \"testPlanKey\" : \"";
  }
}
