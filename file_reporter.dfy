/**
 * The reporter of lib/index.js: every finished test with valid metadata has
 * its document appended to `e2e/reports/<testKey>.json` and one upload command
 * appended to `e2e/reports/uploadAllJiraReports.sh`; the script is emptied at
 * task start and made executable at task end. The file system is a map from
 * path to contents.
 */
module FileReporter {
  import opened JsSemantics
  import opened Wrappers
  import opened Formatters
  import opened XrayDocument

  const ReportDirPath := "e2e/reports"

  const UploadScriptPath := "e2e/reports/uploadAllJiraReports.sh"

  /** `${reportDirPath}/${jiraTestKey}.json` */
  function ReportPath(key: string): string
  {
    ReportDirPath + "/" + key + ".json"
  }

  /**
   * The upload command for one report file, word by word with single spaces
   * between; the credentials stay shell variables.
   */
  function CurlCommand(key: string): string
  {
    Join(["curl", "-H", "\"Content-Type:", "application/json\"", "-X", "POST", "-u",
          "$JIRA_USERNAME:$JIRA_PASSWORD", "--data", "@" + key + ".json",
          "https://atc.bmwgroup.net/jira/rest/raven/1.0/import/execution"], " ")
  }

  /** The line appended to the upload script. */
  function CurlLine(key: string): string
  {
    CurlCommand(key) + "\n"
  }

  /** The contents of a path; a missing file reads as empty, as `appendFileSync` creates it. */
  function FileText(files: map<string, string>, path: string): string
  {
    if path in files then files[path] else ""
  }

  /** `fs.appendFileSync(path, text)` */
  function AppendFile(files: map<string, string>, path: string, text: string): (r: map<string, string>)
    ensures r.Keys == files.Keys + {path}
    ensures r[path] == FileText(files, path) + text
    ensures forall p :: p in files && p != path ==> r[p] == files[p]
  {
    files[path := FileText(files, path) + text]
  }

  /** A report file is never the upload script: one ends in `.json`, the other in `.sh`. */
  lemma ReportPathIsNotScript(key: string)
    ensures ReportPath(key) != UploadScriptPath
  {
    var p := ReportPath(key);
    assert p[|p| - 1] == 'n';
    assert UploadScriptPath[|UploadScriptPath| - 1] == 'h';
  }

  /** Different keys write to different report files. */
  lemma ReportPathInjective(k1: string, k2: string)
    requires ReportPath(k1) == ReportPath(k2)
    ensures k1 == k2
  {
    var p := ReportPath(k1);
    assert |k1| == |k2|;
    assert k1 == p[12..12 + |k1|];
    assert k2 == ReportPath(k2)[12..12 + |k2|];
  }

  /** The files after `reportTaskStart`: the script truncated, every other path as it was. */
  function TaskStartFiles(files: map<string, string>): (r: map<string, string>)
    ensures r.Keys == files.Keys + {UploadScriptPath}
    ensures r[UploadScriptPath] == ""
    ensures forall p :: p in files && p != UploadScriptPath ==> r[p] == files[p]
  {
    files[UploadScriptPath := ""]
  }

  /** Both appends of a valid test: its document to its report file, its curl line to the script. */
  function AppendReport(files: map<string, string>, key: string, doc: string): (r: map<string, string>)
    ensures r.Keys == files.Keys + {ReportPath(key), UploadScriptPath}
    ensures r[ReportPath(key)] == FileText(files, ReportPath(key)) + doc
    ensures r[UploadScriptPath] == FileText(files, UploadScriptPath) + CurlLine(key)
    ensures forall p :: p in files && p != ReportPath(key) && p != UploadScriptPath ==> r[p] == files[p]
  {
    ReportPathIsNotScript(key);
    AppendFile(AppendFile(files, ReportPath(key), doc), UploadScriptPath, CurlLine(key))
  }

  /** The method's two `appendFileSync` calls, in their order, are `AppendReport`. */
  lemma AppendsAreReport(files: map<string, string>, key: string, doc: string)
    ensures AppendFile(AppendFile(files, ReportPath(key), doc), UploadScriptPath, CurlLine(key))
         == AppendReport(files, key, doc)
  {
  }

  /** The files after one `reportTestDone`, given the document it writes for each test. */
  function TestDoneFiles(files: map<string, string>, e: TestDone, doc: TestDone -> string): map<string, string>
  {
    if !IsValid(e.meta) then files else AppendReport(files, TestKey(e.meta), doc(e))
  }

  /** Invalid metadata leaves every file as it was. */
  lemma TestDoneInvalidKeepsFiles(files: map<string, string>, e: TestDone, doc: TestDone -> string)
    requires !IsValid(e.meta)
    ensures TestDoneFiles(files, e, doc) == files
  {
  }

  /**
   * Valid metadata appends exactly one document to the key's report file and
   * exactly one curl line to the script; what was there stays as a prefix.
   */
  lemma TestDoneAppends(files: map<string, string>, e: TestDone, doc: TestDone -> string)
    requires IsValid(e.meta)
    ensures var r := TestDoneFiles(files, e, doc); var key := TestKey(e.meta);
      && ReportPath(key) in r && UploadScriptPath in r
      && r[ReportPath(key)] == FileText(files, ReportPath(key)) + doc(e)
      && r[UploadScriptPath] == FileText(files, UploadScriptPath) + CurlLine(key)
  {
  }

  /** Only the key's report file and the script can change; every other path keeps its contents. */
  lemma TestDoneTouchesOnlyItsFiles(files: map<string, string>, e: TestDone, doc: TestDone -> string, p: string)
    requires p != ReportPath(TestKey(e.meta)) && p != UploadScriptPath
    ensures var r := TestDoneFiles(files, e, doc);
      (p in r <==> p in files) && (p in files ==> r[p] == files[p])
  {
  }

  /** Two valid tests with the same key leave both documents in that key's file, in call order. */
  lemma SameKeyAppendsTwice(files: map<string, string>, e1: TestDone, e2: TestDone, doc: TestDone -> string)
    requires IsValid(e1.meta) && IsValid(e2.meta) && TestKey(e1.meta) == TestKey(e2.meta)
    ensures var path := ReportPath(TestKey(e1.meta));
      var r := TestDoneFiles(TestDoneFiles(files, e1, doc), e2, doc);
      r[path] == FileText(files, path) + doc(e1) + doc(e2)
  {
    var mid := TestDoneFiles(files, e1, doc);
    TestDoneAppends(files, e1, doc);
    TestDoneAppends(mid, e2, doc);
  }

  /** The files after a sequence of `reportTestDone` calls. */
  function RunFiles(files: map<string, string>, events: seq<TestDone>, doc: TestDone -> string)
    : map<string, string>
    decreases |events|
  {
    if |events| == 0 then files
    else TestDoneFiles(RunFiles(files, events[..|events| - 1], doc), events[|events| - 1], doc)
  }

  /** The keys of the valid tests among `events`, in call order, duplicates kept. */
  function UploadedKeys(events: seq<TestDone>): seq<string>
    decreases |events|
  {
    if |events| == 0 then []
    else
      var e := events[|events| - 1];
      UploadedKeys(events[..|events| - 1]) + (if IsValid(e.meta) then [TestKey(e.meta)] else [])
  }

  /** One curl line per key, in order. */
  function UploadScript(keys: seq<string>): string
    decreases |keys|
  {
    if |keys| == 0 then "" else UploadScript(keys[..|keys| - 1]) + CurlLine(keys[|keys| - 1])
  }

  /** The documents of the valid tests among `events` whose key is `key`, in call order. */
  function ReportsFor(events: seq<TestDone>, key: string, doc: TestDone -> string): string
    decreases |events|
  {
    if |events| == 0 then ""
    else ReportsFor(events[..|events| - 1], key, doc) + ReportOf(events[|events| - 1], key, doc)
  }

  /** The curl line one call adds to the script: one for valid metadata, none otherwise. */
  function ScriptLineOf(e: TestDone): string
  {
    if IsValid(e.meta) then CurlLine(TestKey(e.meta)) else ""
  }

  lemma TestDoneScript(files: map<string, string>, e: TestDone, doc: TestDone -> string)
    ensures FileText(TestDoneFiles(files, e, doc), UploadScriptPath) == FileText(files, UploadScriptPath) + ScriptLineOf(e)
  {
  }

  lemma UploadScriptAppend(keys: seq<string>, key: string)
    ensures UploadScript(keys + [key]) == UploadScript(keys) + CurlLine(key)
  {
    var ks := keys + [key];
    assert ks[..|ks| - 1] == keys;
  }

  lemma UploadScriptStep(events: seq<TestDone>)
    requires |events| > 0
    ensures UploadScript(UploadedKeys(events))
         == UploadScript(UploadedKeys(events[..|events| - 1])) + ScriptLineOf(events[|events| - 1])
  {
    var init := events[..|events| - 1];
    var e := events[|events| - 1];
    if IsValid(e.meta) {
      assert UploadedKeys(events) == UploadedKeys(init) + [TestKey(e.meta)];
      UploadScriptAppend(UploadedKeys(init), TestKey(e.meta));
    } else {
      assert UploadedKeys(events) == UploadedKeys(init) + [];
      assert UploadedKeys(init) + [] == UploadedKeys(init);
    }
  }

  /** Over a whole run the script gains one curl line per valid test, in call order. */
  lemma {:induction false} RunScript(files: map<string, string>, events: seq<TestDone>, doc: TestDone -> string)
    ensures FileText(RunFiles(files, events, doc), UploadScriptPath)
         == FileText(files, UploadScriptPath) + UploadScript(UploadedKeys(events))
    decreases |events|
  {
    if |events| > 0 {
      var init := events[..|events| - 1];
      var e := events[|events| - 1];
      RunScript(files, init, doc);
      TestDoneScript(RunFiles(files, init, doc), e, doc);
      UploadScriptStep(events);
    }
  }

  /** What one call adds to the report file of `key`: its document if it is a valid test of that key. */
  function ReportOf(e: TestDone, key: string, doc: TestDone -> string): string
  {
    if IsValid(e.meta) && TestKey(e.meta) == key then doc(e) else ""
  }

  lemma TestDoneReportFile(files: map<string, string>, e: TestDone, key: string, doc: TestDone -> string)
    ensures FileText(TestDoneFiles(files, e, doc), ReportPath(key)) == FileText(files, ReportPath(key)) + ReportOf(e, key, doc)
  {
    ReportPathIsNotScript(key);
    if IsValid(e.meta) && TestKey(e.meta) != key && ReportPath(TestKey(e.meta)) == ReportPath(key) {
      ReportPathInjective(TestKey(e.meta), key);
    }
  }

  /** Over a whole run a key's report file gains that key's documents, in call order, none merged. */
  lemma {:induction false} RunReportFile(files: map<string, string>, events: seq<TestDone>, key: string,
                                         doc: TestDone -> string)
    ensures FileText(RunFiles(files, events, doc), ReportPath(key))
         == FileText(files, ReportPath(key)) + ReportsFor(events, key, doc)
    decreases |events|
  {
    if |events| > 0 {
      var init := events[..|events| - 1];
      var e := events[|events| - 1];
      RunReportFile(files, init, key, doc);
      TestDoneReportFile(RunFiles(files, init, doc), e, key, doc);
      var start, docs, one := FileText(files, ReportPath(key)), ReportsFor(init, key, doc), ReportOf(e, key, doc);
      assert ReportsFor(events, key, doc) == docs + one;
    }
  }

  lemma {:induction false} UploadedKeysCount(events: seq<TestDone>)
    ensures |UploadedKeys(events)| == ValidCount(events)
    decreases |events|
  {
    if |events| > 0 {
      UploadedKeysCount(events[..|events| - 1]);
    }
  }

  /** A run never deletes a file. */
  lemma {:induction false} RunKeepsPath(files: map<string, string>, events: seq<TestDone>, doc: TestDone -> string,
                                        p: string)
    requires p in files
    ensures p in RunFiles(files, events, doc)
    decreases |events|
  {
    if |events| > 0 {
      RunKeepsPath(files, events[..|events| - 1], doc, p);
    }
  }

  /**
   * After `reportTaskStart` the script holds exactly one curl line per valid
   * `reportTestDone` since then, in call order: as many lines as valid tests.
   */
  lemma TaskRunScript(files: map<string, string>, events: seq<TestDone>, doc: TestDone -> string)
    ensures var r := RunFiles(TaskStartFiles(files), events, doc);
      UploadScriptPath in r && r[UploadScriptPath] == UploadScript(UploadedKeys(events))
    ensures |UploadedKeys(events)| == ValidCount(events)
  {
    RunScript(TaskStartFiles(files), events, doc);
    RunKeepsPath(TaskStartFiles(files), events, doc, UploadScriptPath);
    UploadedKeysCount(events);
  }

  class Reporter {
    /** The file system the reporter writes to. */
    var files: map<string, string>
    /** The paths `chmod +x` has been run on. */
    var executable: set<string>
    var currentTestMeta: Option<Meta>
    var currentJiraReportPath: string
    /** Whether `reportTaskStart` has run, and the keys uploaded since. */
    ghost var started: bool
    ghost var uploads: seq<string>

    /** Once the task has started, the script is one curl line per valid test since. */
    ghost predicate Valid()
      reads this
    {
      started ==> UploadScriptPath in files && files[UploadScriptPath] == UploadScript(uploads)
    }

    constructor (initial: map<string, string>)
      ensures Valid() && !started
      ensures files == initial && executable == {}
      ensures currentTestMeta == None && currentJiraReportPath == ""
    {
      files := initial;
      executable := {};
      currentTestMeta := None;
      currentJiraReportPath := "";
      started := false;
      uploads := [];
    }

    /** reportTaskStart: `writeFileSync(script, "")`. */
    method ReportTaskStart()
      modifies this
      ensures Valid() && started && uploads == []
      ensures files == TaskStartFiles(old(files))
      ensures executable == old(executable)
      ensures currentTestMeta == old(currentTestMeta) && currentJiraReportPath == old(currentJiraReportPath)
    {
      files := files[UploadScriptPath := ""];
      started := true;
      uploads := [];
    }

    /**
     * The valid branch of reportTestDone once the document is built: remember the
     * report path, append the document to it and the curl line to the script.
     */
    method WriteReport(e: TestDone, doc: TestDone -> string, text: string)
      requires Valid() && IsValid(e.meta) && text == doc(e)
      modifies this
      ensures Valid() && started == old(started)
      ensures files == TestDoneFiles(old(files), e, doc)
      ensures uploads == old(uploads) + [TestKey(e.meta)]
      ensures currentJiraReportPath == ReportPath(TestKey(e.meta))
      ensures currentTestMeta == old(currentTestMeta) && executable == old(executable)
    {
      var key := TestKey(e.meta);
      ReportPathIsNotScript(key);
      currentJiraReportPath := ReportPath(key);
      AppendsAreReport(files, key, text);
      UploadScriptAppend(uploads, key);
      assert started ==> AppendReport(files, key, text)[UploadScriptPath] == UploadScript(uploads + [key]);
      files := AppendFile(files, currentJiraReportPath, text);
      files := AppendFile(files, UploadScriptPath, CurlLine(key));
      uploads := uploads + [key];
    }

    /** reportTestDone: for valid metadata append the document and the curl line, otherwise only warn. */
    method ReportTestDone(name: string, info: TestRunInfo, meta: Meta,
                          readBase64: string -> string, formatMessage: seq<CallsiteError> -> string)
      requires Valid()
      modifies this
      ensures Valid() && started == old(started)
      ensures files == TestDoneFiles(old(files), TestDone(name, info, meta), DocumentOf(readBase64, formatMessage))
      ensures uploads == old(uploads) + (if IsValid(meta) then [TestKey(meta)] else [])
      ensures currentTestMeta == Some(meta)
      ensures currentJiraReportPath
           == if IsValid(meta) then ReportPath(TestKey(meta)) else old(currentJiraReportPath)
      ensures executable == old(executable)
    {
      currentTestMeta := Some(meta);
      assert Valid();
      if IsValid(meta) {
        var newFileContent := GenerateDocument(meta, name, info, readBase64, formatMessage);
        WriteReport(TestDone(name, info, meta), DocumentOf(readBase64, formatMessage), newFileContent);
      }
    }

    /** reportTaskDone: `chmod +x` on the script, which fails when there is no script. */
    method ReportTaskDone() returns (ok: bool)
      requires Valid()
      modifies this
      ensures Valid()
      ensures ok == (UploadScriptPath in old(files))
      ensures executable == if ok then old(executable) + {UploadScriptPath} else old(executable)
      ensures files == old(files) && started == old(started) && uploads == old(uploads)
      ensures currentTestMeta == old(currentTestMeta) && currentJiraReportPath == old(currentJiraReportPath)
    {
      ok := UploadScriptPath in files;
      if ok {
        executable := executable + {UploadScriptPath};
      }
    }
  }
}
