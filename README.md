# Xray reporter for TestCafe, modelled in Dafny

The repository is a TestCafe reporter plugin. For every finished test whose
metadata passes validation, it fills a JSON template into an Xray
execution-import document for Jira. The document holds:

- the metadata's `jiraTestKey` and `jiraTestPlanKey`;
- a status derived from the run: `TODO`, `FAIL` or `PASS`;
- one evidence per screenshot: the image in base64, a file name made from the test name, and `image/png`;
- the duration;
- a log built from the first error.

The plugin comes in two variants:

- `src/index.ts` hands each document to an HTTP import request at once.
- `lib/index.js` appends each document to `e2e/reports/<testKey>.json` and adds one `curl` upload line to `e2e/reports/uploadAllJiraReports.sh`. It empties that script at task start and runs `chmod +x` on it at task end.

The project has six modules:

- `Wrappers` holds `Option`.
- `JsSemantics` holds the JavaScript behaviour the code relies on:
  - the text `${…}` produces for `undefined`, `null` and strings;
  - the `\d` and `\s` classes;
  - `Array.prototype.join`;
  - the decimal text of a non-negative integer.
- `Formatters` holds the four helpers both variants share: `jiraMetaDataIsValid`, `generateStatus`, `generateScreenshotSection` and `generateLogSection`.
- `XrayDocument` holds the document as a datatype and the template as its literal pieces and holes.
- `HttpReporter` models the `src/index.ts` reporter: the last metadata, plus the documents handed to the import request.
- `FileReporter` models the `lib/index.js` closure. It is a class over a file system represented as `map<string, string>`.

Two things the code does differ from what its documentation suggests. The model follows the code:

- **Validation looks only at the metadata's values.** An object with two defined properties of any names is valid. Its key then renders as `undefined`: see `Formatters.ValidWithoutJiraKeys`.
- **`null` metadata is not tolerated.** `Object.values(null)` throws, so the metadata type here is always an object.

## Model

| member | source | states |
|---|---|---|
| Formatters.JiraMetaValidIff | src/index.ts:11-20 | metadata with the two documented keys is valid exactly when neither value is `undefined` (`null` passes) |
| Formatters.FewFieldsInvalid | src/index.ts:14 | an object with zero or one property is never valid |
| Formatters.UndefinedFieldInvalid | src/index.ts:13 | one `undefined` property anywhere makes the object invalid |
| Formatters.ExtraFieldKeepsValid | src/index.ts:11-20 | adding a defined property to valid metadata keeps it valid |
| Formatters.ValidWithoutJiraKeys | lib/index.js:10-17 | two defined properties with unrelated names are valid although both Jira keys read `undefined` |
| Formatters.StatusIff | src/index.ts:22-26 | `TODO` exactly for skipped tests; `FAIL` exactly for tests that were not skipped and have errors; `PASS` exactly for tests that were not skipped and have none |
| Formatters.StatusNameInjective | lib/index.js:18-25 | the three statuses are written as three different strings |
| Formatters.StripWhitespace | src/index.ts:38 | the result is no longer than the name and holds no `\s` character |
| Formatters.StripWhitespaceAppend | src/index.ts:38 | stripping works piece by piece, so the characters that remain keep their order |
| Formatters.StripWhitespaceKeeps | src/index.ts:38 | a name without whitespace is left unchanged, so stripping is idempotent |
| Formatters.StripWhitespaceCount | src/index.ts:38 | exactly the non-whitespace characters remain |
| Formatters.EvidenceFileName | src/index.ts:38 | the file name is the stripped test name followed by `.png`, and contains no whitespace |
| Formatters.Evidences | src/index.ts:35-37 | one evidence per screenshot, in screenshot order, each with the base64 text of that screenshot's path |
| Formatters.EvidenceBlock | src/index.ts:36-40 | an evidence block is never empty |
| Formatters.EvidenceSectionEmptyIff | src/index.ts:32-45 | the section is empty exactly when there are no screenshots |
| Formatters.EvidenceSectionLength | src/index.ts:36-40 | the section's length is the sum of its blocks plus one separator fewer than there are blocks |
| Formatters.EvidenceSectionBlockAt | src/index.ts:35-40 | block k of the section is the k-th screenshot's block, in full, at its offset |
| Formatters.EvidenceSectionSeparatorAfter | src/index.ts:40 | every block except the last is followed by `,\n\t\t\t\t` |
| Formatters.GenerateScreenshotSection | src/index.ts:28-46 | the countdown loop produces exactly the blocks joined by the separator, with no trailing separator, and `''` when there are no screenshots |
| Formatters.EscapeLineFeeds | src/index.ts:54 | no line feed remains after escaping |
| Formatters.EscapeLineFeedsLength | src/index.ts:54 | escaping adds one character per line feed |
| Formatters.EscapeLineFeedsKeeps | src/index.ts:54 | a message without line feeds is unchanged |
| Formatters.EscapeLineFeedsRoundTrip | src/index.ts:54 | for a message without backslashes, turning each `\n` pair back into a line feed restores the message |
| Formatters.DigitRun | src/index.ts:55 | the length of the leading run of ASCII digits, which stops at the first character that is not a digit |
| Formatters.MatchNumberedUpTo | src/index.ts:55 | a backtracking match of `(\d+)\s{1}` always ends on a whitespace character after at least one digit |
| Formatters.MatchNumberedUpToWhole | src/index.ts:55 | backtracking never finds a shorter match: the pattern matches only the whole digit run, and only when whitespace follows it |
| Formatters.ReplaceNumberedSkipsRun | src/index.ts:55 | a digit run not followed by whitespace is copied unchanged |
| Formatters.ReplaceNumberedIsNumberedRuns | src/index.ts:55 | the global regular-expression replace equals the reference rewrite: each maximal digit run followed by whitespace becomes backslash-n plus the run, and loses that whitespace character |
| Formatters.NumberedRunsWithoutWhitespace | src/index.ts:55 | a message without whitespace is left unchanged |
| Formatters.NumberedRunsWithoutDigits | src/index.ts:55 | a message without digits is left unchanged |
| Formatters.NumberedRunsNoLineFeed | src/index.ts:55 | the rewrite introduces no line feed |
| Formatters.FormatErrorTextNoLineFeed | src/index.ts:53-55 | the formatted message never contains a real line feed |
| Formatters.FormatErrorTextPlain | src/index.ts:53-55 | a one-line message without digits reaches the log exactly as written |
| Formatters.GenerateLogSection | src/index.ts:48-61 | the log is empty exactly when there are no errors; otherwise it is the first error's header, a space, and the formatted message of all errors |
| Formatters.LogUsesFirstErrorOnly | src/index.ts:50-53 | runs that agree on the first error and on the formatted message produce the same log |
| Formatters.Status.Name | src/index.ts:22-26 | the status text is one of `TODO`, `FAIL` and `PASS` |
| JsSemantics.DigitIsNotWhitespace | src/index.ts:55 | `\d` and `\s` are disjoint |
| JsSemantics.JoinLength | src/index.ts:52 | a join's length is the sum of its parts plus one separator fewer than there are parts |
| JsSemantics.JoinPartAt | src/index.ts:52 | every part of a join appears whole and in order at its offset |
| JsSemantics.JoinSeparatorAfter | src/index.ts:52 | every part except the last is followed by the separator |
| JsSemantics.JoinEmptyIff | src/index.ts:52 | a join of non-empty parts is empty exactly when there are no parts |
| JsSemantics.NatToString | src/index.ts:164 | the decimal text is non-empty, all digits, and has no leading zero |
| JsSemantics.NatToStringRoundTrip | src/index.ts:164 | reading the decimal text back gives the duration |
| XrayDocument.BuildReportConsistent | src/index.ts:146-170 | the test and its result carry the same status; the summary is the prefix plus the test key; defined keys are copied; there is one evidence per screenshot; the log is empty exactly when there are no errors; the duration is unchanged |
| XrayDocument.PieceRendered | src/index.ts:146-170 | every literal and every hole of the template appears whole at its offset, and the next piece starts right after it |
| XrayDocument.SummaryRendered | src/index.ts:146-150 | the document opens with the `info` object and the summary at position 32 |
| XrayDocument.TestPlanKeyRendered | src/index.ts:151 | the plan key immediately follows `"testPlanKey" : "` |
| XrayDocument.TestKeyRendered | src/index.ts:152-155 | the test key immediately follows `"testKey" : "` inside the first object of the `tests` array |
| XrayDocument.TestStatusRendered | src/index.ts:156 | the test's status name immediately follows `"status" : "` |
| XrayDocument.ResultStatusRendered | src/index.ts:163 | the result's status name immediately follows `"status":"` inside `results` |
| XrayDocument.GenerateDocument | lib/index.js:77-99 | building the screenshot section first and then filling the template gives the document of that test |
| HttpReporter.Outgoing | src/index.ts:140-145 | a call hands over one document exactly when the metadata is valid, and otherwise nothing |
| HttpReporter.SentForCount | src/index.ts:138-172 | over a run, one document is sent per valid test |
| HttpReporter.SentForAppend | src/index.ts:171 | documents are sent in call order; none are dropped or merged |
| HttpReporter.SentTwice | src/index.ts:171 | a valid test reported twice is sent twice |
| HttpReporter.Reporter.constructor | src/index.ts:5 | no metadata yet, nothing sent |
| HttpReporter.Reporter.ReportTestDone | src/index.ts:133-173 | remembers the metadata and appends exactly what `Outgoing` gives for this test to the sent documents |
| FileReporter.AppendFile | lib/index.js:100 | appending creates a missing file, extends the path's contents and leaves every other path alone |
| FileReporter.ReportPathIsNotScript | lib/index.js:60 | no report file is the upload script |
| FileReporter.ReportPathInjective | lib/index.js:76 | different keys write to different report files |
| FileReporter.TaskStartFiles | lib/index.js:62-64 | the script is emptied and every other path is kept |
| FileReporter.AppendReport | lib/index.js:100-102 | the document goes to the key's report file, the curl line goes to the script, and nothing else changes |
| FileReporter.TestDoneInvalidKeepsFiles | lib/index.js:72-74 | invalid metadata leaves the file system unchanged |
| FileReporter.TestDoneAppends | lib/index.js:75-102 | valid metadata appends exactly one document to the report file and one curl line to the script; earlier contents remain as a prefix |
| FileReporter.TestDoneTouchesOnlyItsFiles | lib/index.js:100-102 | no path other than the key's report file and the script changes |
| FileReporter.SameKeyAppendsTwice | lib/index.js:100 | two valid tests with one key leave both documents in that file, in call order |
| FileReporter.RunScript | lib/index.js:101-102 | over a run, the script gains one curl line per valid test, in call order |
| FileReporter.RunReportFile | lib/index.js:76-100 | over a run, a key's report file gains that key's documents, in call order |
| FileReporter.UploadedKeysCount | lib/index.js:72-102 | one upload per valid test |
| FileReporter.RunKeepsPath | lib/index.js:100-102 | a run never deletes a file |
| FileReporter.TaskRunScript | lib/index.js:62-102 | after task start and any run, the script is exactly one curl line per valid test, as many lines as valid tests |
| FileReporter.Reporter.constructor | lib/index.js:56-60 | the closure's initial state: no metadata and an empty report path |
| FileReporter.Reporter.ReportTaskStart | lib/index.js:62-64 | truncates the script and starts the invariant linking the script to the uploads |
| FileReporter.Reporter.WriteReport | lib/index.js:76-102 | remembers the report path, performs both appends, and keeps the script equal to one curl line per upload |
| FileReporter.Reporter.ReportTestDone | lib/index.js:69-104 | the new file system follows `TestDoneFiles` with the test's document, and the metadata, the report path and the uploads follow validity |
| FileReporter.Reporter.ReportTaskDone | lib/index.js:105-107 | `chmod +x` succeeds exactly when the script exists and marks it executable; files are unchanged |

## Left out

- The HTTP functions `sendXrayResultsToJira` and `closeTestExecutionTicket` (src/index.ts:63-123) are network I/O. `HttpReporter.Reporter.sent` records the documents handed to the request instead.
- Also left out: the Jira server constant and the base64 credentials (src/index.ts:6-9), which only feed those requests. The upload script keeps the credentials as shell variables.
- `fs.readFileSync(path, 'base64')` is a function parameter, `readBase64`. Read errors are not modelled.
- Each error's `formatMessage` is a function parameter, because it belongs to the test runner.
- Console logging and warnings (src/index.ts:139-144, lib/index.js:71-73) are not modelled, because they have no effect the model could observe.
- The no-op callbacks `reportFixtureStart` and `reportTestStart` are not modelled, and neither are `reportTaskStart` and `reportTaskDone` of src/index.ts.
- The `async` scheduling of the callbacks is not modelled: calls are taken one after another, in the order the runner makes them.
- File system failures of `writeFileSync` and `appendFileSync` are not modelled.
- `chmod` is modelled by an `executable` set plus a success flag. The thrown error of `execSync` is that flag.
- `sendXrayResultsToJira` parses every document with `JSON.parse` before posting it (src/index.ts:101). That function is left out, so `HttpReporter.Reporter.sent` is the hand-off, not the request. A document that is not valid JSON makes the parse throw, and the catch at src/index.ts:117-121 only logs it, so such a document is never posted. Examples: a `"` or `\` in a key, the test name or the log, or a tab or carriage return the log keeps raw. The template itself escapes nothing, in the source and in the model.
- Paths are compared as plain strings. They are not normalised, and file-system aliasing is not modelled: `a/../b` and `b`, or `T-1` and `t-1` on a case-insensitive file system, reach one file but are different paths here. `FileReporter.ReportPathInjective` and `FileReporter.TestDoneTouchesOnlyItsFiles` are statements about path strings.
- Metadata objects whose properties share a name cannot exist in JavaScript. `Formatters.DistinctNames` states this, and nothing in the model depends on it.
- Durations and line numbers are non-negative integers. Floating-point durations are not modelled.
- Metadata values are only `undefined`, `null` or strings. Other JavaScript values are not modelled.
- The two ghost fields `started` and `uploads` of `FileReporter.Reporter` exist only to state the script invariant.
- FileReporter.TaskRunScript: the script's line count is stated structurally, not as a count of line-feed characters. `UploadScript` is one curl line per key.
- The reporter lemmas about runs are stated for any document function. The reporters themselves use `DocumentOf`, the template described in `XrayDocument`.
