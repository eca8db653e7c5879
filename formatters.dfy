/**
 * The result helpers shared by both reporter variants: metadata validation,
 * status derivation, the evidence section built from the screenshots and the
 * log text built from the first error.
 */
module Formatters {
  import opened JsSemantics
  import opened Wrappers

  // ---------------------------------------------------------------------------
  // Run information handed over by the test runner (the fields the helpers read)
  // ---------------------------------------------------------------------------

  /** One property of the per-test metadata object. */
  datatype Field = Field(name: string, value: Value)

  /**
   * A (non-null) metadata object: its own properties in insertion order. As in
   * a JavaScript object, the names are meant to be distinct (`DistinctNames`);
   * `Get` reads the first property of a name and `Values` lists every one.
   */
  datatype Meta = Meta(fields: seq<Field>)

  datatype Screenshot = Screenshot(screenshotPath: string)

  /** The parts of a runner error that the log header shows. */
  datatype CallsiteError = CallsiteError(userAgent: string, apiFnChain: seq<string>, filename: string, lineNum: nat)

  datatype TestRunInfo = TestRunInfo(
    skipped: bool,
    errs: seq<CallsiteError>,
    screenshots: seq<Screenshot>,
    durationMs: nat)

  /** The arguments of one `reportTestDone` call. */
  datatype TestDone = TestDone(name: string, info: TestRunInfo, meta: Meta)

  /** No two properties share a name, as in every JavaScript object. */
  predicate DistinctNames(m: Meta)
  {
    forall i, j :: 0 <= i < j < |m.fields| ==> m.fields[i].name != m.fields[j].name
  }

  /** `Object.values(meta)`. */
  function Values(m: Meta): (vs: seq<Value>)
    ensures |vs| == |m.fields|
    ensures forall i :: 0 <= i < |vs| ==> vs[i] == m.fields[i].value
  {
    seq(|m.fields|, i requires 0 <= i < |m.fields| => m.fields[i].value)
  }

  /** `meta[name]`: the value of the property called `name`, `undefined` when there is none. */
  function Get(m: Meta, name: string): Value
  {
    GetField(m.fields, name)
  }

  function GetField(fields: seq<Field>, name: string): Value
  {
    if |fields| == 0 then Undefined
    else if fields[0].name == name then fields[0].value
    else GetField(fields[1..], name)
  }

  // ---------------------------------------------------------------------------
  // jiraMetaDataIsValid
  // ---------------------------------------------------------------------------

  /** No value is `undefined` (null is fine) and there is more than one value. */
  predicate IsValid(m: Meta)
  {
    Undefined !in Values(m) && |Values(m)| > 1
  }

  /** The two-key metadata the reporter documents is valid exactly when neither key is undefined. */
  lemma JiraMetaValidIff(plan: Value, key: Value)
    ensures IsValid(Meta([Field("jiraTestPlanKey", plan), Field("jiraTestKey", key)]))
        <==> plan != Undefined && key != Undefined
  {
    var vs := Values(Meta([Field("jiraTestPlanKey", plan), Field("jiraTestKey", key)]));
    assert vs == [plan, key];
  }

  /** An empty or one-property object is never valid, whatever it holds. */
  lemma FewFieldsInvalid(m: Meta)
    requires |m.fields| <= 1
    ensures !IsValid(m)
  {
  }

  /** One undefined property anywhere disqualifies the whole object. */
  lemma UndefinedFieldInvalid(before: seq<Field>, name: string, after: seq<Field>)
    ensures !IsValid(Meta(before + [Field(name, Undefined)] + after))
  {
    var m := Meta(before + [Field(name, Undefined)] + after);
    assert Values(m)[|before|] == Undefined;
  }

  /** Adding a defined property to a valid object keeps it valid: extra fields are allowed. */
  lemma ExtraFieldKeepsValid(m: Meta, name: string, v: Value)
    requires IsValid(m) && v != Undefined
    ensures IsValid(Meta(m.fields + [Field(name, v)]))
  {
    var m' := Meta(m.fields + [Field(name, v)]);
    forall i | 0 <= i < |Values(m')|
      ensures Values(m')[i] != Undefined
    {
      if i < |m.fields| {
        assert Values(m')[i] == Values(m)[i];
      }
    }
  }

  /** Validity looks at the values only: two defined unrelated properties pass although no key is there. */
  lemma ValidWithoutJiraKeys()
    ensures var m := Meta([Field("owner", Str("qa")), Field("severity", Null)]);
      IsValid(m) && Get(m, "jiraTestKey") == Undefined && Get(m, "jiraTestPlanKey") == Undefined
  {
    var m := Meta([Field("owner", Str("qa")), Field("severity", Null)]);
    assert Values(m) == [Str("qa"), Null];
  }

  /** How many of the finished tests carry valid metadata. */
  function ValidCount(events: seq<TestDone>): nat
    decreases |events|
  {
    if |events| == 0 then 0
    else ValidCount(events[..|events| - 1]) + (if IsValid(events[|events| - 1].meta) then 1 else 0)
  }

  // ---------------------------------------------------------------------------
  // generateStatus
  // ---------------------------------------------------------------------------

  datatype Status = TODO | FAIL | PASS {
    /** The text written into the document. */
    function Name(): (s: string)
      ensures s in {"TODO", "FAIL", "PASS"}
    {
      match this
      case TODO => "TODO"
      case FAIL => "FAIL"
      case PASS => "PASS"
    }
  }

  /**
   * Skip beats fail beats pass. The source's third test (`errs.length === 0`)
   * always holds once the second fails, so no input leaves it without a status.
   */
  function GenerateStatus(info: TestRunInfo): Status
  {
    if info.skipped then TODO
    else if |info.errs| > 0 then FAIL
    else PASS
  }

  /** Each status names exactly the runs it is given to. */
  lemma StatusIff(info: TestRunInfo)
    ensures GenerateStatus(info) == TODO <==> info.skipped
    ensures GenerateStatus(info) == FAIL <==> !info.skipped && |info.errs| > 0
    ensures GenerateStatus(info) == PASS <==> !info.skipped && |info.errs| == 0
  {
  }

  /** Different statuses are written differently, so the document tells them apart. */
  lemma StatusNameInjective(a: Status, b: Status)
    requires a.Name() == b.Name()
    ensures a == b
  {
  }

  // ---------------------------------------------------------------------------
  // generateScreenshotSection
  // ---------------------------------------------------------------------------

  /** `name.replace(/\s+/g, '')`: deleting every whitespace run deletes every whitespace character. */
  function StripWhitespace(s: string): (r: string)
    ensures |r| <= |s|
    ensures forall i :: 0 <= i < |r| ==> !IsWhitespace(r[i])
  {
    if |s| == 0 then ""
    else (if IsWhitespace(s[0]) then "" else [s[0]]) + StripWhitespace(s[1..])
  }

  /** Stripping works piece by piece, so the characters that stay keep their order. */
  lemma {:induction false} StripWhitespaceAppend(a: string, b: string)
    ensures StripWhitespace(a + b) == StripWhitespace(a) + StripWhitespace(b)
    decreases |a|
  {
    if |a| > 0 {
      assert (a + b)[1..] == a[1..] + b;
      StripWhitespaceAppend(a[1..], b);
    } else {
      assert a + b == b;
    }
  }

  /** A name without whitespace is kept as it is (so stripping twice is stripping once). */
  lemma {:induction false} StripWhitespaceKeeps(s: string)
    requires forall i :: 0 <= i < |s| ==> !IsWhitespace(s[i])
    ensures StripWhitespace(s) == s
    decreases |s|
  {
    if |s| > 0 {
      StripWhitespaceKeeps(s[1..]);
    }
  }

  /** Exactly the non-whitespace characters stay: as many as the name has. */
  lemma {:induction false} StripWhitespaceCount(s: string)
    ensures |StripWhitespace(s)| == |s| - WhitespaceCount(s)
    decreases |s|
  {
    if |s| > 0 {
      StripWhitespaceCount(s[1..]);
    }
  }

  function WhitespaceCount(s: string): nat
  {
    if |s| == 0 then 0 else (if IsWhitespace(s[0]) then 1 else 0) + WhitespaceCount(s[1..])
  }

  /** The evidence file name: the test name without whitespace, then `.png`. */
  function EvidenceFileName(testName: string): (r: string)
    ensures |r| >= 4 && r[..|r| - 4] == StripWhitespace(testName) && r[|r| - 4..] == ".png"
    ensures forall i :: 0 <= i < |r| ==> !IsWhitespace(r[i])
  {
    StripWhitespace(testName) + ".png"
  }

  /** One entry of the `evidences` array. */
  datatype Evidence = Evidence(data: string, filename: string, contentType: string)

  /** The evidence of one screenshot; `readBase64` stands for `fs.readFileSync(path, 'base64')`. */
  function EvidenceOf(shot: Screenshot, testName: string, readBase64: string -> string): Evidence
  {
    Evidence(readBase64(shot.screenshotPath), EvidenceFileName(testName), "image/png")
  }

  /** One evidence per screenshot, in screenshot order. */
  function Evidences(shots: seq<Screenshot>, testName: string, readBase64: string -> string): (evs: seq<Evidence>)
    ensures |evs| == |shots|
    ensures forall k :: 0 <= k < |shots| ==> evs[k] == EvidenceOf(shots[k], testName, readBase64)
  {
    seq(|shots|, k requires 0 <= k < |shots| => EvidenceOf(shots[k], testName, readBase64))
  }

  /** The text of one evidence block. */
  function EvidenceBlock(e: Evidence): (r: string)
    ensures r != ""
  {
    "{\n          \"data\":\"" + e.data + "\",\n          \"filename\": \"" + e.filename
      + "\",\n          \"contentType\": \"" + e.contentType + "\"\n        }"
  }

  /** What goes between two blocks. */
  const EvidenceSeparator := ",\n\t\t\t\t"

  function EvidenceBlocks(evs: seq<Evidence>): (bs: seq<string>)
    ensures |bs| == |evs|
    ensures forall k :: 0 <= k < |evs| ==> bs[k] == EvidenceBlock(evs[k])
  {
    seq(|evs|, k requires 0 <= k < |evs| => EvidenceBlock(evs[k]))
  }

  /** The evidence section: the blocks in order, separated and without a trailing separator. */
  function EvidenceSection(evs: seq<Evidence>): string
  {
    Join(EvidenceBlocks(evs), EvidenceSeparator)
  }

  /** The section is empty exactly when there is no evidence. */
  lemma EvidenceSectionEmptyIff(evs: seq<Evidence>)
    ensures EvidenceSection(evs) == "" <==> |evs| == 0
  {
    JoinEmptyIff(EvidenceBlocks(evs), EvidenceSeparator);
  }

  /** The section is as long as its blocks plus one separator fewer than there are blocks. */
  lemma EvidenceSectionLength(evs: seq<Evidence>)
    requires |evs| > 0
    ensures |EvidenceSection(evs)| + |EvidenceSeparator|
         == JoinOffset(EvidenceBlocks(evs), EvidenceSeparator, |evs|)
  {
    JoinLength(EvidenceBlocks(evs), EvidenceSeparator);
  }

  /** Block k of the section is the k-th evidence's block, at its offset: screenshot order is kept. */
  lemma EvidenceSectionBlockAt(evs: seq<Evidence>, k: nat)
    requires k < |evs|
    ensures JoinOffset(EvidenceBlocks(evs), EvidenceSeparator, k) + |EvidenceBlock(evs[k])|
         <= |EvidenceSection(evs)|
    ensures EvidenceSection(evs)[JoinOffset(EvidenceBlocks(evs), EvidenceSeparator, k)..
                                 JoinOffset(EvidenceBlocks(evs), EvidenceSeparator, k) + |EvidenceBlock(evs[k])|]
         == EvidenceBlock(evs[k])
  {
    var bs := EvidenceBlocks(evs);
    assert bs[k] == EvidenceBlock(evs[k]);
    JoinPartAt(bs, EvidenceSeparator, k);
  }

  /** Every block but the last is followed by the separator. */
  lemma EvidenceSectionSeparatorAfter(evs: seq<Evidence>, k: nat)
    requires k + 1 < |evs|
    ensures JoinOffset(EvidenceBlocks(evs), EvidenceSeparator, k + 1) <= |EvidenceSection(evs)|
    ensures EvidenceSection(evs)[JoinOffset(EvidenceBlocks(evs), EvidenceSeparator, k) + |EvidenceBlock(evs[k])|..
                                 JoinOffset(EvidenceBlocks(evs), EvidenceSeparator, k + 1)]
         == EvidenceSeparator
  {
    JoinSeparatorAfter(EvidenceBlocks(evs), EvidenceSeparator, k);
  }

  /** One turn of the section loop: the next block, then a separator unless it was the last. */
  lemma SectionStep(blocks: seq<string>, sep: string, i: nat, section: string)
    requires i < |blocks|
    requires section == Join(blocks[..i], sep) + (if 0 < i < |blocks| then sep else "")
    ensures section + blocks[i] + (if i + 1 == |blocks| then "" else sep)
         == Join(blocks[..i + 1], sep) + (if 0 < i + 1 < |blocks| then sep else "")
  {
    JoinPrefixStep(blocks, sep, i);
  }

  /**
   * generateScreenshotSection: appends one block per screenshot and, while the
   * countdown of remaining screenshots has not reached zero, a separator.
   */
  method GenerateScreenshotSection(info: TestRunInfo, testName: string, readBase64: string -> string)
    returns (section: string)
    ensures section == EvidenceSection(Evidences(info.screenshots, testName, readBase64))
  {
    var shots := info.screenshots;
    ghost var blocks := EvidenceBlocks(Evidences(shots, testName, readBase64));
    if |shots| > 0 {
      var iterations := |shots|;
      section := "";
      for i := 0 to |shots|
        invariant iterations == |shots| - i
        invariant section == Join(blocks[..i], EvidenceSeparator)
                             + (if 0 < i < |shots| then EvidenceSeparator else "")
      {
        var block := EvidenceBlock(EvidenceOf(shots[i], testName, readBase64));
        assert block == blocks[i];
        SectionStep(blocks, EvidenceSeparator, i, section);
        iterations := iterations - 1;
        section := section + block + (if iterations == 0 then "" else EvidenceSeparator);
      }
      assert blocks[..|shots|] == blocks;
    } else {
      section := "";
    }
  }

  // ---------------------------------------------------------------------------
  // generateLogSection
  // ---------------------------------------------------------------------------

  /** `.replace(/\n/g, '\\n')`: every line feed becomes a backslash and an `n`. */
  function EscapeLineFeeds(s: string): (r: string)
    ensures '\n' !in r
  {
    if |s| == 0 then ""
    else (if s[0] == '\n' then "\\n" else [s[0]]) + EscapeLineFeeds(s[1..])
  }

  /** Escaping adds one character per line feed and keeps every other character. */
  lemma {:induction false} EscapeLineFeedsLength(s: string)
    ensures |EscapeLineFeeds(s)| == |s| + LineFeedCount(s)
    decreases |s|
  {
    if |s| > 0 {
      EscapeLineFeedsLength(s[1..]);
    }
  }

  /** A message without line feeds is not touched by the escaping. */
  lemma {:induction false} EscapeLineFeedsKeeps(s: string)
    requires '\n' !in s
    ensures EscapeLineFeeds(s) == s
    decreases |s|
  {
    if |s| > 0 {
      assert '\n' !in s[1..] by {
        forall i | 0 <= i < |s[1..]| ensures s[1..][i] != '\n' { assert s[1..][i] == s[i + 1]; }
      }
      EscapeLineFeedsKeeps(s[1..]);
    }
  }

  function LineFeedCount(s: string): nat
  {
    if |s| == 0 then 0 else (if s[0] == '\n' then 1 else 0) + LineFeedCount(s[1..])
  }

  /** Turns each backslash-n back into a line feed. */
  function UnescapeLineFeeds(s: string): string
  {
    if |s| == 0 then ""
    else if |s| >= 2 && s[0] == '\\' && s[1] == 'n' then "\n" + UnescapeLineFeeds(s[2..])
    else [s[0]] + UnescapeLineFeeds(s[1..])
  }

  /** On a message without backslashes the escaping loses nothing: undoing it gives the message back. */
  lemma {:induction false} EscapeLineFeedsRoundTrip(s: string)
    requires '\\' !in s
    ensures UnescapeLineFeeds(EscapeLineFeeds(s)) == s
    decreases |s|
  {
    if |s| > 0 {
      var rest := EscapeLineFeeds(s[1..]);
      assert '\\' !in s[1..] by {
        forall i | 0 <= i < |s[1..]| ensures s[1..][i] != '\\' { assert s[1..][i] == s[i + 1]; }
      }
      EscapeLineFeedsRoundTrip(s[1..]);
      if s[0] == '\n' {
        assert EscapeLineFeeds(s) == "\\n" + rest;
        assert ("\\n" + rest)[2..] == rest;
      } else {
        assert EscapeLineFeeds(s) == [s[0]] + rest;
        assert ([s[0]] + rest)[1..] == rest;
      }
    }
  }

  /** The length of the run of digits `s` starts with. */
  function DigitRun(s: string): (k: nat)
    ensures k <= |s|
    ensures forall i :: 0 <= i < k ==> IsDigit(s[i])
    ensures k < |s| ==> !IsDigit(s[k])
  {
    if |s| > 0 && IsDigit(s[0]) then 1 + DigitRun(s[1..]) else 0
  }

  /**
   * `(\d+)\s{1}` tried at the start of `s`, with `\d+` giving back digits one at
   * a time: a match of `j` digits and the whitespace after them, for the
   * largest `j <= upTo` that works.
   */
  function MatchNumberedUpTo(s: string, upTo: nat): (r: Option<nat>)
    requires upTo <= DigitRun(s)
    ensures r.Some? ==> 0 < r.value <= upTo && r.value < |s| && IsWhitespace(s[r.value])
  {
    if upTo == 0 then None
    else if upTo < |s| && IsWhitespace(s[upTo]) then Some(upTo)
    else MatchNumberedUpTo(s, upTo - 1)
  }

  function MatchNumbered(s: string): (r: Option<nat>)
    ensures r.Some? ==> 0 < r.value < |s| && IsWhitespace(s[r.value])
  {
    MatchNumberedUpTo(s, DigitRun(s))
  }

  /** Backtracking never helps: a digit is not whitespace, so only the whole run can match. */
  lemma {:induction false} MatchNumberedUpToWhole(s: string, upTo: nat)
    requires upTo <= DigitRun(s)
    ensures MatchNumberedUpTo(s, upTo) ==
      if upTo == DigitRun(s) && upTo > 0 && upTo < |s| && IsWhitespace(s[upTo])
      then Some(upTo) else None
    decreases upTo
  {
    if upTo > 0 {
      if upTo < DigitRun(s) {
        DigitIsNotWhitespace(s[upTo]);
      }
      MatchNumberedUpToWhole(s, upTo - 1);
    }
  }

  /**
   * `.replace(/(\d+)\s{1}/g, '\\n$1')`: the search goes left to right; a match
   * is replaced by backslash-n and its digits and the search resumes after it,
   * otherwise one character is copied and the search moves on by one.
   */
  function ReplaceNumbered(s: string): string
    decreases |s|
  {
    if |s| == 0 then ""
    else match MatchNumbered(s)
      case Some(j) => "\\n" + s[..j] + ReplaceNumbered(s[j + 1..])
      case None => [s[0]] + ReplaceNumbered(s[1..])
  }

  /** Reference: each maximal digit run followed by one whitespace character is moved behind a backslash-n and loses that character. */
  function NumberedRuns(s: string): string
    decreases |s|
  {
    if |s| == 0 then ""
    else if !IsDigit(s[0]) then [s[0]] + NumberedRuns(s[1..])
    else
      var k := DigitRun(s);
      if k < |s| && IsWhitespace(s[k]) then "\\n" + s[..k] + NumberedRuns(s[k + 1..])
      else s[..k] + NumberedRuns(s[k..])
  }

  /** Where nothing matches, the search copies one character and moves on. */
  lemma ReplaceNumberedCopies(s: string)
    requires |s| > 0 && MatchNumbered(s) == None
    ensures ReplaceNumbered(s) == [s[0]] + ReplaceNumbered(s[1..])
  {
  }

  /** Inside a digit run that whitespace does not follow, the search copies the first digit. */
  lemma SkipRunStep(s: string)
    requires DigitRun(s) > 0
    requires !(DigitRun(s) < |s| && IsWhitespace(s[DigitRun(s)]))
    ensures ReplaceNumbered(s) == [s[0]] + ReplaceNumbered(s[1..])
    ensures DigitRun(s[1..]) == DigitRun(s) - 1
    ensures DigitRun(s) > 1 ==> !(DigitRun(s[1..]) < |s[1..]| && IsWhitespace(s[1..][DigitRun(s[1..])]))
  {
    MatchNumberedUpToWhole(s, DigitRun(s));
    ReplaceNumberedCopies(s);
    var t := s[1..];
    if DigitRun(t) < |t| {
      assert t[DigitRun(t)] == s[DigitRun(s)];
    }
  }

  lemma FirstThenPrefix(s: string, k: nat, rest: string)
    requires 0 < k <= |s|
    ensures [s[0]] + (s[1..][..k - 1] + rest) == s[..k] + rest
  {
    assert [s[0]] + s[1..][..k - 1] == s[..k];
  }

  /** A digit run that is not followed by whitespace is copied unchanged by the search. */
  lemma {:induction false} ReplaceNumberedSkipsRun(s: string)
    requires DigitRun(s) > 0
    requires !(DigitRun(s) < |s| && IsWhitespace(s[DigitRun(s)]))
    ensures ReplaceNumbered(s) == s[..DigitRun(s)] + ReplaceNumbered(s[DigitRun(s)..])
    decreases |s|
  {
    var k := DigitRun(s);
    var t := s[1..];
    SkipRunStep(s);
    if k > 1 {
      ReplaceNumberedSkipsRun(t);
      assert t[k - 1..] == s[k..];
      FirstThenPrefix(s, k, ReplaceNumbered(s[k..]));
    } else {
      assert t == s[k..];
      assert [s[0]] == s[..k];
    }
  }

  /** The regular-expression search and the run-by-run reading agree on every string. */
  lemma {:induction false} ReplaceNumberedIsNumberedRuns(s: string)
    ensures ReplaceNumbered(s) == NumberedRuns(s)
    decreases |s|
  {
    if |s| > 0 {
      var k := DigitRun(s);
      MatchNumberedUpToWhole(s, k);
      if !IsDigit(s[0]) {
        ReplaceNumberedIsNumberedRuns(s[1..]);
      } else if k < |s| && IsWhitespace(s[k]) {
        ReplaceNumberedIsNumberedRuns(s[k + 1..]);
      } else {
        ReplaceNumberedSkipsRun(s);
        ReplaceNumberedIsNumberedRuns(s[k..]);
      }
    }
  }

  /** A message without whitespace has nothing to rewrite. */
  lemma {:induction false} NumberedRunsWithoutWhitespace(s: string)
    requires forall i :: 0 <= i < |s| ==> !IsWhitespace(s[i])
    ensures NumberedRuns(s) == s
    decreases |s|
  {
    if |s| > 0 {
      var k := DigitRun(s);
      if !IsDigit(s[0]) {
        NumberedRunsWithoutWhitespace(s[1..]);
      } else {
        NumberedRunsWithoutWhitespace(s[k..]);
        assert s[..k] + s[k..] == s;
      }
    }
  }

  /** A message without digits has nothing to rewrite. */
  lemma {:induction false} NumberedRunsWithoutDigits(s: string)
    requires forall i :: 0 <= i < |s| ==> !IsDigit(s[i])
    ensures NumberedRuns(s) == s
    decreases |s|
  {
    if |s| > 0 {
      NumberedRunsWithoutDigits(s[1..]);
    }
  }

  /** The rewrite adds no line feed: it only drops whitespace and inserts backslash-n. */
  lemma {:induction false} NumberedRunsNoLineFeed(s: string)
    requires '\n' !in s
    ensures '\n' !in NumberedRuns(s)
    decreases |s|
  {
    if |s| > 0 {
      var k := DigitRun(s);
      if !IsDigit(s[0]) {
        NumberedRunsNoLineFeed(s[1..]);
      } else if k < |s| && IsWhitespace(s[k]) {
        NumberedRunsNoLineFeed(s[k + 1..]);
      } else {
        NumberedRunsNoLineFeed(s[k..]);
      }
    }
  }

  /** The message text of the log: line feeds escaped first, then numbered runs rewritten. */
  function FormatErrorText(message: string): string
  {
    ReplaceNumbered(EscapeLineFeeds(message))
  }

  /** The log's message part contains no real line feed (quotes, backslashes and other control characters stay as they are). */
  lemma FormatErrorTextNoLineFeed(message: string)
    ensures '\n' !in FormatErrorText(message)
  {
    ReplaceNumberedIsNumberedRuns(EscapeLineFeeds(message));
    NumberedRunsNoLineFeed(EscapeLineFeeds(message));
  }

  /** A one-line message without digits reaches the log exactly as written. */
  lemma FormatErrorTextPlain(message: string)
    requires '\n' !in message
    requires forall i :: 0 <= i < |message| ==> !IsDigit(message[i])
    ensures FormatErrorText(message) == message
  {
    EscapeLineFeedsKeeps(message);
    ReplaceNumberedIsNumberedRuns(message);
    NumberedRunsWithoutDigits(message);
  }

  /** The fixed-order header built from one error. */
  function LogHeader(e: CallsiteError): string
  {
    "UserAgent: " + e.userAgent + " \\nApiFnChain " + Join(e.apiFnChain, ",")
      + " \\nFileName: " + e.filename + " \\nLineNum: " + NatToString(e.lineNum) + "\\n\\n"
  }

  /**
   * generateLogSection; `formatMessage` stands for the first error's own
   * `formatMessage`, which receives all errors of the run.
   */
  function GenerateLogSection(info: TestRunInfo, formatMessage: seq<CallsiteError> -> string): (r: string)
    ensures r == "" <==> |info.errs| == 0
    ensures |info.errs| > 0 ==> r == LogHeader(info.errs[0]) + " " + FormatErrorText(formatMessage(info.errs))
  {
    if |info.errs| > 0 then
      LogHeader(info.errs[0]) + " " + FormatErrorText(formatMessage(info.errs))
    else ""
  }

  /** Only the first error shows in the header: runs that agree on it and on the formatted message give the same log. */
  lemma LogUsesFirstErrorOnly(a: TestRunInfo, b: TestRunInfo,
                              f: seq<CallsiteError> -> string, g: seq<CallsiteError> -> string)
    requires |a.errs| > 0 && |b.errs| > 0 && a.errs[0] == b.errs[0]
    requires f(a.errs) == g(b.errs)
    ensures GenerateLogSection(a, f) == GenerateLogSection(b, g)
  {
  }
}
