/**
 * The reporter of src/index.ts: each finished test with valid metadata gets
 * its document generated and handed to the import request at once; the other
 * callbacks do nothing. The request itself is outside the model: `sent`
 * records the documents handed to it, in call order.
 */
module HttpReporter {
  import opened Wrappers
  import opened Formatters
  import opened XrayDocument

  /** What one `reportTestDone` hands to the import request: the document, or nothing for invalid metadata. */
  function Outgoing(e: TestDone, doc: TestDone -> string): (out: seq<string>)
    ensures |out| <= 1
    ensures |out| == 1 <==> IsValid(e.meta)
    ensures |out| == 1 ==> out[0] == doc(e)
  {
    if IsValid(e.meta) then [doc(e)] else []
  }

  /** What a sequence of `reportTestDone` calls hands over, in call order. */
  function SentFor(events: seq<TestDone>, doc: TestDone -> string): seq<string>
    decreases |events|
  {
    if |events| == 0 then [] else SentFor(events[..|events| - 1], doc) + Outgoing(events[|events| - 1], doc)
  }

  /** One document per valid test, none for the others. */
  lemma {:induction false} SentForCount(events: seq<TestDone>, doc: TestDone -> string)
    ensures |SentFor(events, doc)| == ValidCount(events)
    decreases |events|
  {
    if |events| > 0 {
      SentForCount(events[..|events| - 1], doc);
    }
  }

  /** Later tests are sent after earlier ones: nothing is reordered, merged or dropped. */
  lemma {:induction false} SentForAppend(a: seq<TestDone>, b: seq<TestDone>, doc: TestDone -> string)
    ensures SentFor(a + b, doc) == SentFor(a, doc) + SentFor(b, doc)
    decreases |b|
  {
    if |b| == 0 {
      assert a + b == a;
    } else {
      var n := |b|;
      assert (a + b)[..|a + b| - 1] == a + b[..n - 1];
      assert (a + b)[|a + b| - 1] == b[n - 1];
      SentForAppend(a, b[..n - 1], doc);
    }
  }

  /** The same valid test reported twice is sent twice. */
  lemma SentTwice(e: TestDone, doc: TestDone -> string)
    requires IsValid(e.meta)
    ensures SentFor([e, e], doc) == [doc(e), doc(e)]
  {
    assert [e][..0] == [];
    assert SentFor([e], doc) == Outgoing(e, doc);
    assert [e, e] == [e] + [e];
    SentForAppend([e], [e], doc);
  }

  class Reporter {
    /** The metadata of the last finished test (`null` before the first). */
    var currentTestMeta: Option<Meta>
    /** The documents handed to the import request so far. */
    var sent: seq<string>

    constructor ()
      ensures currentTestMeta == None && sent == []
    {
      currentTestMeta := None;
      sent := [];
    }

    /** reportTestDone: remember the metadata; send the document only when it is valid. */
    method ReportTestDone(name: string, info: TestRunInfo, meta: Meta,
                          readBase64: string -> string, formatMessage: seq<CallsiteError> -> string)
      modifies this
      ensures currentTestMeta == Some(meta)
      ensures sent == old(sent) + Outgoing(TestDone(name, info, meta), DocumentOf(readBase64, formatMessage))
    {
      currentTestMeta := Some(meta);
      if IsValid(meta) {
        var xrayResults := GenerateDocument(meta, name, info, readBase64, formatMessage);
        sent := sent + [xrayResults];
      }
    }
  }
}
