/**
 * The pieces of JavaScript semantics the reporter leans on: how a template
 * literal turns an interpolated value into text, the `\d` and `\s` classes of
 * its regular expressions, `Array.prototype.join`, and the decimal text of a
 * non-negative integer number.
 */
module JsSemantics {

  /** A metadata value as the test runner hands it over. */
  datatype Value = Undefined | Null | Str(s: string)

  /** The text `${v}` produces inside a template literal. */
  function TemplateText(v: Value): string
  {
    match v
    case Undefined => "undefined"
    case Null => "null"
    case Str(s) => s
  }

  /** The `\d` class: ASCII digits only. */
  predicate IsDigit(c: char)
  {
    '0' <= c <= '9'
  }

  /** The `\s` class: the WhiteSpace and LineTerminator code points of ECMAScript. */
  predicate IsWhitespace(c: char)
  {
    || c == '\t' || c == '\n' || c == '\U{000B}' || c == '\U{000C}' || c == '\r' || c == ' '
    || c == '\U{00A0}' || c == '\U{1680}' || ('\U{2000}' <= c <= '\U{200A}')
    || c == '\U{2028}' || c == '\U{2029}' || c == '\U{202F}' || c == '\U{205F}'
    || c == '\U{3000}' || c == '\U{FEFF}'
  }

  lemma DigitIsNotWhitespace(c: char)
    requires IsDigit(c)
    ensures !IsWhitespace(c)
  {
  }

  /** `parts.join(sep)`: the parts in order with one separator between neighbours. */
  function Join(parts: seq<string>, sep: string): string
    decreases |parts|
  {
    if |parts| == 0 then ""
    else if |parts| == 1 then parts[0]
    else Join(parts[..|parts| - 1], sep) + sep + parts[|parts| - 1]
  }

  /** Where the k-th part starts in `Join(parts, sep)`: every earlier part and its separator. */
  function JoinOffset(parts: seq<string>, sep: string, k: nat): nat
    requires k <= |parts|
    decreases k
  {
    if k == 0 then 0 else JoinOffset(parts, sep, k - 1) + |parts[k - 1]| + |sep|
  }

  lemma {:induction false} JoinOffsetPrefix(parts: seq<string>, sep: string, n: nat, k: nat)
    requires k <= n <= |parts|
    ensures JoinOffset(parts[..n], sep, k) == JoinOffset(parts, sep, k)
    decreases k
  {
    if k > 0 {
      JoinOffsetPrefix(parts, sep, n, k - 1);
      assert parts[..n][k - 1] == parts[k - 1];
    }
  }

  /** A join is as long as all its parts plus one separator fewer than there are parts. */
  lemma {:induction false} JoinLength(parts: seq<string>, sep: string)
    requires |parts| > 0
    ensures |Join(parts, sep)| + |sep| == JoinOffset(parts, sep, |parts|)
    decreases |parts|
  {
    var n := |parts|;
    if n > 1 {
      JoinLength(parts[..n - 1], sep);
      JoinOffsetPrefix(parts, sep, n - 1, n - 1);
    }
  }

  /** Part k of a join sits at its offset: parts are kept whole and in order. */
  lemma {:induction false} JoinPartAt(parts: seq<string>, sep: string, k: nat)
    requires k < |parts|
    ensures JoinOffset(parts, sep, k) + |parts[k]| <= |Join(parts, sep)|
    ensures Join(parts, sep)[JoinOffset(parts, sep, k)..JoinOffset(parts, sep, k) + |parts[k]|] == parts[k]
    decreases |parts|
  {
    var n := |parts|;
    if n == 1 {
      assert k == 0;
    } else {
      var init := parts[..n - 1];
      var j := Join(init, sep);
      assert Join(parts, sep) == j + sep + parts[n - 1];
      JoinLength(init, sep);
      JoinOffsetPrefix(parts, sep, n - 1, n - 1);
      if k < n - 1 {
        JoinPartAt(init, sep, k);
        JoinOffsetPrefix(parts, sep, n - 1, k);
        assert init[k] == parts[k];
        var o := JoinOffset(parts, sep, k);
        assert (j + sep + parts[n - 1])[o..o + |parts[k]|] == j[o..o + |parts[k]|];
      } else {
        assert (j + sep + parts[n - 1])[|j| + |sep|..] == parts[n - 1];
      }
    }
  }

  /** A separator follows every part except the last. */
  lemma {:induction false} JoinSeparatorAfter(parts: seq<string>, sep: string, k: nat)
    requires k + 1 < |parts|
    ensures JoinOffset(parts, sep, k + 1) <= |Join(parts, sep)|
    ensures Join(parts, sep)[JoinOffset(parts, sep, k) + |parts[k]|..JoinOffset(parts, sep, k + 1)] == sep
    decreases |parts|
  {
    var n := |parts|;
    var init := parts[..n - 1];
    var j := Join(init, sep);
    assert Join(parts, sep) == j + sep + parts[n - 1];
    JoinLength(init, sep);
    JoinOffsetPrefix(parts, sep, n - 1, n - 1);
    JoinOffsetPrefix(parts, sep, n - 1, k + 1);
    JoinOffsetPrefix(parts, sep, n - 1, k);
    assert init[k] == parts[k];
    var o := JoinOffset(parts, sep, k) + |parts[k]|;
    if k + 1 < n - 1 {
      JoinSeparatorAfter(init, sep, k);
      assert (j + sep + parts[n - 1])[o..o + |sep|] == j[o..o + |sep|];
    } else {
      assert o == |j|;
      assert (j + sep + parts[n - 1])[|j|..|j| + |sep|] == sep;
    }
  }

  /** Joining one more part of a prefix adds a separator and that part (nothing before the first). */
  lemma JoinPrefixStep(parts: seq<string>, sep: string, k: nat)
    requires k < |parts|
    ensures Join(parts[..k + 1], sep) == if k == 0 then parts[0] else Join(parts[..k], sep) + sep + parts[k]
  {
    assert parts[..k + 1][..k] == parts[..k];
  }

  /** A join is empty exactly when there is nothing to join, as long as no part is empty. */
  lemma {:induction false} JoinEmptyIff(parts: seq<string>, sep: string)
    requires forall i :: 0 <= i < |parts| ==> parts[i] != ""
    ensures Join(parts, sep) == "" <==> |parts| == 0
  {
    if |parts| > 0 {
      JoinPartAt(parts, sep, |parts| - 1);
    }
  }

  /** The digit character of a value below ten. */
  function DigitChar(d: nat): (c: char)
    requires d < 10
    ensures IsDigit(c)
  {
    (48 + d) as char
  }

  /** `${n}` for a non-negative integer number: its decimal digits, no leading zero. */
  function NatToString(n: nat): (r: string)
    ensures |r| > 0 && forall i :: 0 <= i < |r| ==> IsDigit(r[i])
    ensures |r| > 1 ==> r[0] != '0'
    decreases n
  {
    if n < 10 then [DigitChar(n)] else NatToString(n / 10) + [DigitChar(n % 10)]
  }

  function DigitValue(c: char): nat
    requires IsDigit(c)
  {
    c as int - '0' as int
  }

  /** The value of a string of decimal digits, the inverse of NatToString. */
  function DecimalValue(s: string): nat
    requires forall i :: 0 <= i < |s| ==> IsDigit(s[i])
  {
    if |s| == 0 then 0
    else DecimalValue(s[..|s| - 1]) * 10 + DigitValue(s[|s| - 1])
  }

  lemma {:induction false} NatToStringRoundTrip(n: nat)
    ensures DecimalValue(NatToString(n)) == n
    decreases n
  {
    if n >= 10 {
      NatToStringRoundTrip(n / 10);
      var r := NatToString(n);
      assert r[..|r| - 1] == NatToString(n / 10);
    }
  }
}
