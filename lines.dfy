/** The two ways the engine cuts text into lines: `str.splitlines(True)`,
    which keeps each line's terminator and knows every Unicode line
    boundary, and `str.split('\n')`, which drops the newlines. */
module Lines {

  /** The characters `str.splitlines` treats as line boundaries. */
  predicate IsLineBoundary(c: char) {
    c == '\n' || c == '\r' || c == '\U{000B}' || c == '\U{000C}'
    || c == '\U{001C}' || c == '\U{001D}' || c == '\U{001E}'
    || c == '\U{0085}' || c == '\U{2028}' || c == '\U{2029}'
  }

  /** ''.join(parts) */
  function Concat(parts: seq<string>): string {
    if parts == [] then [] else parts[0] + Concat(parts[1..])
  }

  /** sum(len(part) for part in parts) */
  function SumLens(parts: seq<string>): nat {
    if parts == [] then 0 else |parts[0]| + SumLens(parts[1..])
  }

  lemma {:induction false} SumLensIsConcatLength(parts: seq<string>)
    ensures SumLens(parts) == |Concat(parts)|
  {
    if parts != [] {
      SumLensIsConcatLength(parts[1..]);
    }
  }

  lemma {:induction false} SumLensAppend(a: seq<string>, b: seq<string>)
    ensures SumLens(a + b) == SumLens(a) + SumLens(b)
  {
    if a == [] {
      assert a + b == b;
    } else {
      assert (a + b)[1..] == a[1..] + b;
      SumLensAppend(a[1..], b);
    }
  }

  lemma {:induction false} ConcatAppend(a: seq<string>, b: seq<string>)
    ensures Concat(a + b) == Concat(a) + Concat(b)
  {
    if a == [] {
      assert a + b == b;
    } else {
      assert (a + b)[1..] == a[1..] + b;
      ConcatAppend(a[1..], b);
    }
  }

  /** Adding one more part to a prefix adds that part's length. */
  lemma SumLensPrefixStep(parts: seq<string>, k: nat)
    requires k < |parts|
    ensures SumLens(parts[..k + 1]) == SumLens(parts[..k]) + |parts[k]|
  {
    assert parts[..k + 1] == parts[..k] + [parts[k]];
    SumLensAppend(parts[..k], [parts[k]]);
  }

  /** Prefix sums of lengths never decrease. */
  lemma {:induction false} SumLensPrefixMonotone(parts: seq<string>, j: nat, k: nat)
    requires j <= k <= |parts|
    ensures SumLens(parts[..j]) <= SumLens(parts[..k])
    decreases k - j
  {
    if j < k {
      SumLensPrefixStep(parts, k - 1);
      SumLensPrefixMonotone(parts, j, k - 1);
    }
  }

  lemma SumLensAll(parts: seq<string>)
    ensures SumLens(parts[..|parts|]) == SumLens(parts)
  {
    assert parts[..|parts|] == parts;
  }

  /** The length of the first line of `s` when the scan for its terminator
      has reached index `i` without finding one. A "\r\n" pair ends a line
      as one terminator. */
  function FirstLineEnd(s: string, i: nat): (n: nat)
    requires i < |s|
    ensures i < n <= |s|
    decreases |s| - i
  {
    if IsLineBoundary(s[i]) then
      if s[i] == '\r' && i + 1 < |s| && s[i + 1] == '\n' then i + 2 else i + 1
    else if i + 1 == |s| then |s|
    else FirstLineEnd(s, i + 1)
  }

  /** A line as `splitlines(True)` produces it: not empty, and no line
      boundary inside it except at its end ("\r\n" being one terminator). */
  ghost predicate IsLine(l: string) {
    |l| > 0 &&
    forall j :: 0 <= j < |l| - 1 ==>
      !IsLineBoundary(l[j]) || (j == |l| - 2 && l[j] == '\r' && l[j + 1] == '\n')
  }

  lemma {:induction false} FirstLineEndIsLine(s: string, i: nat)
    requires i < |s|
    requires forall j :: 0 <= j < i ==> !IsLineBoundary(s[j])
    ensures IsLine(s[..FirstLineEnd(s, i)])
    ensures FirstLineEnd(s, i) < |s| ==> IsLineBoundary(s[FirstLineEnd(s, i) - 1])
    decreases |s| - i
  {
    if !IsLineBoundary(s[i]) && i + 1 < |s| {
      FirstLineEndIsLine(s, i + 1);
    }
  }

  /** s.splitlines(True) */
  function SplitLines(s: string): (lines: seq<string>)
    ensures Concat(lines) == s
    ensures |lines| == 0 <==> s == []
    decreases |s|
  {
    if s == [] then []
    else
      var n := FirstLineEnd(s, 0);
      assert s[..n] + s[n..] == s;
      [s[..n]] + SplitLines(s[n..])
  }

  /** Every piece `splitlines(True)` returns is a line, and every piece but
      the last ends with a line boundary. */
  lemma {:induction false} SplitLinesAreLines(s: string)
    ensures forall k :: 0 <= k < |SplitLines(s)| ==> IsLine(SplitLines(s)[k])
    ensures forall k :: 0 <= k < |SplitLines(s)| - 1 ==>
      |SplitLines(s)[k]| > 0 && IsLineBoundary(SplitLines(s)[k][|SplitLines(s)[k]| - 1])
    decreases |s|
  {
    if s != [] {
      var n := FirstLineEnd(s, 0);
      FirstLineEndIsLine(s, 0);
      SplitLinesAreLines(s[n..]);
      var lines := SplitLines(s);
      assert lines == [s[..n]] + SplitLines(s[n..]);
      forall k | 0 <= k < |lines| - 1
        ensures |lines[k]| > 0 && IsLineBoundary(lines[k][|lines[k]| - 1])
      {
        if k == 0 {
          assert SplitLines(s[n..]) != [];
        }
      }
    }
  }

  /** The lines of a text are never empty strings. */
  lemma SplitLinesNonEmpty(s: string)
    ensures forall k :: 0 <= k < |SplitLines(s)| ==> |SplitLines(s)[k]| > 0
  {
    SplitLinesAreLines(s);
  }

  /** The total length of the lines is the length of the text. */
  lemma SplitLinesSumLens(s: string)
    ensures SumLens(SplitLines(s)) == |s|
  {
    SumLensIsConcatLength(SplitLines(s));
  }

  /** '\n'.join(parts) */
  function JoinNewline(parts: seq<string>): string
    requires |parts| > 0
  {
    if |parts| == 1 then parts[0] else parts[0] + "\n" + JoinNewline(parts[1..])
  }

  /** The index of the first newline in `s`, which has one. */
  function FirstNewline(s: string): (i: nat)
    requires '\n' in s
    ensures i < |s| && s[i] == '\n' && '\n' !in s[..i]
  {
    if s[0] == '\n' then 0
    else
      assert '\n' in s[1..] by {
        var k :| 0 <= k < |s| && s[k] == '\n';
        assert s[1..][k - 1] == '\n';
      }
      var i := 1 + FirstNewline(s[1..]);
      assert s[..i] == [s[0]] + s[1..][..i - 1];
      i
  }

  /** s.split('\n'): the pieces between newlines, newlines dropped. */
  function SplitNewline(s: string): (parts: seq<string>)
    ensures |parts| >= 1
    ensures JoinNewline(parts) == s
    ensures forall k :: 0 <= k < |parts| ==> '\n' !in parts[k]
    decreases |s|
  {
    if '\n' !in s then [s]
    else
      var i := FirstNewline(s);
      var rest := SplitNewline(s[i + 1..]);
      assert s == s[..i] + "\n" + s[i + 1..];
      [s[..i]] + rest
  }
}
