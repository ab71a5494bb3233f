/** Paragraph segmentation of `BaseDocument` (textLSP/documents/document.py):
    a paragraph around an offset reaches left to the nearest blank-line
    boundary and right to the next one, extended until it is at least a
    minimum length. */
module Paragraphs {
  import opened Wrappers
  import opened Lsp
  import opened Lines
  import opened Coordinates
  import opened Types

  /** Index `s` follows a blank line: the (up to two) characters before it
      are newlines. True at index 0. */
  predicate AfterBlankLine(source: string, s: nat)
    requires s < |source|
  {
    (s >= 1 ==> source[s - 1] == '\n') && (s >= 2 ==> source[s - 2] == '\n')
  }

  /** Index `s` is on an empty line: it is a newline and so is the
      character before it, if any. */
  predicate OnEmptyLine(source: string, s: nat)
    requires s < |source|
  {
    source[s] == '\n' && (s >= 1 ==> source[s - 1] == '\n')
  }

  /** Where the leftward scan stops. */
  predicate StartsParagraph(source: string, s: nat)
    requires s < |source|
  {
    AfterBlankLine(source, s) || OnEmptyLine(source, s)
  }

  /** Index `e` is a newline followed by another newline, or the last
      character and a newline. */
  predicate BeforeBlankLine(source: string, e: nat)
    requires e < |source|
  {
    source[e] == '\n' && (e + 1 < |source| ==> source[e + 1] == '\n')
  }

  /** Where the inner rightward scan stops: the end of the text, a newline
      before a blank line, or anywhere at all when the paragraph's START is
      on an empty line (the test at document.py:111 reads `start_idx`). */
  predicate EndsParagraph(source: string, s: nat, e: nat)
    requires s < |source|
  {
    e >= |source| || BeforeBlankLine(source, e) || OnEmptyLine(source, s)
  }

  /** Where the paragraph ends: a scan stop at which the paragraph is long
      enough, or which is at or past the last character. */
  predicate StopsParagraph(source: string, s: nat, minLength: int, e: nat)
    requires s < |source|
  {
    EndsParagraph(source, s, e) && (e + 1 >= |source| || e - s + 1 >= minLength)
  }

  /** `p` is the paragraph around `offset`: it starts at the nearest
      paragraph start at or before `offset` and ends at the first stop at or
      after `offset`; the end may be the index just past the text. */
  ghost predicate IsParagraph(source: string, offset: nat, minLength: int, p: Interval)
    requires offset < |source|
  {
    0 <= p.start <= offset < p.start + p.length <= |source| + 1 &&
    StartsParagraph(source, p.start) &&
    (forall k :: p.start < k <= offset ==> !StartsParagraph(source, k)) &&
    StopsParagraph(source, p.start, minLength, p.start + p.length - 1) &&
    (forall k :: offset <= k < p.start + p.length - 1 ==> !StopsParagraph(source, p.start, minLength, k))
  }

  /** The characterisation leaves no choice: one interval per offset. */
  lemma ParagraphUnique(source: string, offset: nat, minLength: int, p: Interval, q: Interval)
    requires offset < |source|
    requires IsParagraph(source, offset, minLength, p) && IsParagraph(source, offset, minLength, q)
    ensures p == q
  {
  }

  /** paragraph_at_offset (document.py:85-121). The scan to the left always
      stops by index 0, where no character precedes. The asserts at lines
      94-95 are the precondition. */
  method ParagraphAtOffset(source: string, offset: nat, minLength: int) returns (p: Interval)
    requires offset < |source|
    ensures IsParagraph(source, offset, minLength, p)
    ensures p.length >= minLength || p.start + p.length >= |source|
  {
    var startIdx: int := offset;
    while startIdx >= 0 && !(AfterBlankLine(source, startIdx) || OnEmptyLine(source, startIdx))
      invariant 0 <= startIdx <= offset
      invariant forall k :: startIdx < k <= offset ==> !StartsParagraph(source, k)
    {
      startIdx := startIdx - 1;
    }
    var endIdx := offset;
    while true
      invariant offset <= endIdx <= |source|
      invariant forall k :: offset <= k < endIdx ==> !StopsParagraph(source, startIdx, minLength, k)
      decreases |source| - endIdx
    {
      while endIdx <= |source| - 1
        && !(BeforeBlankLine(source, endIdx) || OnEmptyLine(source, startIdx))
        invariant offset <= endIdx <= |source|
        invariant forall k :: offset <= k < endIdx ==> !StopsParagraph(source, startIdx, minLength, k)
        decreases |source| - endIdx
      {
        endIdx := endIdx + 1;
      }
      if endIdx < |source| - 1 && endIdx - startIdx + 1 < minLength {
        endIdx := endIdx + 1;
      } else {
        break;
      }
    }
    p := Interval(startIdx, endIdx - startIdx + 1);
  }

  /** A text that does not end in a newline has its last paragraph run one
      index past the end: in "abc" the paragraph around offset 0 is
      (0, 4). */
  lemma ParagraphMayPassEnd()
    ensures IsParagraph("abc", 0, 0, Interval(0, 4))
  {
    assert !StopsParagraph("abc", 0, 0, 0);
    assert !StopsParagraph("abc", 0, 0, 1);
    assert !StopsParagraph("abc", 0, 0, 2);
  }

  /** What every paragraph with no minimum length is, wherever it was
      found: it starts at a paragraph start, ends at a scan stop and is not
      empty. */
  ghost predicate IsWholeParagraph(source: string, p: Interval) {
    0 <= p.start < |source| && p.length >= 1 && p.start + p.length <= |source| + 1 &&
    StartsParagraph(source, p.start) && EndsParagraph(source, p.start, p.start + p.length - 1)
  }

  /** The paragraph around an offset is a whole paragraph and spans at
      least one line. */
  lemma ParagraphAtOffsetIsWhole(source: string, offset: nat, p: Interval)
    requires offset < |source| && IsParagraph(source, offset, 0, p)
    ensures IsWholeParagraph(source, p)
    ensures |SplitLines(source[p.start..Min(p.start + p.length, |source|)])| > 0
  {
    assert p.start <= offset < Min(p.start + p.length, |source|);
  }

  /** paragraphs_at_range over the raw text (document.py:129-147): from the
      range's start position, take the paragraph at that position and jump
      to the first column of the line after it, while the position is before
      the range's end. Raw offsets are never `None`, so the `continue` at
      line 137 is not reached; a position whose offset is past the text fails
      the assert at line 95. */
  method ParagraphsAtRange(source: string, range: Range) returns (r: Result<seq<Interval>>)
    ensures r.Raises? ==> r.exception == AssertionError
    ensures r.Returns? ==> forall k :: 0 <= k < |r.value| ==> IsWholeParagraph(source, r.value[k])
    ensures !PositionLess(range.start, range.end) ==> r == Returns([])
    ensures r.Returns? && r.value != [] ==> |r.value| <= range.end.line - range.start.line + 1
  {
    var lines := SplitLines(source);
    var res: seq<Interval> := [];
    var position := range.start;
    while PositionLess(position, range.end)
      invariant position.line >= range.start.line
      invariant |res| <= position.line - range.start.line
      invariant res != [] ==> |res| <= range.end.line - range.start.line + 1
      invariant forall k :: 0 <= k < |res| ==> IsWholeParagraph(source, res[k])
      invariant position != range.start ==> PositionLess(range.start, range.end)
      invariant res != [] ==> position != range.start
      decreases range.end.line - position.line + 1
    {
      var offset := OffsetAtPosition(lines, position);
      if offset >= |source| {
        return Raises(AssertionError);
      }
      var paragraph := ParagraphAtOffset(source, offset, 0);
      ParagraphAtOffsetIsWhole(source, offset, paragraph);
      res := res + [paragraph];
      var text := SplitLines(source[paragraph.start..Min(paragraph.start + paragraph.length, |source|)]);
      position := Position(position.line + |text|, 0);
    }
    return Returns(res);
  }
}
