/** Conversion between linear offsets and (line, character) positions over
    the lines of a document, as `BaseDocument` does it
    (textLSP/documents/document.py). The lines are those of
    `splitlines(True)`, so each keeps its terminator and counts it in its
    length. The protocol's UTF-16 column conversion is taken to be the
    identity on code points. */
module Coordinates {
  import opened Wrappers
  import opened Lsp
  import opened Lines

  function Min(a: int, b: int): int { if a < b then a else b }

  /** `p` is where `offset` falls: on line `p.line`, `p.character`
      characters after the start of that line, and inside it. */
  ghost predicate Locates(lines: seq<string>, offset: int, p: Position) {
    p.line < |lines| && p.character < |lines[p.line]| &&
    SumLens(lines[..p.line]) + p.character == offset
  }

  /** At most one position locates an offset. */
  lemma LocatesUnique(lines: seq<string>, offset: int, p: Position, q: Position)
    requires Locates(lines, offset, p) && Locates(lines, offset, q)
    ensures p == q
  {
    if p.line < q.line {
      SumLensPrefixStep(lines, p.line);
      SumLensPrefixMonotone(lines, p.line + 1, q.line);
    } else if q.line < p.line {
      SumLensPrefixStep(lines, q.line);
      SumLensPrefixMonotone(lines, q.line + 1, p.line);
    }
  }

  /** The value `position_at_offset` computes: the first line whose end lies
      beyond `offset`, and the distance from that line's start. */
  function PositionOf(lines: seq<string>, offset: nat): Option<Position>
    decreases |lines|
  {
    if lines == [] then None
    else if |lines[0]| > offset then Some(Position(0, offset))
    else
      match PositionOf(lines[1..], offset - |lines[0]|)
      case None => None
      case Some(p) => Some(Position(p.line + 1, p.character))
  }

  /** `PositionOf` finds a position exactly for the offsets inside the text,
      and the position it finds is the one that locates the offset. */
  lemma {:induction false} PositionOfLocates(lines: seq<string>, offset: nat)
    ensures PositionOf(lines, offset).Some? <==> offset < SumLens(lines)
    ensures PositionOf(lines, offset).Some? ==> Locates(lines, offset, PositionOf(lines, offset).value)
    decreases |lines|
  {
    if lines != [] && |lines[0]| <= offset {
      PositionOfLocates(lines[1..], offset - |lines[0]|);
      match PositionOf(lines[1..], offset - |lines[0]|)
      case None =>
      case Some(p) =>
        assert lines[..p.line + 1] == [lines[0]] + lines[1..][..p.line];
        assert lines[..p.line + 1][1..] == lines[1..][..p.line];
    }
  }

  /** position_at_offset (document.py:39-49): scan the lines accumulating
      their lengths until the one that reaches past `offset`; `None` when
      the offset is at or beyond the end of the text. */
  method PositionAtOffset(lines: seq<string>, offset: nat) returns (r: Option<Position>)
    ensures r.Some? <==> offset < SumLens(lines)
    ensures r.Some? ==> Locates(lines, offset, r.value)
    ensures r == PositionOf(lines, offset)
  {
    var pos := 0;
    var lidx := 0;
    while lidx < |lines|
      invariant 0 <= lidx <= |lines|
      invariant pos == SumLens(lines[..lidx])
      invariant pos <= offset
    {
      var lineLen := |lines[lidx]|;
      if pos + lineLen > offset {
        r := Some(Position(lidx, offset - pos));
        SumLensPrefixStep(lines, lidx);
        SumLensPrefixMonotone(lines, lidx + 1, |lines|);
        SumLensAll(lines);
        PositionOfLocates(lines, offset);
        LocatesUnique(lines, offset, r.value, PositionOf(lines, offset).value);
        return;
      }
      SumLensPrefixStep(lines, lidx);
      pos := pos + lineLen;
      lidx := lidx + 1;
    }
    SumLensAll(lines);
    PositionOfLocates(lines, offset);
    r := None;
  }

  /** offset_at_position (document.py:78-83): the position's character plus
      the lengths of all lines before its line (`lines[:row]` stops at the
      last line). */
  function OffsetAtPosition(lines: seq<string>, p: Position): (r: nat)
    ensures r >= p.character
    ensures p.line < |lines| && p.character < |lines[p.line]| ==> Locates(lines, r, p)
  {
    p.character + SumLens(lines[..Min(p.line, |lines|)])
  }

  /** Round trip one way: every offset inside the text comes back from the
      position it is converted to. */
  lemma OffsetOfPositionOf(lines: seq<string>, offset: nat)
    requires offset < SumLens(lines)
    ensures PositionOf(lines, offset).Some?
    ensures OffsetAtPosition(lines, PositionOf(lines, offset).value) == offset
  {
    PositionOfLocates(lines, offset);
  }

  /** Round trip the other way: every position on a character of the text
      comes back from the offset it is converted to. */
  lemma PositionOfOffsetOf(lines: seq<string>, p: Position)
    requires p.line < |lines| && p.character < |lines[p.line]|
    ensures PositionOf(lines, OffsetAtPosition(lines, p)) == Some(p)
  {
    var o := OffsetAtPosition(lines, p);
    SumLensPrefixStep(lines, p.line);
    SumLensPrefixMonotone(lines, p.line + 1, |lines|);
    SumLensAll(lines);
    PositionOfLocates(lines, o);
    LocatesUnique(lines, o, p, PositionOf(lines, o).value);
  }

  /** last_position (document.py:149-154): the position of the last character
      of the text. An empty text has no lines, and indexing `lines[-1]`
      raises; a last line of length zero would give a negative character,
      which the protocol's position check rejects. */
  function LastPosition(lines: seq<string>): (r: Result<Position>)
    ensures r == Raises(IndexError) <==> lines == []
    ensures r == Raises(ValueError) <==> lines != [] && lines[|lines| - 1] == []
    ensures r.Returns? ==> Locates(lines, SumLens(lines) - 1, r.value)
  {
    if lines == [] then Raises(IndexError)
    else if |lines[|lines| - 1]| == 0 then Raises(ValueError)
    else
      var r := Position(|lines| - 1, |lines[|lines| - 1]| - 1);
      SumLensPrefixStep(lines, |lines| - 1);
      SumLensAll(lines);
      Returns(r)
  }

  /** range_at_offset (document.py:51-76): the start is the position of
      `offset`; the end is found by walking the lines from the start line,
      `length` characters further, and falls back to the last position
      when the text ends first. */
  method RangeAtOffset(lines: seq<string>, offset: nat, length: nat) returns (r: Option<Range>)
    requires |lines| > 0 ==> |lines[|lines| - 1]| > 0
    ensures r.None? <==> offset >= SumLens(lines)
    ensures r.Some? ==> Some(r.value.start) == PositionOf(lines, offset)
    ensures r.Some? && offset + length < SumLens(lines) ==>
      Some(r.value.end) == PositionOf(lines, offset + length)
    ensures r.Some? && offset + length >= SumLens(lines) ==>
      LastPosition(lines).Returns? && r.value.end == LastPosition(lines).value
  {
    var start := PositionAtOffset(lines, offset);
    if start.None? {
      return None;
    }
    var s := start.value;
    var len := s.character + length;
    var lidx := s.line;
    SumLensPrefixMonotone(lines, s.line, |lines|);
    SumLensAll(lines);
    while lidx < |lines|
      invariant s.line <= lidx <= |lines|
      invariant len + SumLens(lines[..lidx]) == offset + length
      invariant len >= 0
    {
      var lineLen := |lines[lidx]|;
      SumLensPrefixStep(lines, lidx);
      if lineLen > len {
        var e := Position(lidx, len);
        r := Some(Range(s, e));
        assert Locates(lines, offset + length, e);
        SumLensPrefixMonotone(lines, lidx + 1, |lines|);
        PositionOfLocates(lines, offset + length);
        LocatesUnique(lines, offset + length, e, PositionOf(lines, offset + length).value);
        return;
      }
      len := len - lineLen;
      lidx := lidx + 1;
    }
    r := Some(Range(s, LastPosition(lines).value));
  }
}
