/** The cleaning pipeline of `TreeSitterDocument` and the conversions it
    serves in "cleaned" mode (textLSP/documents/document.py:157-381), for the
    LaTeX document, and the file-type map of `DocumentTypeFactory`. The
    cleaned text is the concatenation of the fragments the emitter yields;
    an interval index records, per fragment, its offsets in the cleaned text
    and its span in the source, and every cleaned-mode conversion goes
    through that index. */
module Documents {
  import opened Wrappers
  import opened Lsp
  import opened Lines
  import opened Coordinates
  import opened Types
  import opened TextNodes
  import opened Latex
  import opened Paragraphs
  import opened Bisect

  function Texts(nodes: seq<TextNode>): (r: seq<string>)
    ensures |r| == |nodes| && forall k :: 0 <= k < |nodes| ==> r[k] == nodes[k].text
  {
    seq(|nodes|, k requires 0 <= k < |nodes| => nodes[k].text)
  }

  /** Entry `k` of the columns records fragment `k`: its offsets follow the
      lengths of the fragments before it, its span is the fragment's, its
      payload the fragment's text. */
  ghost predicate FragmentAt(offsetStart: seq<int>, offsetEnd: seq<int>,
    startLine: seq<nat>, startCharacter: seq<nat>, endLine: seq<nat>, endCharacter: seq<int>,
    values: seq<string>, nodes: seq<TextNode>, k: nat)
  {
    k < |nodes| && k < |offsetStart| && k < |offsetEnd| && k < |startLine| && k < |startCharacter| &&
    k < |endLine| && k < |endCharacter| && k < |values| &&
    offsetStart[k] == SumLens(Texts(nodes)[..k]) &&
    offsetEnd[k] == SumLens(Texts(nodes)[..k]) + |nodes[k].text| - 1 &&
    startLine[k] == nodes[k].start.row && startCharacter[k] == nodes[k].start.column &&
    endLine[k] == nodes[k].end.row && endCharacter[k] == nodes[k].end.column - 1 &&
    values[k] == nodes[k].text
  }

  ghost predicate RecordsFragment(l: OffsetPositionIntervalList, nodes: seq<TextNode>, k: nat)
    reads l
  {
    FragmentAt(l.offsetStart, l.offsetEnd, l.positionStartLine, l.positionStartCharacter,
      l.positionEndLine, l.positionEndCharacter, l.value, nodes, k)
  }

  /** `l` is the index of the first `n` fragments. */
  ghost predicate IndexesPrefix(l: OffsetPositionIntervalList, nodes: seq<TextNode>, n: nat)
    reads l
    requires n <= |nodes|
  {
    l.Valid() && l.Len() == n && forall k :: 0 <= k < n ==> RecordsFragment(l, nodes, k)
  }

  ghost predicate Indexes(l: OffsetPositionIntervalList, nodes: seq<TextNode>)
    reads l
  {
    IndexesPrefix(l, nodes, |nodes|)
  }

  /** The loop of _clean_source (document.py:281-297): one entry per
      fragment at the running offset, then the cleaned text is the join of
      the payloads. */
  method BuildIntervals(nodes: seq<TextNode>) returns (l: OffsetPositionIntervalList, cleaned: string)
    ensures fresh(l) && Indexes(l, nodes)
    ensures cleaned == Concat(l.Values()) && cleaned == Concat(Texts(nodes))
    ensures |cleaned| == SumLens(Texts(nodes))
  {
    l := new OffsetPositionIntervalList();
    var offset := 0;
    for i := 0 to |nodes|
      invariant IndexesPrefix(l, nodes, i)
      invariant offset == SumLens(Texts(nodes)[..i])
    {
      var node := nodes[i];
      var nodeLen := |node.text|;
      ghost var os, oe, sl, sc, el, ec, vs := l.offsetStart, l.offsetEnd,
        l.positionStartLine, l.positionStartCharacter, l.positionEndLine, l.positionEndCharacter, l.value;
      forall k | 0 <= k < i ensures FragmentAt(os, oe, sl, sc, el, ec, vs, nodes, k) {
        assert RecordsFragment(l, nodes, k);
      }
      l.AddIntervalValues(offset, offset + nodeLen - 1,
        node.start.row, node.start.column, node.end.row, node.end.column, node.text);
      forall k | 0 <= k < i + 1 ensures RecordsFragment(l, nodes, k) {
        if k < i {
          assert FragmentAt(os, oe, sl, sc, el, ec, vs, nodes, k);
        }
      }
      SumLensPrefixStep(Texts(nodes), i);
      offset := offset + nodeLen;
    }
    forall k | 0 <= k < |nodes| ensures l.value[k] == Texts(nodes)[k] {
      assert RecordsFragment(l, nodes, k);
    }
    assert l.value == Texts(nodes);
    cleaned := Concat(l.Values());
    SumLensIsConcatLength(Texts(nodes));
  }

  /** The entries of an index of non-empty fragments ascend and do not
      overlap in the cleaned text. */
  lemma IndexOffsetsAscend(l: OffsetPositionIntervalList, nodes: seq<TextNode>)
    requires Indexes(l, nodes)
    requires forall k :: 0 <= k < |nodes| ==> |nodes[k].text| > 0
    ensures l.OffsetsSortedDisjoint()
  {
    var texts := Texts(nodes);
    forall k, m | 0 <= k < m < l.Len() ensures l.offsetEnd[k] < l.offsetStart[m] {
      assert RecordsFragment(l, nodes, k) && RecordsFragment(l, nodes, m);
      SumLensPrefixStep(texts, k);
      SumLensPrefixMonotone(texts, k + 1, m);
    }
    forall k | 0 <= k < l.Len() ensures l.offsetStart[k] <= l.offsetEnd[k] {
      assert RecordsFragment(l, nodes, k);
    }
  }

  /** An index of non-empty fragments has ascending disjoint entries that
      tile the cleaned text: the offset lookup succeeds exactly on the
      cleaned text's offsets, and finds the fragment holding the offset. */
  lemma IndexTilesCleaned(l: OffsetPositionIntervalList, nodes: seq<TextNode>, offset: int)
    requires Indexes(l, nodes)
    requires forall k :: 0 <= k < |nodes| ==> |nodes[k].text| > 0
    ensures l.OffsetsSortedDisjoint()
    ensures l.GetIdxAtOffset(offset).Some? <==> 0 <= offset < SumLens(Texts(nodes))
    ensures 0 <= offset < SumLens(Texts(nodes)) ==>
      PositionOf(Texts(nodes), offset).Some? &&
      l.GetIdxAtOffset(offset) == Some(PositionOf(Texts(nodes), offset).value.line)
  {
    var texts := Texts(nodes);
    IndexOffsetsAscend(l, nodes);
    if l.GetIdxAtOffset(offset).Some? {
      var k := l.GetIdxAtOffset(offset).value;
      assert RecordsFragment(l, nodes, k);
      SumLensPrefixStep(texts, k);
      SumLensPrefixMonotone(texts, k + 1, |texts|);
      SumLensAll(texts);
    }
    if 0 <= offset < SumLens(texts) {
      PositionOfLocates(texts, offset);
      var p := PositionOf(texts, offset).value;
      assert RecordsFragment(l, nodes, p.line);
      l.GetIdxAtOffsetFindsContaining(offset, p.line);
    }
  }

  /** position_at_offset in cleaned mode (document.py:309-316): the start of
      the entry holding the offset, moved right by the distance into it. No
      entry: the source reads an attribute of `None`. */
  function CleanedPositionOf(l: OffsetPositionIntervalList, offset: int): (r: Result<Position>)
    reads l
    requires l.Valid()
    ensures r.Raises? <==> l.GetIdxAtOffset(offset).None?
    ensures r.Raises? ==> r.exception == AttributeError
    ensures r.Returns? ==> var i := l.GetIdxAtOffset(offset).value;
      r.value.line == l.positionStartLine[i] &&
      r.value.character - l.positionStartCharacter[i] == offset - l.offsetStart[i]
  {
    match l.GetIntervalAtOffset(offset)
    case None => Raises(AttributeError)
    case Some(item) =>
      Returns(Position(item.positionRange.start.line,
                       item.positionRange.start.character + (offset - item.offsetInterval.start)))
  }

  /** offset_at_position in cleaned mode (document.py:346-354): the offset
      of the entry holding the position, moved right by the distance into
      it; `None` when no entry holds it. An entry spanning several lines
      fails the assert at line 350. */
  function CleanedOffsetOf(l: OffsetPositionIntervalList, p: Position): (r: Result<Option<int>>)
    reads l
    requires l.Valid()
    ensures r == Returns(None) <==> l.IdxAtPosition(p).None?
    ensures r.Raises? ==> r.exception == AssertionError
    ensures l.IdxAtPosition(p).Some? ==> var i := l.IdxAtPosition(p).value;
      (r.Raises? <==> l.positionStartLine[i] != p.line) &&
      (r.Returns? ==> r.value == Some(l.offsetStart[i] + (p.character - l.positionStartCharacter[i])))
  {
    match l.IdxAtPosition(p)
    case None => Returns(None)
    case Some(i) =>
      var item := l.GetInterval(i);
      if item.positionRange.start.line != p.line then Raises(AssertionError)
      else Returns(Some(item.offsetInterval.start + (p.character - item.positionRange.start.character)))
  }

  /** Every entry's offset width equals its character width: the fragment's
      text is as long as the source span it stands for. */
  ghost predicate WidthsAgree(l: OffsetPositionIntervalList)
    reads l
    requires l.Valid()
  {
    forall k :: 0 <= k < l.Len() ==>
      l.offsetEnd[k] - l.offsetStart[k] == l.positionEndCharacter[k] - l.positionStartCharacter[k]
  }

  /** The cleaned-mode position of an offset that entry `i` is found for. */
  lemma CleanedPositionAt(l: OffsetPositionIntervalList, offset: int, i: nat)
    requires l.Valid() && l.GetIdxAtOffset(offset) == Some(i)
    ensures CleanedPositionOf(l, offset) ==
      Returns(Position(l.positionStartLine[i], l.positionStartCharacter[i] + (offset - l.offsetStart[i])))
  {
    var item := l.GetInterval(i);
    assert item.offsetInterval.start == l.offsetStart[i];
    assert item.positionRange.start == Position(l.positionStartLine[i], l.positionStartCharacter[i]);
  }

  /** The cleaned-mode offset of a position on the start line of the entry
      `i` it is found in. */
  lemma CleanedOffsetAt(l: OffsetPositionIntervalList, p: Position, i: nat)
    requires l.Valid() && l.IdxAtPosition(p) == Some(i) && l.positionStartLine[i] == p.line
    ensures CleanedOffsetOf(l, p) == Returns(Some(l.offsetStart[i] + (p.character - l.positionStartCharacter[i])))
  {
    var item := l.GetInterval(i);
    assert item.offsetInterval.start == l.offsetStart[i];
    assert item.positionRange.start == Position(l.positionStartLine[i], l.positionStartCharacter[i]);
  }

  /** On ascending disjoint entries, an offset entry `i` holds goes to the
      position as far into that entry's start. */
  lemma CleanedPositionOfHeld(l: OffsetPositionIntervalList, offset: int, i: nat, p: Position)
    requires l.Valid() && l.OffsetsSortedDisjoint()
    requires i < l.Len() && l.ContainsOffset(i, offset)
    requires p == Position(l.positionStartLine[i], l.positionStartCharacter[i] + (offset - l.offsetStart[i]))
    ensures CleanedPositionOf(l, offset) == Returns(p)
  {
    l.GetIdxAtOffsetFindsContaining(offset, i);
    CleanedPositionAt(l, offset, i);
  }

  /** On one-line ascending entries, a position entry `i` holds goes to the
      offset as far into that entry's start. */
  lemma CleanedOffsetOfHeld(l: OffsetPositionIntervalList, p: Position, i: nat, o: int)
    requires l.Valid() && l.PositionsSortedDisjoint()
    requires i < l.Len() && l.ContainsPosition(i, p)
    requires o == l.offsetStart[i] + (p.character - l.positionStartCharacter[i])
    ensures CleanedOffsetOf(l, p) == Returns(Some(o))
  {
    l.IdxAtPositionFindsContaining(p, i);
    assert l.positionStartLine[i] == l.positionEndLine[i];
    CleanedOffsetAt(l, p, i);
  }

  /** Round trip from the cleaned text: on an index of one-line entries in
      ascending order whose widths agree, an offset held by an entry goes to
      a position the same entry holds, and back to itself. */
  lemma CleanedOffsetRoundTrip(l: OffsetPositionIntervalList, offset: int, i: nat)
    requires l.Valid() && l.OffsetsSortedDisjoint() && l.PositionsSortedDisjoint() && WidthsAgree(l)
    requires i < l.Len() && l.ContainsOffset(i, offset)
    ensures CleanedPositionOf(l, offset).Returns?
    ensures l.ContainsPosition(i, CleanedPositionOf(l, offset).value)
    ensures CleanedOffsetOf(l, CleanedPositionOf(l, offset).value) == Returns(Some(offset))
  {
    var p := Position(l.positionStartLine[i], l.positionStartCharacter[i] + (offset - l.offsetStart[i]));
    CleanedPositionOfHeld(l, offset, i, p);
    assert l.positionStartLine[i] == l.positionEndLine[i];
    assert l.offsetEnd[i] - l.offsetStart[i] == l.positionEndCharacter[i] - l.positionStartCharacter[i];
    assert l.ContainsPosition(i, p);
    CleanedOffsetOfHeld(l, p, i, offset);
  }

  /** Round trip from the source: a position an entry holds goes to an
      offset the same entry holds, and back to itself. */
  lemma CleanedPositionRoundTrip(l: OffsetPositionIntervalList, p: Position, i: nat)
    requires l.Valid() && l.OffsetsSortedDisjoint() && l.PositionsSortedDisjoint() && WidthsAgree(l)
    requires i < l.Len() && l.ContainsPosition(i, p)
    ensures CleanedOffsetOf(l, p).Returns? && CleanedOffsetOf(l, p).value.Some?
    ensures l.ContainsOffset(i, CleanedOffsetOf(l, p).value.value)
    ensures CleanedPositionOf(l, CleanedOffsetOf(l, p).value.value) == Returns(p)
  {
    var o := l.offsetStart[i] + (p.character - l.positionStartCharacter[i]);
    CleanedOffsetOfHeld(l, p, i, o);
    assert l.positionStartLine[i] == l.positionEndLine[i];
    assert l.offsetEnd[i] - l.offsetStart[i] == l.positionEndCharacter[i] - l.positionStartCharacter[i];
    assert l.ContainsOffset(i, o);
    CleanedPositionOfHeld(l, o, i, p);
  }

  /** The half of the round trip that holds on every index the cleaning
      pipeline builds: a position that offset_at_position maps to an offset
      comes back from position_at_offset unchanged, provided the fragment
      found for it is as long as the source span it stands for. No
      assumption on how the fragments' positions are laid out is needed. */
  lemma CleanedOffsetThenPosition(l: OffsetPositionIntervalList, nodes: seq<TextNode>, p: Position)
    requires Indexes(l, nodes)
    requires forall k :: 0 <= k < |nodes| ==> |nodes[k].text| > 0
    requires CleanedOffsetOf(l, p).Returns? && CleanedOffsetOf(l, p).value.Some?
    requires var k := l.IdxAtPosition(p).value;
      |nodes[k].text| == nodes[k].end.column - nodes[k].start.column
    ensures CleanedPositionOf(l, CleanedOffsetOf(l, p).value.value) == Returns(p)
  {
    var i := l.IdxAtPosition(p).value;
    var o := CleanedOffsetOf(l, p).value.value;
    assert RecordsFragment(l, nodes, i);
    assert l.positionStartLine[i] == p.line;
    CleanedOffsetAt(l, p, i);
    IndexOffsetsAscend(l, nodes);
    assert l.ContainsOffset(i, o);
    CleanedPositionOfHeld(l, o, i, p);
  }

  /** The source "\section{Intro}" followed by the row "Some": the title's
      curly group owes a paragraph break, then come the two words. */
  const SectionRows: seq<string> := ["\\section{Intro}", "Some"]

  const SectionCaptures: seq<Capture> := [
    Capture(NewlineBeforeAfter, Point(0, 8), Point(0, 15), "{Intro}"),
    Capture(Content, Point(0, 9), Point(0, 14), "Intro"),
    Capture(Content, Point(1, 0), Point(1, 4), "Some")]

  /** The fragments the emitter yields for it: the two newlines paying
      the owed break follow "Intro", and the second sits at (1, 0)-(1, 1),
      the cell "Some" starts in. */
  const SectionNodes: seq<TextNode> := [
    TextNode("Intro", Point(0, 9), Point(0, 14)),
    NewLine(Point(0, 15), Point(0, 16)),
    NewLine(Point(1, 0), Point(1, 1)),
    TextNode("Some", Point(1, 0), Point(1, 4))]

  /** The first two captures: the title group is only queued, since
      nothing has been sent, then "Intro" goes out and the break it owes,
      lying after it, stays queued. */
  lemma SectionTitleRun()
    ensures ContentRowsIn(SectionCaptures[..2], SectionRows)
    ensures Run(SectionCaptures[..2], SectionRows, Initial) ==
      (State(Some(SectionNodes[0]), [Point(0, 15)]), [Emitted(SectionNodes[0], false)])
  {
    var cs, rows := SectionCaptures, SectionRows;
    var c0, c1 := cs[0], cs[1];
    var intro := FromCapture(c1);
    var none: seq<Emitted> := [];
    var s0 := State(None, [Point(0, 15)]);
    assert Initial.pending + [c0.end] == [Point(0, 15)];
    assert Step(c0, rows, Initial) == (s0, none);
    assert [c0][..0] == [] && Run([], rows, Initial) == (Initial, none);
    assert Run([c0], rows, Initial) == (s0, none + none);
    var s1 := State(Some(intro), [Point(0, 15)]);
    assert FlushBefore(c1.start, s0) == (s0, none);
    assert BlankLines(rows, None, c1.start) == (None, none);
    assert !NeedsSpaceBefore(c1.start, rows, None);
    assert none + none + none + [Emitted(intro, false)] == [Emitted(intro, false)];
    assert Step(c1, rows, s0) == (s1, none + none + none + [Emitted(intro, false)]);
    assert cs[..2] == [c0, c1] && [c0, c1][..1] == [c0];
    assert Run([c0, c1], rows, Initial) == (s1, [Emitted(intro, false)]);
  }

  /** Before "Some" the owed break is paid with two newlines after
      "Intro"; the second ends the row's cell, so no space follows. */
  lemma SectionWordStep()
    ensures SectionCaptures[2].kind == Content && SectionCaptures[2].start.row < |SectionRows|
    ensures Step(SectionCaptures[2], SectionRows, State(Some(SectionNodes[0]), [Point(0, 15)])) ==
      (State(Some(SectionNodes[3]), []), Synthesized(SectionNodes[1..3]) + [Emitted(SectionNodes[3], false)])
  {
    var c2, rows := SectionCaptures[2], SectionRows;
    var nls := GetNewLines(2, SectionNodes[0].end);
    assert nls == SectionNodes[1..3];
    var none: seq<Emitted> := [];
    var s1 := State(Some(SectionNodes[0]), [Point(0, 15)]);
    var after := State(Some(nls[1]), []);
    assert FlushBefore(c2.start, after) == (after, none);
    assert PointLess(s1.pending[0], c2.start) && s1.pending[1..] == [];
    assert Synthesized(nls) + none == Synthesized(nls);
    assert FlushBefore(c2.start, s1) == (after, Synthesized(nls) + none);
    assert BlankLines(rows, Some(nls[1]), c2.start) == (Some(nls[1]), none);
    assert !NeedsSpaceBefore(c2.start, rows, Some(nls[1]));
    assert Synthesized(nls) + none + none == Synthesized(nls);
    assert Step(c2, rows, s1) ==
      (State(Some(SectionNodes[3]), []), Synthesized(nls) + none + none + [Emitted(SectionNodes[3], false)]);
  }

  lemma SectionFragments()
    ensures ContentRowsIn(SectionCaptures, SectionRows)
    ensures Nodes(Emit(SectionCaptures, SectionRows)) == SectionNodes
  {
    var cs, rows := SectionCaptures, SectionRows;
    var c0, c1, c2 := cs[0], cs[1], cs[2];
    assert cs == [c0, c1, c2] && cs[..2] == [c0, c1];
    assert ContentRowsIn(cs, rows);
    SectionTitleRun();
    SectionWordStep();
    var head := [Emitted(SectionNodes[0], false)];
    var tail := Synthesized(SectionNodes[1..3]) + [Emitted(SectionNodes[3], false)];
    assert Run(cs, rows, Initial) == (State(Some(SectionNodes[3]), []), head + tail);
    assert Emit(cs, rows) == head + tail + [];
    NodesAppend(head, tail);
    NodesAppend(Synthesized(SectionNodes[1..3]), [Emitted(SectionNodes[3], false)]);
    NodesSynthesized(SectionNodes[1..3]);
  }

  /** The same fragments with the paragraph break placed as
      `NewLinesOnRow` places it: both newlines stay on row 0. */
  const SectionNodesOnRow: seq<TextNode> := [
    TextNode("Intro", Point(0, 9), Point(0, 14)),
    NewLine(Point(0, 15), Point(0, 16)),
    NewLine(Point(0, 16), Point(0, 17)),
    TextNode("Some", Point(1, 0), Point(1, 4))]

  /** The two fragment lists differ only in where the break's newlines go. */
  lemma SectionPlacements()
    ensures SectionNodes == [SectionNodes[0]] + GetNewLines(2, SectionNodes[0].end) + [SectionNodes[3]]
    ensures SectionNodesOnRow == [SectionNodes[0]] + NewLinesOnRow(2, SectionNodes[0].end) + [SectionNodes[3]]
  {
    var g := GetNewLines(2, SectionNodes[0].end);
    assert g[0] == SectionNodes[1] && g[1] == SectionNodes[2];
    var n := NewLinesOnRow(2, SectionNodes[0].end);
    assert n[0] == SectionNodesOnRow[1] && n[1] == SectionNodesOnRow[2];
  }

  /** The columns of the index over the corrected fragments. */
  ghost predicate SectionOnRowColumns(l: OffsetPositionIntervalList)
    reads l
  {
    l.Valid() &&
    l.offsetStart == [0, 5, 6, 7] && l.offsetEnd == [4, 5, 6, 10] &&
    l.positionStartLine == [0, 0, 0, 1] && l.positionStartCharacter == [9, 15, 16, 0] &&
    l.positionEndLine == [0, 0, 0, 1] && l.positionEndCharacter == [13, 15, 16, 3]
  }

  /** The index _clean_source builds over the corrected fragments. */
  lemma SectionOnRowIndex(l: OffsetPositionIntervalList)
    requires Indexes(l, SectionNodesOnRow)
    ensures SectionOnRowColumns(l)
  {
    var ns := SectionNodesOnRow;
    var t := Texts(ns);
    assert t == ["Intro", "\n", "\n", "Some"];
    assert SumLens(["\n"]) == 1 && SumLens(["\n", "\n"]) == 2 by {
      assert ["\n", "\n"][1..] == ["\n"] && ["\n"][1..] == [];
    }
    assert t[..0] == [] && t[..1] == ["Intro"] && t[..2] == ["Intro", "\n"] && t[..3] == ["Intro", "\n", "\n"];
    assert ["Intro"][1..] == [] && ["Intro", "\n"][1..] == ["\n"] && ["Intro", "\n", "\n"][1..] == ["\n", "\n"];
    assert RecordsFragment(l, ns, 0) && RecordsFragment(l, ns, 1);
    assert RecordsFragment(l, ns, 2) && RecordsFragment(l, ns, 3);
  }

  /** Those columns have the layout the round trip needs. */
  lemma SectionOnRowLayout(l: OffsetPositionIntervalList)
    requires SectionOnRowColumns(l)
    ensures l.OffsetsSortedDisjoint() && l.PositionsSortedDisjoint() && WidthsAgree(l)
  {
  }

  /** With the break kept on row 0 every cleaned offset converts to a
      position and back to itself. */
  lemma SectionOnRowRoundTrip(l: OffsetPositionIntervalList)
    requires Indexes(l, SectionNodesOnRow)
    ensures l.Valid() && l.OffsetsSortedDisjoint() && l.PositionsSortedDisjoint() && WidthsAgree(l)
    ensures forall o :: 0 <= o <= 10 ==>
      CleanedPositionOf(l, o).Returns? && CleanedOffsetOf(l, CleanedPositionOf(l, o).value) == Returns(Some(o))
  {
    SectionOnRowIndex(l);
    SectionOnRowLayout(l);
    forall o | 0 <= o <= 10
      ensures CleanedPositionOf(l, o).Returns? && CleanedOffsetOf(l, CleanedPositionOf(l, o).value) == Returns(Some(o))
    {
      SectionOnRowOffset(l, o);
    }
  }

  /** In particular 7, the "S" of "Some", goes to (1, 0) and back to 7,
      where the source's placement answers 6. */
  lemma SectionOnRowWord(l: OffsetPositionIntervalList)
    requires Indexes(l, SectionNodesOnRow)
    ensures CleanedPositionOf(l, 7) == Returns(Position(1, 0))
    ensures CleanedOffsetOf(l, Position(1, 0)) == Returns(Some(7))
  {
    SectionOnRowIndex(l);
    CleanedPositionAt(l, 7, 3);
    SectionOnRowOffset(l, 7);
  }

  /** One offset of the corrected example: the entry holding it, then the
      round trip on that entry. */
  lemma SectionOnRowOffset(l: OffsetPositionIntervalList, o: int)
    requires SectionOnRowColumns(l) && 0 <= o <= 10
    ensures CleanedPositionOf(l, o).Returns? && CleanedOffsetOf(l, CleanedPositionOf(l, o).value) == Returns(Some(o))
  {
    SectionOnRowLayout(l);
    var i := if o <= 4 then 0 else if o == 5 then 1 else if o == 6 then 2 else 3;
    CleanedOffsetRoundTrip(l, o, i);
  }

  /** The index _clean_source builds over those fragments. */
  lemma SectionIndex(l: OffsetPositionIntervalList)
    requires Indexes(l, SectionNodes)
    ensures SectionColumns(l)
  {
    var t := Texts(SectionNodes);
    assert t == ["Intro", "\n", "\n", "Some"];
    assert SumLens(["\n"]) == 1 && SumLens(["\n", "\n"]) == 2 by {
      assert ["\n", "\n"][1..] == ["\n"] && ["\n"][1..] == [];
    }
    assert t[..0] == [] && t[..1] == ["Intro"] && t[..2] == ["Intro", "\n"] && t[..3] == ["Intro", "\n", "\n"];
    assert ["Intro"][1..] == [] && ["Intro", "\n"][1..] == ["\n"] && ["Intro", "\n", "\n"][1..] == ["\n", "\n"];
    assert RecordsFragment(l, SectionNodes, 0) && RecordsFragment(l, SectionNodes, 1);
    assert RecordsFragment(l, SectionNodes, 2) && RecordsFragment(l, SectionNodes, 3);
  }

  /** The three searches the lookups below run on that index. */
  lemma SectionBisections()
    ensures BisectLeft([4, 5, 6, 10], 7) == 3
    ensures BisectLeft([0, 0, 1, 1], 1) == 2
    ensures BisectLeft([0, 3], 0) == 0
  {
    BisectLeftUnique([4, 5, 6, 10], 7, 3);
    BisectLeftUnique([0, 0, 1, 1], 1, 2);
    BisectLeftUnique([0, 3], 0, 0);
  }

  /** The index's columns, as the lookups read them. */
  ghost predicate SectionColumns(l: OffsetPositionIntervalList)
    reads l
  {
    l.Valid() &&
    l.offsetStart == [0, 5, 6, 7] && l.offsetEnd == [4, 5, 6, 10] &&
    l.positionStartLine == [0, 0, 1, 1] && l.positionStartCharacter == [9, 15, 0, 0] &&
    l.positionEndLine == [0, 0, 1, 1] && l.positionEndCharacter == [13, 15, 0, 3]
  }

  /** Cleaned offset 7, the "S" of "Some", lies in the last entry. */
  lemma SectionWordPosition(l: OffsetPositionIntervalList)
    requires SectionColumns(l)
    ensures CleanedPositionOf(l, 7) == Returns(Position(1, 0))
  {
    SectionBisections();
    CleanedPositionAt(l, 7, 3);
  }

  /** Position (1, 0) ends no entry of line 0; among the entries ending on
      line 1 the newline, whose end character is 0, comes first. */
  lemma SectionBreakOffset(l: OffsetPositionIntervalList)
    requires SectionColumns(l)
    ensures CleanedOffsetOf(l, Position(1, 0)) == Returns(Some(6))
  {
    SectionBisections();
    assert l.RunEnd(2) == 4;
    assert l.positionEndCharacter[2..4] == [0, 3];
    assert l.IdxAtPosition(Position(1, 0)) == Some(2);
    CleanedOffsetAt(l, Position(1, 0), 2);
  }

  /** What position_at_offset and offset_at_position make of that index:
      the first character of "Some" has cleaned offset 7 and source
      position (1, 0), but the position lookup finds the newline entry
      ending there first and answers 6. */
  lemma SectionBreakShadowsWord(l: OffsetPositionIntervalList)
    requires ContentRowsIn(SectionCaptures, SectionRows)
    requires Indexes(l, Nodes(Emit(SectionCaptures, SectionRows)))
    ensures CleanedPositionOf(l, 7) == Returns(Position(1, 0))
    ensures CleanedOffsetOf(l, Position(1, 0)) == Returns(Some(6))
  {
    SectionFragments();
    SectionIndex(l);
    SectionWordPosition(l);
    SectionBreakOffset(l);
  }

  /** The column just after entry `i`'s end, moved left by as many
      characters as the entry reaches past the cleaned offset `end`. */
  function EndCharacterBefore(l: OffsetPositionIntervalList, i: nat, end: int): int
    reads l
    requires l.Valid() && i < l.Len()
  {
    (l.positionEndCharacter[i] + 1) - (l.offsetEnd[i] + 1 - end)
  }

  /** On a one-line entry as wide in the source as in the cleaned text, the
      end of a range whose last character the entry holds is one column past
      that character's position. */
  lemma CleanedRangeEndAfterLast(l: OffsetPositionIntervalList, end: int, i: nat)
    requires l.Valid() && l.GetIdxAtOffset(end - 1) == Some(i)
    requires l.positionStartLine[i] == l.positionEndLine[i]
    requires l.offsetEnd[i] - l.offsetStart[i] == l.positionEndCharacter[i] - l.positionStartCharacter[i]
    ensures CleanedPositionOf(l, end - 1).Returns?
    ensures CleanedRangeEnd(l, end) ==
      Returns(Position(CleanedPositionOf(l, end - 1).value.line, CleanedPositionOf(l, end - 1).value.character + 1))
  {
    CleanedPositionAt(l, end - 1, i);
    assert EndCharacterBefore(l, i, end) == l.positionStartCharacter[i] + (end - l.offsetStart[i]);
  }

  /** The end of range_at_offset in cleaned mode (document.py:323-332): the
      entry holding the range's last character, its end moved left by what
      of it lies beyond the range. A negative character fails the protocol's
      position check. */
  function CleanedRangeEnd(l: OffsetPositionIntervalList, end: int): (r: Result<Position>)
    reads l
    requires l.Valid()
    ensures r.Raises? ==> r.exception == AttributeError || r.exception == ValueError
    ensures r.Raises? && r.exception == AttributeError <==> l.GetIdxAtOffset(end - 1).None?
    ensures l.GetIdxAtOffset(end - 1).Some? ==> var i := l.GetIdxAtOffset(end - 1).value;
      (r.Raises? <==> EndCharacterBefore(l, i, end) < 0) &&
      (r.Returns? ==> r.value.line == l.positionEndLine[i] && r.value.character == EndCharacterBefore(l, i, end))
  {
    match l.GetIntervalAtOffset(end - 1)
    case None => Raises(AttributeError)
    case Some(item) =>
      var itemEnd := item.offsetInterval.start + item.offsetInterval.length;
      var diff := itemEnd - end;
      if item.positionRange.end.character - diff < 0 then Raises(ValueError)
      else Returns(Position(item.positionRange.end.line, item.positionRange.end.character - diff))
  }

  /** The lookup at document.py:308-316 on the cleaned index. */
  method PositionAtOffsetIn(l: OffsetPositionIntervalList, offset: int) returns (r: Result<Position>)
    requires l.Valid()
    ensures r == CleanedPositionOf(l, offset)
  {
    var item := l.GetIntervalAtOffset(offset);
    if item.None? {
      return Raises(AttributeError);
    }
    var diff := offset - item.value.offsetInterval.start;
    return Returns(Position(item.value.positionRange.start.line, item.value.positionRange.start.character + diff));
  }

  /** The lookup of the range's end at document.py:323-332 on the cleaned
      index. */
  method RangeEndIn(l: OffsetPositionIntervalList, end: int) returns (r: Result<Position>)
    requires l.Valid()
    ensures r == CleanedRangeEnd(l, end)
  {
    var item := l.GetIntervalAtOffset(end - 1);
    if item.None? {
      return Raises(AttributeError);
    }
    var itemEnd := item.value.offsetInterval.start + item.value.offsetInterval.length;
    var diff := itemEnd - end;
    if item.value.positionRange.end.character - diff < 0 {
      return Raises(ValueError);
    }
    return Returns(Position(item.value.positionRange.end.line, item.value.positionRange.end.character - diff));
  }

  /** The two lookups of range_at_offset (document.py:318-337) on the
      cleaned index: the start's failure is raised first. */
  method RangeAtOffsetIn(l: OffsetPositionIntervalList, offset: int, length: int) returns (r: Result<Range>)
    requires l.Valid()
    ensures r.Returns? <==> CleanedPositionOf(l, offset).Returns? && CleanedRangeEnd(l, offset + length).Returns?
    ensures r.Returns? ==> r.value == Range(CleanedPositionOf(l, offset).value, CleanedRangeEnd(l, offset + length).value)
    ensures CleanedPositionOf(l, offset).Raises? ==> r == Raises(CleanedPositionOf(l, offset).exception)
  {
    var start := PositionAtOffsetIn(l, offset);
    if start.Raises? {
      return Raises(start.exception);
    }
    var end := RangeEndIn(l, offset + length);
    if end.Raises? {
      return Raises(end.exception);
    }
    return Returns(Range(start.value, end.value));
  }

  /** The lookup at document.py:345-354 on the cleaned index. */
  method OffsetAtPositionIn(l: OffsetPositionIntervalList, p: Position) returns (r: Result<Option<int>>)
    requires l.Valid()
    ensures r == CleanedOffsetOf(l, p)
  {
    var item := l.GetIntervalAtPosition(p);
    if item.None? {
      return Returns(None);
    }
    if item.value.positionRange.start.line != p.line {
      return Raises(AssertionError);
    }
    var diff := p.character - item.value.positionRange.start.character;
    return Returns(Some(item.value.offsetInterval.start + diff));
  }

  /** The query always places words on rows the source has. */
  ghost predicate QueryFits(query: string -> seq<Capture>) {
    forall s :: ContentRowsIn(query(s), SplitNewline(s))
  }

  /** The fragments the emitter yields for `source`. */
  ghost function Fragments(query: string -> seq<Capture>, source: string): seq<TextNode>
    requires QueryFits(query)
  {
    Nodes(Emit(query(source), SplitNewline(source)))
  }

  ghost function CleanedText(query: string -> seq<Capture>, source: string): string
    requires QueryFits(query)
  {
    Concat(Texts(Fragments(query, source)))
  }

  /** A LaTeX document: its text, the parse-and-query step that finds its
      captures, and the cached cleaned text with the index built alongside
      it. The cache is `None` until first needed and after every edit. */
  class LatexDocument {
    var source: string
    var cleanedSource: Option<string>
    var textIntervals: OffsetPositionIntervalList
    const query: string -> seq<Capture>

    /** A filled cache holds the cleaned text of the current source, and the
        index is the one built with it. */
    ghost predicate Valid()
      reads this, textIntervals
    {
      textIntervals.Valid() && QueryFits(query) &&
      (cleanedSource.Some? ==>
        Indexes(textIntervals, Fragments(query, source)) &&
        cleanedSource.value == CleanedText(query, source))
    }

    constructor (source: string, query: string -> seq<Capture>)
      requires QueryFits(query)
      ensures Valid() && this.source == source && this.query == query && cleanedSource.None?
    {
      this.source := source;
      this.query := query;
      cleanedSource := None;
      textIntervals := new OffsetPositionIntervalList();
    }

    /** CleanableDocument.apply_change (document.py:178-180): the editor's
        new text replaces the old one, and the cache is dropped. */
    method ApplyChange(newSource: string)
      requires Valid()
      modifies this
      ensures Valid() && source == newSource && cleanedSource.None?
      ensures textIntervals == old(textIntervals)
    {
      source := newSource;
      cleanedSource := None;
    }

    /** _clean_source (document.py:279-297): parse, emit the fragments, and
        rebuild the index and the cleaned text from them. */
    method CleanSource()
      requires Valid()
      modifies this
      ensures Valid() && source == old(source) && fresh(textIntervals)
      ensures cleanedSource == Some(CleanedText(query, source))
    {
      var nodes := IterateTextNodes(query(source), source);
      var l, cleaned := BuildIntervals(nodes);
      textIntervals := l;
      cleanedSource := Some(cleaned);
    }

    /** Fill the cache when it is empty, as the cleaned-mode operations
        do first. */
    method EnsureClean()
      requires Valid()
      modifies this
      ensures Valid() && source == old(source)
      ensures cleanedSource == Some(CleanedText(query, source))
      ensures old(cleanedSource).Some? ==> textIntervals == old(textIntervals)
    {
      if cleanedSource.None? {
        CleanSource();
      }
    }

    /** The `cleaned_source` property (document.py:163-167). */
    method CleanedSource() returns (s: string)
      requires Valid()
      modifies this
      ensures Valid() && source == old(source)
      ensures s == CleanedText(query, source) && cleanedSource == Some(s)
    {
      EnsureClean();
      s := cleanedSource.value;
    }

    /** position_at_offset with `cleaned=True` (document.py:302-316). */
    method PositionAtOffsetCleaned(offset: int) returns (r: Result<Position>)
      requires Valid()
      modifies this
      ensures Valid() && source == old(source) && cleanedSource.Some?
      ensures r == CleanedPositionOf(textIntervals, offset)
    {
      EnsureClean();
      r := PositionAtOffsetIn(textIntervals, offset);
    }

    /** range_at_offset with `cleaned=True` (document.py:318-337). */
    method RangeAtOffsetCleaned(offset: int, length: int) returns (r: Result<Range>)
      requires Valid()
      modifies this
      ensures Valid() && source == old(source) && cleanedSource.Some?
      ensures r.Returns? <==>
        CleanedPositionOf(textIntervals, offset).Returns? && CleanedRangeEnd(textIntervals, offset + length).Returns?
      ensures r.Returns? ==> r.value == Range(CleanedPositionOf(textIntervals, offset).value,
        CleanedRangeEnd(textIntervals, offset + length).value)
    {
      EnsureClean();
      r := RangeAtOffsetIn(textIntervals, offset, length);
    }

    /** offset_at_position with `cleaned=True` (document.py:339-354). */
    method OffsetAtPositionCleaned(p: Position) returns (r: Result<Option<int>>)
      requires Valid()
      modifies this
      ensures Valid() && source == old(source) && cleanedSource.Some?
      ensures r == CleanedOffsetOf(textIntervals, p)
    {
      EnsureClean();
      r := OffsetAtPositionIn(textIntervals, p);
    }

    /** paragraphs_at_range with `cleaned=True` (document.py:356-381): from
        the entry at the range's start, the paragraph of the cleaned text
        around each entry, at least as long as the entry, until an entry
        starts after the range's end; each paragraph once. No entry at the
        start: `range(None, ...)` raises. */
    method ParagraphsAtRangeCleaned(range: Range) returns (r: Result<seq<Interval>>)
      requires Valid()
      modifies this
      ensures Valid() && source == old(source) && cleanedSource == Some(CleanedText(query, source))
      ensures r.Raises? ==> r.exception == TypeError || r.exception == AssertionError
      ensures r == Raises(TypeError) <==> textIntervals.IdxAtPosition(range.start).None?
      ensures r.Returns? ==> forall k :: 0 <= k < |r.value| ==> IsWholeParagraph(cleanedSource.value, r.value[k])
      ensures r.Returns? ==> forall j, k :: 0 <= j < k < |r.value| ==> r.value[j] != r.value[k]
    {
      EnsureClean();
      var cleaned := cleanedSource.value;
      var idx := textIntervals.GetIdxAtPosition(range.start);
      if idx.None? {
        return Raises(TypeError);
      }
      r := ParagraphsFromEntry(textIntervals, cleaned, idx.value, range.end);
    }
  }

  /** The loop of paragraphs_at_range in cleaned mode (document.py:363-381),
      from entry `from` on. */
  method ParagraphsFromEntry(l: OffsetPositionIntervalList, cleaned: string, from: nat, end: Position)
    returns (r: Result<seq<Interval>>)
    requires l.Valid() && from <= l.Len()
    ensures r.Raises? ==> r.exception == AssertionError
    ensures r.Returns? ==> forall k :: 0 <= k < |r.value| ==> IsWholeParagraph(cleaned, r.value[k])
    ensures r.Returns? ==> forall j, k :: 0 <= j < k < |r.value| ==> r.value[j] != r.value[k]
  {
    var res: seq<Interval> := [];
    var resSet: set<Interval> := {};
    for i := from to l.Len()
      invariant forall x :: x in resSet <==> x in res
      invariant forall k :: 0 <= k < |res| ==> IsWholeParagraph(cleaned, res[k])
      invariant forall j, k :: 0 <= j < k < |res| ==> res[j] != res[k]
    {
      var interval := l.GetInterval(i);
      if PositionLess(end, interval.positionRange.start) {
        break;
      }
      var o := interval.offsetInterval.start;
      if o < 0 || o >= |cleaned| {
        return Raises(AssertionError);
      }
      var paragraph := ParagraphAtOffset(cleaned, o, interval.offsetInterval.length);
      if paragraph !in resSet {
        res := res + [paragraph];
        resSet := resSet + {paragraph};
      }
    }
    return Returns(res);
  }

  /** DocumentTypeFactory.get_file_type (document.py:384-392): the protocol's
      language id mapped to a document module name, "text" to "txt" and
      "tex" to "latex", any other id (or none) kept. */
  function GetFileType(languageId: Option<string>): (r: Option<string>)
    ensures languageId == Some("text") ==> r == Some("txt")
    ensures languageId == Some("tex") ==> r == Some("latex")
    ensures languageId != Some("text") && languageId != Some("tex") ==> r == languageId
  {
    if languageId == Some("text") then Some("txt")
    else if languageId == Some("tex") then Some("latex")
    else languageId
  }

  /** Mapping twice changes nothing more: neither "txt" nor "latex" is
      mapped again. */
  lemma GetFileTypeIdempotent(languageId: Option<string>)
    ensures GetFileType(GetFileType(languageId)) == GetFileType(languageId)
  {
  }
}
