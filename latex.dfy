/** The LaTeX fragment emitter, `LatexDocument._iterate_text_nodes`
    (textLSP/documents/latex/latex.py:61-145). The tree-sitter query is
    abstracted as the sequence of captures it returns: each is a content
    word or a structure (a section title group or a list item) after which a
    paragraph break is owed. The emitter passes every word through verbatim
    and synthesizes the spaces and double newlines that join them. */
module Latex {
  import opened Wrappers
  import opened Lines
  import opened Coordinates
  import opened TextNodes

  datatype CaptureKind = Content | NewlineBeforeAfter

  /** One query capture: its name, its node's span and its node's text. */
  datatype Capture = Capture(kind: CaptureKind, start: Point, end: Point, text: string)

  /** TextNode.from_ts_node */
  function FromCapture(c: Capture): TextNode {
    TextNode(c.text, c.start, c.end)
  }

  /** An emitted fragment, tagged with whether the emitter made it up
      (spaces, newlines) or it is a captured word. */
  datatype Emitted = Emitted(node: TextNode, synthesized: bool)

  /** The generator's local state: the last fragment that updated
      `last_sent`, and the queue `new_lines_after` of structure end points
      whose paragraph break is still owed. */
  datatype State = State(lastSent: Option<TextNode>, pending: seq<Point>)

  const Initial := State(None, [])

  function Nodes(e: seq<Emitted>): seq<TextNode> {
    seq(|e|, k requires 0 <= k < |e| => e[k].node)
  }

  function Synthesized(nodes: seq<TextNode>): seq<Emitted> {
    seq(|nodes|, k requires 0 <= k < |nodes| => Emitted(nodes[k], true))
  }

  lemma NodesAppend(a: seq<Emitted>, b: seq<Emitted>)
    ensures Nodes(a + b) == Nodes(a) + Nodes(b)
  {
  }

  lemma NodesSynthesized(nodes: seq<TextNode>)
    ensures Nodes(Synthesized(nodes)) == nodes
  {
  }

  /** Every made-up fragment is a single space or a single newline. */
  ghost predicate WellTagged(e: seq<Emitted>) {
    forall k :: 0 <= k < |e| && e[k].synthesized ==> e[k].node.text == " " || e[k].node.text == "\n"
  }

  ghost predicate AllSynthesized(e: seq<Emitted>) {
    forall k :: 0 <= k < |e| ==> e[k].synthesized
  }

  /** The `i`-th newline _get_new_lines makes after `loc`. */
  function NewLineAfter(loc: Point, i: nat): TextNode {
    NewLine(Point(loc.row + i, if i == 0 then loc.column + 1 else 0),
            Point(loc.row + i, if i == 0 then loc.column + 2 else 1))
  }

  /** _get_new_lines (latex.py:125-138): `num` newline fragments, the first
      just after `loc` on its row, each further one at the start of the next
      row; each covers one column and they advance through the source. */
  function GetNewLines(num: nat, loc: Point): (r: seq<TextNode>)
    ensures |r| == num
    ensures forall k :: 0 <= k < num ==> r[k] == NewLineAfter(loc, k)
    ensures forall k :: 0 <= k < num ==>
      r[k].text == "\n" && r[k].end.row == r[k].start.row && r[k].end.column == r[k].start.column + 1
    ensures forall k :: 0 < k < num ==> PointLess(r[k - 1].start, r[k].start) && PointLess(r[k - 1].end, r[k].end)
  {
    if num == 0 then [] else GetNewLines(num - 1, loc) + [NewLineAfter(loc, num - 1)]
  }

  /** The placement `_get_new_lines` evidently intends: every newline on
      the row of `loc`, each one column after the previous, so that none
      takes a cell of a later row, where the next word may start. The
      first newline is the one the source places. */
  function NewLinesOnRow(num: nat, loc: Point): (r: seq<TextNode>)
    ensures |r| == num
    ensures forall k :: 0 <= k < num ==>
      r[k].text == "\n" && r[k].start.row == loc.row && r[k].end.row == loc.row &&
      r[k].start.column == loc.column + 1 + k && r[k].end.column == r[k].start.column + 1
    ensures num > 0 ==> r[0] == GetNewLines(num, loc)[0]
  {
    if num == 0 then []
    else NewLinesOnRow(num - 1, loc) + [NewLine(Point(loc.row, loc.column + 1 + (num - 1)), Point(loc.row, loc.column + 2 + (num - 1)))]
  }

  /** Python's `s[a:b]` for non-negative bounds: it holds exactly the
      elements at indices from `a` below `b` that exist. */
  function PySlice<T(==,!new)>(s: seq<T>, a: nat, b: nat): (r: seq<T>)
    ensures forall x :: x in r <==> exists k :: a <= k < b && k < |s| && s[k] == x
  {
    if Min(b, |s|) <= a then []
    else
      var r := s[a..Min(b, |s|)];
      assert forall k :: a <= k < Min(b, |s|) ==> s[k] == r[k - a];
      r
  }

  /** _needs_space_before (latex.py:140-145): never before the first
      fragment; on the previous fragment's end row, exactly when the source
      between the two has a space; on another row, unless the previous
      fragment is a newline. */
  function NeedsSpaceBefore(start: Point, lines: seq<string>, lastSent: Option<TextNode>): (r: bool)
    requires lastSent.Some? && start.row == lastSent.value.end.row ==> start.row < |lines|
    ensures r <==> (lastSent.Some? &&
      if start.row == lastSent.value.end.row
      then exists k :: lastSent.value.end.column <= k < start.column && k < |lines[start.row]| &&
             lines[start.row][k] == ' '
      else lastSent.value.text != "\n")
  {
    if lastSent.None? then false
    else if start.row == lastSent.value.end.row then
      ' ' in PySlice(lines[start.row], lastSent.value.end.column, start.column)
    else lastSent.value.text != "\n"
  }

  /** The test at latex.py:81-85: the word starts more than one row after the
      previous fragment ends, and an empty source row lies between them. */
  function BlankLineBetween(lines: seq<string>, lastSent: Option<TextNode>, start: Point): (r: bool)
    ensures r <==> (lastSent.Some? && start.row > lastSent.value.end.row + 1 &&
      exists k :: lastSent.value.end.row < k < start.row && k < |lines| && lines[k] == "")
  {
    lastSent.Some? && start.row - lastSent.value.end.row > 1 &&
    "" in PySlice(lines, lastSent.value.end.row + 1, start.row)
  }

  /** The space at latex.py:92-108: the column just before the word, or,
      when the word starts a row, the column after the previous fragment. */
  function SpaceBefore(start: Point, last: TextNode): (r: TextNode)
    ensures r.text == " " && r.start.row == r.end.row && r.end.column == r.start.column + 1
    ensures start.column > 0 ==> r.start == Point(start.row, start.column - 1) && r.end == start
    ensures start.column == 0 ==>
      r.start == Point(last.end.row, last.end.column + 1) && r.end == Point(last.end.row, last.end.column + 2)
  {
    if start.column > 0 then Space(Point(start.row, start.column - 1), start)
    else Space(Point(last.end.row, last.end.column + 1), Point(last.end.row, last.end.column + 2))
  }

  /** The loop at latex.py:70-78 before a word starting at `start`: pop the
      owed breaks lying strictly before it, oldest first, two newlines each
      once something has been sent. */
  function FlushBefore(start: Point, st: State): (r: (State, seq<Emitted>))
    ensures AllSynthesized(r.1) && WellTagged(r.1)
    ensures r.0.lastSent.Some? <==> st.lastSent.Some?
    ensures st.lastSent.None? ==> r.1 == []
    decreases |st.pending|
  {
    if st.pending == [] || !PointLess(st.pending[0], start) then (st, [])
    else if st.lastSent.None? then FlushBefore(start, State(None, st.pending[1..]))
    else
      var nls := GetNewLines(2, st.lastSent.value.end);
      var r := FlushBefore(start, State(Some(nls[1]), st.pending[1..]));
      (r.0, Synthesized(nls) + r.1)
  }

  /** How many owed breaks at the head of the queue lie before `start`. */
  function OwedBefore(start: Point, pending: seq<Point>): (n: nat)
    ensures n <= |pending|
  {
    if pending == [] || !PointLess(pending[0], start) then 0
    else 1 + OwedBefore(start, pending[1..])
  }

  /** The queue is first in, first out: the flush before a word removes
      exactly the leading breaks that lie before it, keeps the rest in order,
      and emits two newlines per removed break once something has been
      sent. */
  lemma {:induction false} FlushBeforeFifo(start: Point, st: State)
    ensures var n := OwedBefore(start, st.pending);
      FlushBefore(start, st).0.pending == st.pending[n..] &&
      (forall k :: 0 <= k < n ==> PointLess(st.pending[k], start)) &&
      (n < |st.pending| ==> !PointLess(st.pending[n], start)) &&
      |FlushBefore(start, st).1| == (if st.lastSent.Some? then 2 * n else 0)
    decreases |st.pending|
  {
    if st.pending != [] && PointLess(st.pending[0], start) {
      var last := if st.lastSent.None? then None else Some(GetNewLines(2, st.lastSent.value.end)[1]);
      FlushBeforeFifo(start, State(last, st.pending[1..]));
    }
  }

  /** The two newlines for a blank source row (latex.py:80-88). */
  function BlankLines(lines: seq<string>, lastSent: Option<TextNode>, start: Point): (r: (Option<TextNode>, seq<Emitted>))
    ensures AllSynthesized(r.1) && WellTagged(r.1)
    ensures r.0.Some? <==> lastSent.Some?
  {
    if BlankLineBetween(lines, lastSent, start) then
      var nls := GetNewLines(2, lastSent.value.end);
      (Some(nls[1]), Synthesized(nls))
    else (lastSent, [])
  }

  /** Every content capture starts on a row the source has. */
  ghost predicate ContentRowsIn(cs: seq<Capture>, lines: seq<string>) {
    forall k :: 0 <= k < |cs| && cs[k].kind == Content ==> cs[k].start.row < |lines|
  }

  /** One pass of the capture loop (latex.py:68-117). */
  function Step(c: Capture, lines: seq<string>, st: State): (r: (State, seq<Emitted>))
    requires c.kind == Content ==> c.start.row < |lines|
    ensures WellTagged(r.1)
    ensures st.lastSent.Some? ==> r.0.lastSent.Some?
  {
    if c.kind == NewlineBeforeAfter then
      var pending := st.pending + [c.end];
      if st.lastSent.None? then (State(None, pending), [])
      else
        var nls := GetNewLines(2, c.end);
        (State(Some(nls[1]), pending), Synthesized(nls))
    else
      var f := FlushBefore(c.start, st);
      var b := BlankLines(lines, f.0.lastSent, c.start);
      var sp := if NeedsSpaceBefore(c.start, lines, b.0) then [Emitted(SpaceBefore(c.start, b.0.value), true)] else [];
      (State(Some(FromCapture(c)), f.0.pending), f.1 + b.1 + sp + [Emitted(FromCapture(c), false)])
  }

  /** The capture loop over `cs` from state `st`. */
  function Run(cs: seq<Capture>, lines: seq<string>, st: State): (r: (State, seq<Emitted>))
    requires ContentRowsIn(cs, lines)
    ensures WellTagged(r.1)
    ensures st.lastSent.Some? ==> r.0.lastSent.Some?
  {
    if cs == [] then (st, [])
    else
      var prev := Run(cs[..|cs| - 1], lines, st);
      var step := Step(cs[|cs| - 1], lines, prev.0);
      (step.0, prev.1 + step.1)
  }

  /** The loop at latex.py:119-123: two newlines per break still owed, all
      after the last fragment that updated `last_sent`, which these do not
      update. */
  function FlushAll(lastSent: Option<TextNode>, n: nat): (r: seq<Emitted>)
    ensures |r| == (if lastSent.Some? then 2 * n else 0)
    ensures AllSynthesized(r) && WellTagged(r)
  {
    if n == 0 || lastSent.None? then []
    else Synthesized(GetNewLines(2, lastSent.value.end)) + FlushAll(lastSent, n - 1)
  }

  /** Everything the generator yields, tagged. */
  function Emit(cs: seq<Capture>, lines: seq<string>): seq<Emitted>
    requires ContentRowsIn(cs, lines)
  {
    var r := Run(cs, lines, Initial);
    r.1 + FlushAll(r.0.lastSent, |r.0.pending|)
  }

  /** The loop at latex.py:70-78, as the generator runs it. */
  method FlushOwedBreaks(start: Point, lastSent: Option<TextNode>, pending: seq<Point>)
    returns (lastSent': Option<TextNode>, pending': seq<Point>, out: seq<TextNode>)
    ensures State(lastSent', pending') == FlushBefore(start, State(lastSent, pending)).0
    ensures out == Nodes(FlushBefore(start, State(lastSent, pending)).1)
  {
    lastSent', pending', out := lastSent, pending, [];
    while |pending'| > 0
      invariant FlushBefore(start, State(lastSent', pending')).0 == FlushBefore(start, State(lastSent, pending)).0
      invariant out + Nodes(FlushBefore(start, State(lastSent', pending')).1)
        == Nodes(FlushBefore(start, State(lastSent, pending)).1)
      decreases |pending'|
    {
      if PointLess(pending'[0], start) {
        if lastSent'.Some? {
          var nls := GetNewLines(2, lastSent'.value.end);
          NodesSynthesized(nls);
          NodesAppend(Synthesized(nls), FlushBefore(start, State(Some(nls[1]), pending'[1..])).1);
          out := out + nls;
          lastSent' := Some(nls[1]);
        }
        pending' := pending'[1..];
      } else {
        break;
      }
    }
  }

  /** One word capture (latex.py:68-111): settle the owed breaks before it,
      the breaks for a blank source row, the joining space, then the word. */
  method EmitWord(c: Capture, lines: seq<string>, lastSent: Option<TextNode>, pending: seq<Point>)
    returns (lastSent': Option<TextNode>, pending': seq<Point>, out: seq<TextNode>)
    requires c.kind == Content && c.start.row < |lines|
    ensures State(lastSent', pending') == Step(c, lines, State(lastSent, pending)).0
    ensures out == Nodes(Step(c, lines, State(lastSent, pending)).1)
  {
    ghost var f := FlushBefore(c.start, State(lastSent, pending));
    lastSent', pending', out := FlushOwedBreaks(c.start, lastSent, pending);
    ghost var b := BlankLines(lines, lastSent', c.start);
    var blank: seq<TextNode> := [];
    if lastSent'.Some? && c.start.row - lastSent'.value.end.row > 1
      && "" in PySlice(lines, lastSent'.value.end.row + 1, c.start.row)
    {
      var nls := GetNewLines(2, lastSent'.value.end);
      NodesSynthesized(nls);
      blank := nls;
      lastSent' := Some(nls[1]);
    }
    assert lastSent' == b.0 && blank == Nodes(b.1);
    ghost var sp: seq<Emitted> := [];
    var space: seq<TextNode> := [];
    if NeedsSpaceBefore(c.start, lines, lastSent') {
      space := [SpaceBefore(c.start, lastSent'.value)];
      sp := [Emitted(space[0], true)];
    }
    var word := FromCapture(c);
    out := out + blank + space + [word];
    lastSent' := Some(word);
    NodesAppend(f.1, b.1);
    NodesAppend(f.1 + b.1, sp);
    NodesAppend(f.1 + b.1 + sp, [Emitted(word, false)]);
  }

  /** One capture of the loop at latex.py:67-117: a word, or a structure
      whose end point joins the queue and which is followed by two newlines
      once something has been sent. */
  method EmitCapture(c: Capture, lines: seq<string>, lastSent: Option<TextNode>, pending: seq<Point>)
    returns (lastSent': Option<TextNode>, pending': seq<Point>, out: seq<TextNode>)
    requires c.kind == Content ==> c.start.row < |lines|
    ensures State(lastSent', pending') == Step(c, lines, State(lastSent, pending)).0
    ensures out == Nodes(Step(c, lines, State(lastSent, pending)).1)
  {
    if c.kind == Content {
      lastSent', pending', out := EmitWord(c, lines, lastSent, pending);
    } else {
      lastSent', pending', out := lastSent, pending + [c.end], [];
      if lastSent.Some? {
        out := GetNewLines(2, c.end);
        NodesSynthesized(out);
        lastSent' := Some(out[1]);
      }
    }
  }

  /** The loop at latex.py:119-123. */
  method FlushRemaining(lastSent: Option<TextNode>, pending: seq<Point>) returns (out: seq<TextNode>)
    ensures out == Nodes(FlushAll(lastSent, |pending|))
  {
    var queue := pending;
    out := [];
    while |queue| > 0
      invariant out + Nodes(FlushAll(lastSent, |queue|)) == Nodes(FlushAll(lastSent, |pending|))
      decreases |queue|
    {
      ghost var later := FlushAll(lastSent, |queue| - 1);
      if lastSent.Some? {
        var nls := GetNewLines(2, lastSent.value.end);
        assert FlushAll(lastSent, |queue|) == Synthesized(nls) + later;
        assert Nodes(FlushAll(lastSent, |queue|)) == nls + Nodes(later) by {
          NodesSynthesized(nls);
          NodesAppend(Synthesized(nls), later);
        }
        out := out + nls;
      }
      queue := queue[1..];
      assert FlushAll(lastSent, |queue|) == later;
    }
  }

  /** _iterate_text_nodes (latex.py:61-123): the source is split on '\n'
      into rows, the captures are walked once, and the breaks still owed at
      the end are flushed. */
  method IterateTextNodes(captures: seq<Capture>, source: string) returns (out: seq<TextNode>)
    requires ContentRowsIn(captures, SplitNewline(source))
    ensures out == Nodes(Emit(captures, SplitNewline(source)))
  {
    var lines := SplitNewline(source);
    var lastSent: Option<TextNode> := None;
    var newLinesAfter: seq<Point> := [];
    out := [];
    for i := 0 to |captures|
      invariant ContentRowsIn(captures[..i], lines)
      invariant State(lastSent, newLinesAfter) == Run(captures[..i], lines, Initial).0
      invariant out == Nodes(Run(captures[..i], lines, Initial).1)
    {
      assert captures[..i + 1][..i] == captures[..i];
      ghost var prev := Run(captures[..i], lines, Initial);
      var emitted;
      lastSent, newLinesAfter, emitted := EmitCapture(captures[i], lines, lastSent, newLinesAfter);
      NodesAppend(prev.1, Step(captures[i], lines, prev.0).1);
      out := out + emitted;
    }
    assert captures[..|captures|] == captures;
    var rest := FlushRemaining(lastSent, newLinesAfter);
    NodesAppend(Run(captures, lines, Initial).1, FlushAll(lastSent, |newLinesAfter|));
    out := out + rest;
  }

  /** The words the captures hold, in capture order. */
  function ContentNodes(cs: seq<Capture>): seq<TextNode> {
    if cs == [] then []
    else if cs[|cs| - 1].kind == Content then ContentNodes(cs[..|cs| - 1]) + [FromCapture(cs[|cs| - 1])]
    else ContentNodes(cs[..|cs| - 1])
  }

  /** The fragments of `e` that were not made up, in order. */
  function Captured(e: seq<Emitted>): seq<TextNode> {
    if e == [] then []
    else if e[|e| - 1].synthesized then Captured(e[..|e| - 1])
    else Captured(e[..|e| - 1]) + [e[|e| - 1].node]
  }

  lemma {:induction false} CapturedAppend(a: seq<Emitted>, b: seq<Emitted>)
    ensures Captured(a + b) == Captured(a) + Captured(b)
    decreases |b|
  {
    if b == [] {
      assert a + b == a;
    } else {
      assert (a + b)[..|a + b| - 1] == a + b[..|b| - 1];
      CapturedAppend(a, b[..|b| - 1]);
    }
  }

  lemma {:induction false} CapturedSynthesized(e: seq<Emitted>)
    requires AllSynthesized(e)
    ensures Captured(e) == []
    decreases |e|
  {
    if e != [] {
      CapturedSynthesized(e[..|e| - 1]);
    }
  }

  /** Each word capture yields exactly one fragment, its node's text
      verbatim with its span, in capture order; everything else the
      emitter yields is made up. */
  lemma {:induction false} RunPassesWordsInOrder(cs: seq<Capture>, lines: seq<string>, st: State)
    requires ContentRowsIn(cs, lines)
    ensures Captured(Run(cs, lines, st).1) == ContentNodes(cs)
    decreases |cs|
  {
    if cs != [] {
      var init := cs[..|cs| - 1];
      var c := cs[|cs| - 1];
      assert ContentRowsIn(init, lines);
      RunPassesWordsInOrder(init, lines, st);
      var prev := Run(init, lines, st);
      var step := Step(c, lines, prev.0);
      CapturedAppend(prev.1, step.1);
      if c.kind == NewlineBeforeAfter {
        if prev.0.lastSent.Some? {
          CapturedSynthesized(step.1);
        }
      } else {
        var f := FlushBefore(c.start, prev.0);
        var b := BlankLines(lines, f.0.lastSent, c.start);
        var sp := if NeedsSpaceBefore(c.start, lines, b.0) then [Emitted(SpaceBefore(c.start, b.0.value), true)] else [];
        CapturedSynthesized(f.1);
        CapturedSynthesized(b.1);
        CapturedSynthesized(sp);
        CapturedAppend(f.1, b.1);
        CapturedAppend(f.1 + b.1, sp);
        CapturedAppend(f.1 + b.1 + sp, [Emitted(FromCapture(c), false)]);
        assert step.1 == f.1 + b.1 + sp + [Emitted(FromCapture(c), false)];
      }
    }
  }

  lemma WordsInOrder(cs: seq<Capture>, lines: seq<string>)
    requires ContentRowsIn(cs, lines)
    ensures Captured(Emit(cs, lines)) == ContentNodes(cs)
    ensures WellTagged(Emit(cs, lines))
  {
    var r := Run(cs, lines, Initial);
    RunPassesWordsInOrder(cs, lines, Initial);
    CapturedSynthesized(FlushAll(r.0.lastSent, |r.0.pending|));
    CapturedAppend(r.1, FlushAll(r.0.lastSent, |r.0.pending|));
  }

  /** From the start state, nothing has been sent exactly as long as
      `last_sent` is unset, and what is sent first is a word. */
  lemma {:induction false} RunStartsWithWord(cs: seq<Capture>, lines: seq<string>)
    requires ContentRowsIn(cs, lines)
    ensures Run(cs, lines, Initial).0.lastSent.None? <==> Run(cs, lines, Initial).1 == []
    ensures Run(cs, lines, Initial).1 != [] ==> !Run(cs, lines, Initial).1[0].synthesized
    decreases |cs|
  {
    if cs != [] {
      var init := cs[..|cs| - 1];
      var c := cs[|cs| - 1];
      assert ContentRowsIn(init, lines);
      RunStartsWithWord(init, lines);
      var prev := Run(init, lines, Initial);
      if c.kind == Content {
        var f := FlushBefore(c.start, prev.0);
        var b := BlankLines(lines, f.0.lastSent, c.start);
        if prev.0.lastSent.None? {
          assert f.1 == [] && b.1 == [];
        }
      }
    }
  }

  /** Nothing is made up before the first word: if anything is yielded, the
      first fragment is the first word capture's node. */
  lemma FirstFragmentIsWord(cs: seq<Capture>, lines: seq<string>)
    requires ContentRowsIn(cs, lines)
    ensures Emit(cs, lines) != [] ==> ContentNodes(cs) != [] && Emit(cs, lines)[0].node == ContentNodes(cs)[0]
  {
    var r := Run(cs, lines, Initial);
    RunStartsWithWord(cs, lines);
    WordsInOrder(cs, lines);
    var e := Emit(cs, lines);
    if e != [] {
      assert r.1 != [];
      assert !e[0].synthesized;
      CapturedFirst(e);
    }
  }

  /** When the first fragment is not made up, it heads the captured ones. */
  lemma {:induction false} CapturedFirst(e: seq<Emitted>)
    requires e != [] && !e[0].synthesized
    ensures Captured(e) != [] && Captured(e)[0] == e[0].node
    decreases |e|
  {
    if |e| > 1 {
      CapturedFirst(e[..|e| - 1]);
    }
  }
}
