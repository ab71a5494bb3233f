/** `ChangeTracker` (textLSP/documents/document.py:427-523): a run-length
    ledger of `(length, changed)` runs over a document's text, updated by
    each edit and read back as the list of changed intervals. A negative
    run length stands for deleted text. */
module ChangeTracking {
  import opened Wrappers
  import opened Lsp
  import opened Types

  /** One ledger entry: a span of `length` characters and whether it was
      edited. */
  datatype Run = Run(length: int, changed: bool)

  /** An edit as the client sends it: the whole new text, or a replacement
      of a range. Only the kind and the length of `text` matter to the
      ledger; the range arrives as the two offsets the document computes
      for it. */
  datatype ChangeEvent =
    | FullChange(text: string)
    | RangeChange(range: Range, text: string)

  /** Total length covered by the runs. */
  function Span(runs: seq<Run>): int {
    if runs == [] then 0 else Span(runs[..|runs| - 1]) + runs[|runs| - 1].length
  }

  lemma {:induction false} SpanAppend(a: seq<Run>, b: seq<Run>)
    ensures Span(a + b) == Span(a) + Span(b)
    decreases |b|
  {
    if b == [] {
      assert a + b == a;
    } else {
      var b' := b[..|b| - 1];
      assert (a + b)[..|a + b| - 1] == a + b';
      SpanAppend(a, b');
    }
  }

  lemma SpanStep(runs: seq<Run>, j: nat)
    requires j < |runs|
    ensures Span(runs[..j + 1]) == Span(runs[..j]) + runs[j].length
  {
    assert runs[..j + 1][..j] == runs[..j];
  }

  /** Where run `j` ends. */
  function EndOf(runs: seq<Run>, j: nat): int
    requires j < |runs|
  {
    Span(runs[..j + 1])
  }

  /** Number of runs flagged changed. */
  function CountChanged(runs: seq<Run>): nat {
    if runs == [] then 0
    else CountChanged(runs[..|runs| - 1]) + (if runs[|runs| - 1].changed then 1 else 0)
  }

  /** `(idx, pos)` is where the scan of `_get_offset_idx` stops for
      `offset`: `pos` is the start of run `idx`, every earlier run ends at
      or before `offset`, and run `idx` is the last one or reaches past
      `offset`. */
  predicate IsOffsetIdx(runs: seq<Run>, offset: nat, idx: nat, pos: int) {
    idx < |runs| && pos == Span(runs[..idx]) &&
    (forall j :: 0 <= j < idx ==> EndOf(runs, j) <= offset) &&
    (idx + 1 == |runs| || EndOf(runs, idx) > offset)
  }

  lemma OffsetIdxUnique(runs: seq<Run>, offset: nat, i: nat, p: int, i': nat, p': int)
    requires IsOffsetIdx(runs, offset, i, p) && IsOffsetIdx(runs, offset, i', p')
    ensures i == i' && p == p'
  {
  }

  /** The scan of `_get_offset_idx` as written (document.py:480-488): it
      walks past every run that ends at or before `offset` and indexes the
      run list without a bound check. */
  function OffsetIdxAsWrittenFrom(runs: seq<Run>, offset: nat, idx: nat, pos: int): Result<(nat, int)>
    requires idx <= |runs|
    decreases |runs| - idx
  {
    if !(pos <= offset) then Returns((idx, pos))
    else if idx == |runs| then Raises(IndexError)
    else if pos + runs[idx].length <= offset then OffsetIdxAsWrittenFrom(runs, offset, idx + 1, pos + runs[idx].length)
    else Returns((idx, pos))
  }

  /** Where the scan as written returns, it has found the run holding
      `offset` and the offset that run starts at; otherwise it raises
      `IndexError`. */
  function OffsetIdxAsWritten(runs: seq<Run>, offset: nat): (r: Result<(nat, int)>)
    ensures r.Raises? ==> r.exception == IndexError
    ensures r.Returns? ==> IsOffsetIdx(runs, offset, r.value.0, r.value.1) && EndOf(runs, r.value.0) > offset
  {
    AsWrittenFromFinds(runs, offset, 0, 0);
    OffsetIdxAsWrittenFrom(runs, offset, 0, 0)
  }

  lemma {:induction false} AsWrittenFromFinds(runs: seq<Run>, offset: nat, idx: nat, pos: int)
    requires ScannedTo(runs, offset, idx, pos)
    ensures var r := OffsetIdxAsWrittenFrom(runs, offset, idx, pos);
      (r.Raises? ==> r.exception == IndexError) &&
      (r.Returns? ==> IsOffsetIdx(runs, offset, r.value.0, r.value.1) && EndOf(runs, r.value.0) > offset)
    decreases |runs| - idx
  {
    assert pos <= offset by {
      if idx > 0 {
        assert EndOf(runs, idx - 1) <= offset;
      }
    }
    if idx < |runs| {
      SpanStep(runs, idx);
      if pos + runs[idx].length <= offset {
        AsWrittenFromFinds(runs, offset, idx + 1, pos + runs[idx].length);
      }
    }
  }

  /** The scan with the bound check it lacks: it stops at the last run. */
  function OffsetIdxFrom(runs: seq<Run>, offset: nat, idx: nat, pos: int): (r: (nat, int))
    requires idx < |runs|
    ensures idx <= r.0 < |runs|
    decreases |runs| - idx
  {
    if pos <= offset && idx + 1 < |runs| && pos + runs[idx].length <= offset
    then OffsetIdxFrom(runs, offset, idx + 1, pos + runs[idx].length)
    else (idx, pos)
  }

  function OffsetIdx(runs: seq<Run>, offset: nat): (r: (nat, int))
    requires |runs| >= 1
    ensures r.0 < |runs|
  {
    OffsetIdxFrom(runs, offset, 0, 0)
  }

  /** The scan state part-way through: every run before `idx` ends at or
      before `offset`, and `pos` is where run `idx` starts. */
  predicate ScannedTo(runs: seq<Run>, offset: nat, idx: nat, pos: int) {
    idx <= |runs| && pos == Span(runs[..idx]) &&
    forall j :: 0 <= j < idx ==> EndOf(runs, j) <= offset
  }

  lemma {:induction false} OffsetIdxFromStops(runs: seq<Run>, offset: nat, idx: nat, pos: int)
    requires idx < |runs| && ScannedTo(runs, offset, idx, pos)
    ensures IsOffsetIdx(runs, offset, OffsetIdxFrom(runs, offset, idx, pos).0, OffsetIdxFrom(runs, offset, idx, pos).1)
    decreases |runs| - idx
  {
    SpanStep(runs, idx);
    assert pos <= offset by {
      if idx > 0 {
        assert EndOf(runs, idx - 1) <= offset;
      }
    }
    if idx + 1 < |runs| && pos + runs[idx].length <= offset {
      OffsetIdxFromStops(runs, offset, idx + 1, pos + runs[idx].length);
    }
  }

  /** The corrected scan finds the run holding `offset`. */
  lemma OffsetIdxFinds(runs: seq<Run>, offset: nat)
    requires |runs| >= 1
    ensures IsOffsetIdx(runs, offset, OffsetIdx(runs, offset).0, OffsetIdx(runs, offset).1)
  {
    OffsetIdxFromStops(runs, offset, 0, 0);
  }

  lemma {:induction false} AsWrittenFromAgrees(runs: seq<Run>, offset: nat, idx: nat, pos: int)
    requires idx < |runs| && ScannedTo(runs, offset, idx, pos)
    requires OffsetIdxAsWrittenFrom(runs, offset, idx, pos).Returns?
    ensures OffsetIdxAsWrittenFrom(runs, offset, idx, pos).value == OffsetIdxFrom(runs, offset, idx, pos)
    decreases |runs| - idx
  {
    SpanStep(runs, idx);
    assert pos <= offset by {
      if idx > 0 {
        assert EndOf(runs, idx - 1) <= offset;
      }
    }
    if pos + runs[idx].length <= offset {
      AsWrittenFromAgrees(runs, offset, idx + 1, pos + runs[idx].length);
    }
  }

  /** Wherever the scan as written returns, the corrected scan returns the
      same index and run start. */
  lemma OffsetIdxAgreesWithAsWritten(runs: seq<Run>, offset: nat)
    requires |runs| >= 1 && OffsetIdxAsWritten(runs, offset).Returns?
    ensures OffsetIdxAsWritten(runs, offset).value == OffsetIdx(runs, offset)
  {
    AsWrittenFromAgrees(runs, offset, 0, 0);
  }

  lemma {:induction false} AsWrittenFromRaises(runs: seq<Run>, offset: nat, idx: nat, pos: int)
    requires ScannedTo(runs, offset, idx, pos)
    ensures OffsetIdxAsWrittenFrom(runs, offset, idx, pos).Raises? <==>
      forall j :: idx <= j < |runs| ==> EndOf(runs, j) <= offset
    decreases |runs| - idx
  {
    assert pos <= offset by {
      if idx > 0 {
        assert EndOf(runs, idx - 1) <= offset;
      }
    }
    if idx < |runs| {
      SpanStep(runs, idx);
      assert EndOf(runs, idx) == pos + runs[idx].length;
      if pos + runs[idx].length <= offset {
        AsWrittenFromRaises(runs, offset, idx + 1, pos + runs[idx].length);
      }
    }
  }

  /** The scan as written fails exactly when every run ends at or before
      `offset`: the edit starts at or past the end of the ledger. */
  lemma AsWrittenRaisesIff(runs: seq<Run>, offset: nat)
    ensures OffsetIdxAsWritten(runs, offset).Raises? <==>
      forall j :: 0 <= j < |runs| ==> EndOf(runs, j) <= offset
  {
    AsWrittenFromRaises(runs, offset, 0, 0);
  }

  /** A fresh ledger over a two-character text: an edit at offset 2, the end
      of the text, makes the scan as written raise `IndexError`. */
  lemma AsWrittenRaisesAtEnd()
    ensures OffsetIdxAsWritten([Run(2, false)], 2) == Raises(IndexError)
  {
    AsWrittenRaisesIff([Run(2, false)], 2);
    assert Span([Run(2, false)][..0 + 1]) == 2;
  }

  /** The runs `update_document` puts in place of run `idx` that starts at
      `itemOffset` (document.py:463-478): the part of the run before the
      edit if it is not empty, the changed run, and the rest of the run if
      the edit ends before the end of the text. */
  function EditRuns(run: Run, itemOffset: int, startOffset: nat, endOffset: nat, changeLength: nat, docLen: nat): (r: seq<Run>)
    ensures var p := if startOffset - itemOffset > 0 then 1 else 0;
      |r| == p + 1 + (if endOffset < docLen then 1 else 0) &&
      r[p].changed &&
      (forall k :: 0 <= k < |r| && k != p ==> r[k].changed == run.changed) &&
      (p == 1 ==> r[0].length == startOffset - itemOffset)
  {
    var inRun := startOffset - itemOffset;
    var rangeLength := endOffset - startOffset;
    var prefix := if inRun > 0 then [Run(inRun, run.changed)] else [];
    var effective := if changeLength >= rangeLength then changeLength else changeLength - rangeLength;
    var edited := [Run(Max(effective, -itemOffset), true)];
    var suffix := if endOffset < docLen then [Run(run.length - inRun - rangeLength, run.changed)] else [];
    prefix + edited + suffix
  }

  function Max(a: int, b: int): int {
    if a >= b then a else b
  }

  /** `runs` with run `idx` replaced by `tuples`, as `_replace_at` leaves it. */
  function ReplacedAt(runs: seq<Run>, idx: nat, tuples: seq<Run>): (r: seq<Run>)
    requires idx < |runs|
    ensures |r| == |runs| - 1 + |tuples|
    ensures r[..idx] == runs[..idx] && r[idx..idx + |tuples|] == tuples && r[idx + |tuples|..] == runs[idx + 1..]
  {
    runs[..idx] + tuples + runs[idx + 1..]
  }

  /** The interval `get_changes` reports for a changed run starting at
      `pos` (document.py:510-517). */
  function Report(run: Run, pos: int, docLen: nat): (r: Interval)
    ensures run.length >= 0 ==> r.length == run.length && r.start <= pos && (pos < docLen ==> r.start == pos)
    ensures run.length >= 0 && pos >= docLen ==> r.start == docLen - 1
    ensures run.length < 0 ==> 0 <= r.start && pos + run.length <= r.start && r.length <= -run.length
    ensures run.length < 0 && pos <= docLen ==> r.length >= 0
  {
    if run.length < 0 then Interval(Max(0, pos + run.length), Min(-run.length, docLen - pos))
    else Interval(Min(pos, docLen - 1), run.length)
  }

  function Min(a: int, b: int): int {
    if a <= b then a else b
  }

  /** `get_changes` over a ledger with no full-document change: one interval
      per changed run, in run order. */
  function Changes(runs: seq<Run>, docLen: nat): seq<Interval> {
    if runs == [] then []
    else
      var init := runs[..|runs| - 1];
      var last := runs[|runs| - 1];
      Changes(init, docLen) + (if last.changed then [Report(last, Span(init), docLen)] else [])
  }

  /** One interval per changed run. */
  lemma {:induction false} ChangesCount(runs: seq<Run>, docLen: nat)
    ensures |Changes(runs, docLen)| == CountChanged(runs)
  {
    if runs != [] {
      ChangesCount(runs[..|runs| - 1], docLen);
    }
  }

  lemma {:induction false} ChangesPrefix(runs: seq<Run>, docLen: nat, j: nat)
    requires j <= |runs|
    ensures Changes(runs[..j], docLen) <= Changes(runs, docLen)
    decreases |runs|
  {
    if j < |runs| {
      var init := runs[..|runs| - 1];
      assert runs[..j] == init[..j];
      ChangesPrefix(init, docLen, j);
    } else {
      assert runs[..j] == runs;
    }
  }

  /** The changed run `k` is reported as the interval after those of the
      changed runs before it, at the position where the run starts. */
  lemma ChangesInRunOrder(runs: seq<Run>, docLen: nat, k: nat)
    requires k < |runs| && runs[k].changed
    ensures CountChanged(runs[..k]) < |Changes(runs, docLen)|
    ensures Changes(runs, docLen)[CountChanged(runs[..k])] == Report(runs[k], Span(runs[..k]), docLen)
  {
    var pre := runs[..k + 1];
    assert pre[..|pre| - 1] == runs[..k];
    ChangesCount(runs[..k], docLen);
    ChangesPrefix(runs, docLen, k + 1);
  }

  class ChangeTracker {
    /** `_items`: the runs, in text order. */
    var items: seq<Run>
    var fullDocumentChange: bool

    predicate Valid()
      reads this
    {
      |items| >= 1
    }

    /** `__init__` (document.py:428-435), given the length of the tracked
        text. */
    constructor(docLength: nat)
      ensures Valid()
      ensures items == [Run(docLength, false)] && !fullDocumentChange
    {
      items := [Run(docLength, false)];
      fullDocumentChange := false;
    }

    /** `__len__` (document.py:522-523): the number of changed runs. */
    function Len(): (n: nat)
      reads this
      ensures n <= |items|
      ensures n == 0 <==> forall k :: 0 <= k < |items| ==> !items[k].changed
    {
      CountChangedBounds(items);
      CountChanged(items)
    }

    /** `_get_offset_idx` (document.py:480-488) with the bound check that
        keeps it on the last run where the source raises `IndexError`. */
    method GetOffsetIdx(offset: nat) returns (idx: nat, pos: int)
      requires Valid()
      ensures (idx, pos) == OffsetIdx(items, offset)
      ensures IsOffsetIdx(items, offset, idx, pos)
      ensures OffsetIdxAsWritten(items, offset).Returns? ==> OffsetIdxAsWritten(items, offset).value == (idx, pos)
    {
      OffsetIdxFinds(items, offset);
      if OffsetIdxAsWritten(items, offset).Returns? {
        OffsetIdxAgreesWithAsWritten(items, offset);
      }
      pos := 0;
      idx := 0;
      while pos <= offset && idx + 1 < |items| && pos + items[idx].length <= offset
        invariant idx < |items|
        invariant OffsetIdxFrom(items, offset, idx, pos) == OffsetIdx(items, offset)
        decreases |items| - idx
      {
        pos := pos + items[idx].length;
        idx := idx + 1;
      }
    }

    /** `_replace_at` (document.py:490-495): run `idx` becomes the first of
        `tuples` and the others are inserted after it. */
    method ReplaceAt(idx: nat, tuples: seq<Run>)
      requires Valid() && idx < |items| && |tuples| > 0
      modifies this
      ensures Valid()
      ensures items == ReplacedAt(old(items), idx, tuples)
      ensures fullDocumentChange == old(fullDocumentChange)
    {
      ghost var before := items;
      items := items[idx := tuples[0]];
      for i := 1 to |tuples|
        invariant items == before[..idx] + tuples[..i] + before[idx + 1..]
        invariant fullDocumentChange == old(fullDocumentChange)
      {
        items := items[..idx + i] + [tuples[i]] + items[idx + i..];
        assert tuples[..i + 1] == tuples[..i] + [tuples[i]];
      }
      assert tuples[..|tuples|] == tuples;
    }

    /** `update_document` (document.py:437-478), given the offsets the
        document computes for the change's range and the current text
        length. */
    method UpdateDocument(change: ChangeEvent, startOffset: nat, endOffset: nat, docLen: nat)
      requires Valid()
      modifies this
      ensures Valid()
      ensures old(fullDocumentChange) ==> items == old(items) && fullDocumentChange
      ensures !old(fullDocumentChange) && change.FullChange? ==>
        items == [Run(-1, true)] && fullDocumentChange
      ensures !old(fullDocumentChange) && change.RangeChange? ==>
        var idx := OffsetIdx(old(items), startOffset).0;
        items == ReplacedAt(old(items), idx, EditRuns(old(items)[idx], OffsetIdx(old(items), startOffset).1, startOffset, endOffset, |change.text|, docLen))
        && !fullDocumentChange
    {
      if fullDocumentChange {
        return;
      }
      if change.FullChange? {
        fullDocumentChange := true;
        items := [Run(-1, true)];
        return;
      }
      var idx, itemOffset := GetOffsetIdx(startOffset);
      var tuples := EditRuns(items[idx], itemOffset, startOffset, endOffset, |change.text|, docLen);
      ReplaceAt(idx, tuples);
    }

    /** `get_changes` (document.py:497-520), given the current text
        length. */
    method GetChanges(docLen: nat) returns (res: seq<Interval>)
      ensures fullDocumentChange ==> res == [Interval(0, docLen)]
      ensures !fullDocumentChange ==> res == Changes(items, docLen)
    {
      if fullDocumentChange {
        return [Interval(0, docLen)];
      }
      res := [];
      var pos := 0;
      for i := 0 to |items|
        invariant res == Changes(items[..i], docLen) && pos == Span(items[..i])
      {
        var item := items[i];
        assert items[..i + 1][..i] == items[..i];
        if item.changed {
          res := res + [Report(item, pos, docLen)];
        }
        pos := pos + item.length;
      }
      assert items[..|items|] == items;
    }
  }

  lemma {:induction false} CountChangedBounds(runs: seq<Run>)
    ensures CountChanged(runs) <= |runs|
    ensures CountChanged(runs) == 0 <==> forall k :: 0 <= k < |runs| ==> !runs[k].changed
  {
    if runs != [] {
      var init := runs[..|runs| - 1];
      CountChangedBounds(init);
      assert forall k :: 0 <= k < |init| ==> init[k] == runs[k];
    }
  }

  /** Only run `idx` is replaced: the runs before it and after it keep their
      places and the ledger covers the same span apart from the
      replacement. */
  lemma ReplacedAtSpan(runs: seq<Run>, idx: nat, tuples: seq<Run>)
    requires idx < |runs|
    ensures Span(ReplacedAt(runs, idx, tuples)) == Span(runs) - runs[idx].length + Span(tuples)
  {
    assert runs == runs[..idx] + [runs[idx]] + runs[idx + 1..];
    SpanAppend(runs[..idx] + [runs[idx]], runs[idx + 1..]);
    SpanAppend(runs[..idx], [runs[idx]]);
    assert [runs[idx]][..0] == [];
    SpanAppend(runs[..idx] + tuples, runs[idx + 1..]);
    SpanAppend(runs[..idx], tuples);
  }

  /** The span of the ledger after an edit at the run the scan finds:
      the replacement keeps the run's length, adds the changed run's length
      and takes off the range length once more for the kept rest of the
      run. */
  lemma {:induction false} EditSpan(runs: seq<Run>, startOffset: nat, endOffset: nat, changeLength: nat, docLen: nat)
    requires |runs| >= 1 && endOffset < docLen
    ensures
      var idx := OffsetIdx(runs, startOffset).0;
      var itemOffset := OffsetIdx(runs, startOffset).1;
      var rangeLength := endOffset - startOffset;
      var effective := if changeLength >= rangeLength then changeLength else changeLength - rangeLength;
      Span(ReplacedAt(runs, idx, EditRuns(runs[idx], itemOffset, startOffset, endOffset, changeLength, docLen)))
        == Span(runs) + Max(effective, -itemOffset) - rangeLength
  {
    var idx := OffsetIdx(runs, startOffset).0;
    var itemOffset := OffsetIdx(runs, startOffset).1;
    OffsetIdxFinds(runs, startOffset);
    assert itemOffset <= startOffset by {
      if idx > 0 {
        assert EndOf(runs, idx - 1) <= startOffset;
      }
    }
    var tuples := EditRuns(runs[idx], itemOffset, startOffset, endOffset, changeLength, docLen);
    ReplacedAtSpan(runs, idx, tuples);
    SpanOfEdit(runs[idx], itemOffset, startOffset, endOffset, changeLength, docLen);
  }

  /** The span of the replacement runs when the rest of the run is kept. */
  lemma SpanOfEdit(run: Run, itemOffset: int, startOffset: nat, endOffset: nat, changeLength: nat, docLen: nat)
    requires itemOffset <= startOffset && endOffset < docLen
    ensures
      var rangeLength := endOffset - startOffset;
      var effective := if changeLength >= rangeLength then changeLength else changeLength - rangeLength;
      Span(EditRuns(run, itemOffset, startOffset, endOffset, changeLength, docLen))
        == run.length + Max(effective, -itemOffset) - rangeLength
  {
    var inRun := startOffset - itemOffset;
    var rangeLength := endOffset - startOffset;
    var prefix: seq<Run> := if inRun > 0 then [Run(inRun, run.changed)] else [];
    var effective := if changeLength >= rangeLength then changeLength else changeLength - rangeLength;
    var edited := Run(Max(effective, -itemOffset), true);
    var suffix := Run(run.length - inRun - rangeLength, run.changed);
    assert EditRuns(run, itemOffset, startOffset, endOffset, changeLength, docLen) == prefix + [edited] + [suffix];
    SpanAppend(prefix + [edited], [suffix]);
    SpanAppend(prefix, [edited]);
    SpanSingle(edited);
    SpanSingle(suffix);
    if inRun > 0 {
      SpanSingle(prefix[0]);
    }
  }

  lemma SpanSingle(x: Run)
    ensures Span([x]) == x.length
  {
    assert [x][..0] == [];
  }

  /** An edit that inserts at least as many characters as it removes, ends
      before the end of the text and is not cut short by the clamp to
      `-item_offset` changes the ledger's span by exactly the change in the
      text's length. */
  lemma GrowingEditConservesSpan(runs: seq<Run>, startOffset: nat, endOffset: nat, changeLength: nat, docLen: nat)
    requires |runs| >= 1
    requires changeLength >= endOffset - startOffset && endOffset < docLen
    requires changeLength >= -OffsetIdx(runs, startOffset).1
    ensures
      var idx := OffsetIdx(runs, startOffset).0;
      var itemOffset := OffsetIdx(runs, startOffset).1;
      Span(ReplacedAt(runs, idx, EditRuns(runs[idx], itemOffset, startOffset, endOffset, changeLength, docLen)))
        == Span(runs) + changeLength - (endOffset - startOffset)
  {
    EditSpan(runs, startOffset, endOffset, changeLength, docLen);
  }

  /** A shrinking edit is recorded as a negative run and also shortens the
      rest of the run: the span drops by twice the removed length less the
      inserted one, unless the clamp to `-item_offset` applies. */
  lemma ShrinkingEditSpan(runs: seq<Run>, startOffset: nat, endOffset: nat, changeLength: nat, docLen: nat)
    requires |runs| >= 1
    requires changeLength < endOffset - startOffset && endOffset < docLen
    requires changeLength - (endOffset - startOffset) >= -OffsetIdx(runs, startOffset).1
    ensures
      var idx := OffsetIdx(runs, startOffset).0;
      var itemOffset := OffsetIdx(runs, startOffset).1;
      Span(ReplacedAt(runs, idx, EditRuns(runs[idx], itemOffset, startOffset, endOffset, changeLength, docLen)))
        == Span(runs) + changeLength - 2 * (endOffset - startOffset)
  {
    EditSpan(runs, startOffset, endOffset, changeLength, docLen);
  }
}
