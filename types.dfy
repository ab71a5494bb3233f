/** The value types and the interval index of textLSP/types.py. */
module Types {
  import opened Wrappers
  import opened Lsp
  import opened Bisect
  import Sorting

  /** Six equally long columns read as one sequence of rows. */
  ghost function Zip(a: seq<int>, b: seq<int>, c: seq<nat>, d: seq<nat>, e: seq<nat>, f: seq<int>)
    : (r: seq<(int, int, nat, nat, nat, int)>)
    requires |b| == |a| && |c| == |a| && |d| == |a| && |e| == |a| && |f| == |a|
    ensures |r| == |a|
  {
    seq(|a|, k requires 0 <= k < |a| => (a[k], b[k], c[k], d[k], e[k], f[k]))
  }

  /** Gathering six columns through the argsort of the first one
      rearranges their rows, losing and adding none. */
  lemma ArgsortPermutesRows(a: seq<int>, b: seq<int>, c: seq<nat>, d: seq<nat>, e: seq<nat>, f: seq<int>)
    requires |b| == |a| && |c| == |a| && |d| == |a| && |e| == |a| && |f| == |a|
    ensures var idx := Sorting.Argsort(a, |a|);
      multiset(Zip(Sorting.Gather(a, idx), Sorting.Gather(b, idx), Sorting.Gather(c, idx),
                   Sorting.Gather(d, idx), Sorting.Gather(e, idx), Sorting.Gather(f, idx)))
      == multiset(Zip(a, b, c, d, e, f))
  {
    var idx := Sorting.Argsort(a, |a|);
    var rows := Zip(a, b, c, d, e, f);
    assert multiset(Sorting.Gather(rows, idx)) == multiset(rows) by {
      Sorting.GatherArgsort(a, rows, |a|);
      assert rows[..|a|] == rows;
    }
    GatherZip(a, b, c, d, e, f, idx);
  }

  /** Gathering each column is gathering the rows. */
  lemma GatherZip(a: seq<int>, b: seq<int>, c: seq<nat>, d: seq<nat>, e: seq<nat>, f: seq<int>, idx: seq<nat>)
    requires |b| == |a| && |c| == |a| && |d| == |a| && |e| == |a| && |f| == |a|
    requires forall k :: 0 <= k < |idx| ==> idx[k] < |a|
    ensures Zip(Sorting.Gather(a, idx), Sorting.Gather(b, idx), Sorting.Gather(c, idx),
                Sorting.Gather(d, idx), Sorting.Gather(e, idx), Sorting.Gather(f, idx))
      == Sorting.Gather(Zip(a, b, c, d, e, f), idx)
  {
  }

  /** A (start, length) span of one text. */
  datatype Interval = Interval(start: int, length: int)

  /** Interval.__eq__: same start and same length. */
  predicate IntervalEq(a: Interval, b: Interval) {
    a.start == b.start && a.length == b.length
  }

  /** Interval.__hash__ hashes the pair (start, length). The pair is the
      hash key; Python's hash of it may still collide for distinct pairs. */
  function IntervalHashKey(i: Interval): (int, int) {
    (i.start, i.length)
  }

  /** Interval.__gt__ compares starts only. */
  predicate IntervalGt(a: Interval, b: Interval) {
    a.start > b.start
  }

  /** Equality is equality of both fields, and two intervals have equal
      hash keys, the pair `__hash__` hashes, exactly when they are equal. */
  lemma IntervalEqHash(a: Interval, b: Interval)
    ensures IntervalEq(a, b) <==> a == b
    ensures IntervalEq(a, b) <==> IntervalHashKey(a) == IntervalHashKey(b)
  {
  }

  /** `>` is a strict order on starts that ignores lengths: two intervals
      with the same start are unordered even when their lengths differ. */
  lemma IntervalGtIgnoresLength(a: Interval, b: Interval, c: Interval)
    ensures !IntervalGt(a, a)
    ensures IntervalGt(a, b) && IntervalGt(b, c) ==> IntervalGt(a, c)
    ensures !IntervalGt(a, b) && !IntervalGt(b, a) <==> a.start == b.start
    ensures IntervalEq(a, b) ==> !IntervalGt(a, b) && !IntervalGt(b, a)
  {
  }

  /** An offset span of the cleaned text, the source range it came from and
      its payload (the fragment text). */
  datatype OffsetPositionInterval = OffsetPositionInterval(
    offsetInterval: Interval, positionRange: Range, value: string)

  /** The interval index: seven parallel columns, one entry per index. The
      end character is stored one less than the position's character. */
  class OffsetPositionIntervalList {
    var offsetStart: seq<int>
    var offsetEnd: seq<int>
    var positionStartLine: seq<nat>
    var positionStartCharacter: seq<nat>
    var positionEndLine: seq<nat>
    var positionEndCharacter: seq<int>
    var value: seq<string>

    /** All columns have one element per entry; a stored end character is
        a position's character minus one, so it is at least -1. */
    ghost predicate Valid()
      reads this
    {
      |offsetEnd| == |offsetStart| && |positionStartLine| == |offsetStart| &&
      |positionStartCharacter| == |offsetStart| && |positionEndLine| == |offsetStart| &&
      |positionEndCharacter| == |offsetStart| && |value| == |offsetStart| &&
      forall k :: 0 <= k < |positionEndCharacter| ==> positionEndCharacter[k] >= -1
    }

    constructor ()
      ensures Valid() && Len() == 0
    {
      offsetStart, offsetEnd := [], [];
      positionStartLine, positionStartCharacter := [], [];
      positionEndLine, positionEndCharacter := [], [];
      value := [];
    }

    /** __len__ */
    function Len(): nat
      reads this
    {
      |offsetStart|
    }

    /** The entries' six coordinates, row by row, without their payloads. */
    ghost function Rows(): seq<(int, int, nat, nat, nat, int)>
      reads this
      requires Valid()
    {
      Zip(offsetStart, offsetEnd, positionStartLine, positionStartCharacter,
          positionEndLine, positionEndCharacter)
    }

    /** get_interval (types.py:83-100): rebuild entry `idx`. */
    function GetInterval(idx: nat): (r: OffsetPositionInterval)
      reads this
      requires Valid() && idx < Len()
      ensures r.offsetInterval.start + r.offsetInterval.length - 1 == offsetEnd[idx]
      ensures r.positionRange.end.character - 1 == positionEndCharacter[idx]
    {
      OffsetPositionInterval(
        Interval(offsetStart[idx], offsetEnd[idx] - offsetStart[idx] + 1),
        Range(Position(positionStartLine[idx], positionStartCharacter[idx]),
              Position(positionEndLine[idx], positionEndCharacter[idx] + 1)),
        value[idx])
    }

    /** add_interval_values (types.py:54-70): append one element to each
        column, the end character minus one. Reading the new entry back
        gives the values passed in: offsets become (start, end - start + 1),
        and the end character comes back unchanged. */
    method AddIntervalValues(
      offsetStart': int, offsetEnd': int,
      startLine: nat, startCharacter: nat, endLine: nat, endCharacter: nat,
      value': string)
      requires Valid()
      modifies this
      ensures Valid() && Len() == old(Len()) + 1
      ensures offsetStart == old(offsetStart) + [offsetStart']
      ensures offsetEnd == old(offsetEnd) + [offsetEnd']
      ensures positionStartLine == old(positionStartLine) + [startLine]
      ensures positionStartCharacter == old(positionStartCharacter) + [startCharacter]
      ensures positionEndLine == old(positionEndLine) + [endLine]
      ensures positionEndCharacter == old(positionEndCharacter) + [endCharacter - 1]
      ensures value == old(value) + [value']
      ensures GetInterval(Len() - 1) == OffsetPositionInterval(
        Interval(offsetStart', offsetEnd' - offsetStart' + 1),
        Range(Position(startLine, startCharacter), Position(endLine, endCharacter)),
        value')
      ensures forall k :: 0 <= k < old(Len()) ==> GetInterval(k) == old(GetInterval(k))
    {
      offsetStart := offsetStart + [offsetStart'];
      offsetEnd := offsetEnd + [offsetEnd'];
      positionStartLine := positionStartLine + [startLine];
      positionStartCharacter := positionStartCharacter + [startCharacter];
      positionEndLine := positionEndLine + [endLine];
      positionEndCharacter := positionEndCharacter + [endCharacter - 1];
      value := value + [value'];
    }

    /** The `values` property (types.py:105-107): the payloads in the order
        they were added. */
    function Values(): (r: seq<string>)
      reads this
      requires Valid()
      ensures |r| == Len()
      ensures forall k :: 0 <= k < Len() ==> r[k] == GetInterval(k).value
    {
      value
    }

    /** sort (types.py:109-140): one stable argsort of the start offsets
        rearranges the six coordinate columns; the payload column is left
        where it was. */
    method Sort()
      requires Valid()
      modifies this
      ensures Valid() && Len() == old(Len())
      ensures forall k, l :: 0 <= k <= l < Len() ==> offsetStart[k] <= offsetStart[l]
      ensures multiset(Rows()) == multiset(old(Rows()))
      ensures value == old(value)
      ensures var idx := Sorting.Argsort(old(offsetStart), old(Len()));
        offsetStart == Sorting.Gather(old(offsetStart), idx) &&
        offsetEnd == Sorting.Gather(old(offsetEnd), idx) &&
        positionStartLine == Sorting.Gather(old(positionStartLine), idx) &&
        positionStartCharacter == Sorting.Gather(old(positionStartCharacter), idx) &&
        positionEndLine == Sorting.Gather(old(positionEndLine), idx) &&
        positionEndCharacter == Sorting.Gather(old(positionEndCharacter), idx)
    {
      var indices := Sorting.Argsort(offsetStart, |offsetStart|);
      Sorting.ArgsortGathersAscending(offsetStart);
      ArgsortPermutesRows(offsetStart, offsetEnd, positionStartLine, positionStartCharacter,
        positionEndLine, positionEndCharacter);
      offsetStart := Sorting.Gather(offsetStart, indices);
      offsetEnd := Sorting.Gather(offsetEnd, indices);
      positionStartLine := Sorting.Gather(positionStartLine, indices);
      positionStartCharacter := Sorting.Gather(positionStartCharacter, indices);
      positionEndLine := Sorting.Gather(positionEndLine, indices);
      positionEndCharacter := Sorting.Gather(positionEndCharacter, indices);
      assert forall k :: 0 <= k < |positionEndCharacter| ==> positionEndCharacter[k] >= -1;
    }

    /** Entry `k` covers `offset`. */
    predicate ContainsOffset(k: nat, offset: int)
      reads this
      requires Valid() && k < Len()
    {
      offsetStart[k] <= offset <= offsetEnd[k]
    }

    /** get_idx_at_offset (types.py:142-150): the entry at the bisect_left
        position over end offsets, if it covers `offset`. */
    function GetIdxAtOffset(offset: int): (r: Option<nat>)
      reads this
      requires Valid()
      ensures r.Some? ==> r.value < Len() && ContainsOffset(r.value, offset)
      ensures r.Some? ==> r.value == BisectLeft(offsetEnd, offset)
      ensures r.None? <==>
        BisectLeft(offsetEnd, offset) == Len() || !ContainsOffset(BisectLeft(offsetEnd, offset), offset)
    {
      var idx := BisectLeft(offsetEnd, offset);
      if idx < |offsetEnd| && offsetStart[idx] <= offset <= offsetEnd[idx] then Some(idx) else None
    }

    /** The entries' offset spans are non-empty, ascending and disjoint, as
        the cleaning pipeline lays them out. */
    ghost predicate OffsetsSortedDisjoint()
      reads this
      requires Valid()
    {
      (forall k :: 0 <= k < Len() ==> offsetStart[k] <= offsetEnd[k]) &&
      (forall k, l :: 0 <= k < l < Len() ==> offsetEnd[k] < offsetStart[l])
    }

    /** On ascending disjoint entries the offset lookup finds an entry
        exactly when one covers the offset, and then it finds that one. */
    lemma GetIdxAtOffsetFindsContaining(offset: int, i: nat)
      requires Valid() && OffsetsSortedDisjoint()
      requires i < Len() && ContainsOffset(i, offset)
      ensures GetIdxAtOffset(offset) == Some(i)
    {
      assert Sorted(offsetEnd) by {
        forall k, l | 0 <= k <= l < Len() ensures offsetEnd[k] <= offsetEnd[l] {
          if k < l {
            assert offsetEnd[k] < offsetStart[l];
          }
        }
      }
      forall k | 0 <= k < i ensures offsetEnd[k] < offset {
        assert offsetEnd[k] < offsetStart[i];
      }
      BisectLeftUnique(offsetEnd, offset, i);
    }

    /** get_interval_at_offset (types.py:152-156). */
    function GetIntervalAtOffset(offset: int): (r: Option<OffsetPositionInterval>)
      reads this
      requires Valid()
      ensures r.None? <==> GetIdxAtOffset(offset).None?
      ensures r.Some? ==> r.value.offsetInterval.start <= offset < r.value.offsetInterval.start + r.value.offsetInterval.length
    {
      match GetIdxAtOffset(offset)
      case None => None
      case Some(idx) => Some(GetInterval(idx))
    }

    /** Entry `k` covers `p` as the check at types.py:173-176 tests it: the
        line between the start and end lines and, separately, the character
        between the start and stored end characters. */
    predicate ContainsPosition(k: nat, p: Position)
      reads this
      requires Valid() && k < Len()
    {
      positionStartLine[k] <= p.line <= positionEndLine[k] &&
      positionStartCharacter[k] <= p.character <= positionEndCharacter[k]
    }

    /** The end of the run of entries from `idx` on that share the end
        line of entry `idx`: the stopping point of the loop at
        types.py:164-168. */
    function RunEnd(idx: nat): (j: nat)
      reads this
      requires Valid() && idx < Len()
      ensures idx < j <= Len()
    {
      RunEndFrom(idx, idx + 1)
    }

    function RunEndFrom(idx: nat, i: nat): (j: nat)
      reads this
      requires Valid() && idx < i <= Len()
      ensures i <= j <= Len()
      ensures forall k :: i <= k < j ==> positionEndLine[k] == positionEndLine[idx]
      ensures j < Len() ==> positionEndLine[j] != positionEndLine[idx]
      decreases Len() - i
    {
      if i < Len() && positionEndLine[i] == positionEndLine[idx] then RunEndFrom(idx, i + 1) else i
    }

    /** The index get_idx_at_position computes before it tests containment:
        bisect over end lines, then bisect over the end characters of the
        run of entries ending on that line. */
    function PositionCandidate(p: Position): (c: nat)
      reads this
      requires Valid() && BisectLeft(positionEndLine, p.line) < Len()
      ensures BisectLeft(positionEndLine, p.line) <= c <= Len()
    {
      var idx := BisectLeft(positionEndLine, p.line);
      idx + BisectLeft(positionEndCharacter[idx..RunEnd(idx)], p.character)
    }

    /** get_idx_at_position as written (types.py:158-179), with its two
        unguarded indexings: line 164 reads past the end when no entry ends
        on or after the position's line, and line 174 does when the position
        lies after every entry of the last run. Both raise IndexError. */
    function GetIdxAtPositionAsWritten(p: Position): (r: Result<Option<nat>>)
      reads this
      requires Valid()
      ensures r.Returns? && r.value.Some? ==> r.value.value < Len() && ContainsPosition(r.value.value, p)
    {
      var idx := BisectLeft(positionEndLine, p.line);
      if idx >= Len() then Raises(IndexError)
      else
        var c := PositionCandidate(p);
        if c >= Len() then Raises(IndexError)
        else if ContainsPosition(c, p) then Returns(Some(c))
        else Returns(None)
    }

    /** The corrected lookup: as written, except that both out-of-range
        indices give `None`, as get_idx_at_offset does. */
    function IdxAtPosition(p: Position): (r: Option<nat>)
      reads this
      requires Valid()
      ensures r.Some? ==> r.value < Len() && ContainsPosition(r.value, p)
      ensures GetIdxAtPositionAsWritten(p).Returns? ==> r == GetIdxAtPositionAsWritten(p).value
      ensures GetIdxAtPositionAsWritten(p).Raises? ==> r.None?
    {
      var idx := BisectLeft(positionEndLine, p.line);
      if idx >= Len() then None
      else
        var c := PositionCandidate(p);
        if c < Len() && ContainsPosition(c, p) then Some(c) else None
    }

    /** get_idx_at_position (types.py:158-179), corrected: the loop gathers
        the end characters of the run of entries ending on the first end line
        at or after the position's line, and a second bisection picks the
        candidate. */
    method GetIdxAtPosition(p: Position) returns (r: Option<nat>)
      requires Valid()
      ensures r == IdxAtPosition(p)
      ensures r.Some? ==> r.value < Len() && ContainsPosition(r.value, p)
    {
      var length := |offsetStart|;
      var idx := BisectLeft(positionEndLine, p.line);
      if idx >= length {
        return None;
      }
      var lst: seq<int> := [];
      var i := idx;
      while positionEndLine[i] == positionEndLine[idx]
        invariant idx <= i < length
        invariant lst == positionEndCharacter[idx..i]
        invariant RunEnd(idx) == RunEndFrom(idx, if i == idx then idx + 1 else i)
        decreases length - i
      {
        lst := lst + [positionEndCharacter[i]];
        i := i + 1;
        if i >= length {
          break;
        }
      }
      assert lst == positionEndCharacter[idx..RunEnd(idx)];
      var idx2 := BisectLeft(lst, p.character);
      var c := idx + idx2;
      assert c == PositionCandidate(p);
      if c >= length {
        return None;
      }
      if ContainsPosition(c, p) {
        return Some(c);
      }
      return None;
    }

    /** Entries lie on one line each, in ascending position order without
        overlapping. The fragments of a LaTeX document need not have this
        shape: a paragraph break paid before a word that starts a row puts
        its second newline in the cell that word starts in. */
    ghost predicate PositionsSortedDisjoint()
      reads this
      requires Valid()
    {
      SingleLineOrdered(positionStartLine, positionStartCharacter, positionEndLine, positionEndCharacter)
    }

    /** On such entries the corrected position lookup finds the entry that
        covers the position. */
    lemma IdxAtPositionFindsContaining(p: Position, i: nat)
      requires Valid() && PositionsSortedDisjoint()
      requires i < Len() && ContainsPosition(i, p)
      ensures IdxAtPosition(p) == Some(i)
    {
      var lines := positionEndLine;
      EndLinesSorted(positionStartLine, positionStartCharacter, lines, positionEndCharacter);
      var idx := BisectLeft(lines, p.line);
      assert idx <= i;
      assert lines[idx] == p.line by {
        if idx < i {
          assert lines[idx] <= lines[i];
        }
      }
      var j := RunEnd(idx);
      assert i < j;
      RunSplitsAt(positionStartLine, positionStartCharacter, lines, positionEndCharacter, idx, j, i, p.character);
      BisectLeftUnique(positionEndCharacter[idx..j], p.character, i - idx);
      assert PositionCandidate(p) == i;
    }

    /** get_interval_at_position (types.py:181-185), over the corrected index
        lookup. */
    method GetIntervalAtPosition(p: Position) returns (r: Option<OffsetPositionInterval>)
      requires Valid()
      ensures r.None? <==> IdxAtPosition(p).None?
      ensures r.Some? ==> r.value == GetInterval(IdxAtPosition(p).value)
    {
      var idx := GetIdxAtPosition(p);
      if idx.None? {
        return None;
      }
      return Some(GetInterval(idx.value));
    }
  }

  /** Entries on one line each (start line = end line, start character at
      most the stored end character), ascending and not overlapping. */
  ghost predicate SingleLineOrdered(sl: seq<nat>, sc: seq<nat>, el: seq<nat>, ec: seq<int>)
    requires |sc| == |sl| && |el| == |sl| && |ec| == |sl|
  {
    (forall k :: 0 <= k < |sl| ==> sl[k] == el[k] && sc[k] <= ec[k]) &&
    (forall k, l :: 0 <= k < l < |sl| ==> el[k] < el[l] || (el[k] == el[l] && ec[k] < sc[l]))
  }

  lemma EndLinesSorted(sl: seq<nat>, sc: seq<nat>, el: seq<nat>, ec: seq<int>)
    requires |sc| == |sl| && |el| == |sl| && |ec| == |sl|
    requires SingleLineOrdered(sl, sc, el, ec)
    ensures Sorted(el)
  {
    forall k, l | 0 <= k <= l < |el| ensures el[k] <= el[l] {
      if k < l {
        assert el[k] < el[l] || el[k] == el[l];
      }
    }
  }

  /** Within a run of entries ending on one line, the stored end characters
      ascend, and entry `i` covering character `ch` splits them into those
      below `ch` and those at least `ch`. */
  lemma RunSplitsAt(sl: seq<nat>, sc: seq<nat>, el: seq<nat>, ec: seq<int>, idx: nat, j: nat, i: nat, ch: int)
    requires |sc| == |sl| && |el| == |sl| && |ec| == |sl|
    requires SingleLineOrdered(sl, sc, el, ec)
    requires idx <= i < j <= |el| && forall k :: idx <= k < j ==> el[k] == el[idx]
    requires sc[i] <= ch <= ec[i]
    ensures Sorted(ec[idx..j])
    ensures forall k :: 0 <= k < i - idx ==> ec[idx..j][k] < ch
    ensures forall k :: i - idx <= k < j - idx ==> ec[idx..j][k] >= ch
  {
    var run := ec[idx..j];
    forall k, l | 0 <= k <= l < |run| ensures run[k] <= run[l] {
      if k < l {
        assert el[idx + k] == el[idx + l];
        assert ec[idx + k] < sc[idx + l];
      }
    }
    forall k | 0 <= k < i - idx ensures run[k] < ch {
      assert el[idx + k] == el[i];
      assert ec[idx + k] < sc[i];
    }
    forall k | i - idx <= k < j - idx ensures run[k] >= ch {
      assert run[i - idx] <= run[k];
    }
  }

  /** Line 164 as written raises when no entry ends on or after the
      position's line, in particular on an empty index. The end lines need
      not be ascending: the search then runs off the end of any list. */
  lemma AsWrittenRaisesPastLastLine(l: OffsetPositionIntervalList, p: Position)
    requires l.Valid()
    requires forall k :: 0 <= k < l.Len() ==> l.positionEndLine[k] < p.line
    ensures l.GetIdxAtPositionAsWritten(p) == Raises(IndexError)
  {
    BisectLeftFromAllBelow(l.positionEndLine, p.line, 0, l.Len());
  }

  /** Line 174 as written raises for a position to the right of the only
      entry of an index: one entry on line 0 with stored end character 4,
      queried at character 10 of line 0. */
  lemma AsWrittenRaisesPastLastEntry(l: OffsetPositionIntervalList)
    requires l.Valid() && l.positionEndLine == [0] && l.positionEndCharacter == [4]
    ensures l.GetIdxAtPositionAsWritten(Position(0, 10)) == Raises(IndexError)
    ensures l.IdxAtPosition(Position(0, 10)) == None
  {
    assert l.RunEnd(0) == 1;
    assert l.positionEndCharacter[0..1] == [4];
    BisectLeftUnique([0], 0, 0);
    BisectLeftUnique([4], 10, 1);
  }
}
