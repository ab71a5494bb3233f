# textLSP text-mapping engine, modelled in Dafny

textLSP is a language server that runs grammar checkers over documents
written in markup. For each open document it keeps two views of the text:

- the raw source the editor holds;
- a "cleaned" prose stream, made of the fragments of the markup that are
  words, joined by synthesized spaces and blank lines.

It also keeps the mapping between the two views, so that a finding in the
prose can be placed back at the right spot in the markup. This project models
that engine and proves what its parts promise:

- `lines.dfy` (module `Lines`): Python's `str.splitlines(True)` and
  `str.split('\n')`, and the length sums over them.
- `coordinates.dfy` (module `Coordinates`): `BaseDocument`'s conversion
  between linear offsets and (line, character) positions over the raw
  lines, `range_at_offset` and `last_position`.
- `paragraphs.dfy` (module `Paragraphs`): `paragraph_at_offset`, with its
  nested scans, and raw `paragraphs_at_range`.
- `bisect.dfy` and `sorting.dfy`: `bisect.bisect_left`, and the stable
  argsort that `OffsetPositionIntervalList.sort` computes with `sorted`.
- `types.dfy` (module `Types`): `Interval` and its equality, hash and
  order. It also holds `OffsetPositionIntervalList`, the interval index:
  a class with seven parallel columns, lookups by offset and by position,
  and `sort`.
- `text_node.dfy` (module `TextNodes`): source points and `TextNode`.
- `latex.dfy` (module `Latex`): `LatexDocument._iterate_text_nodes`, the
  policy that joins word captures with spaces and double newlines. It is
  specified by the function `Emit` and written as the method
  `IterateTextNodes`.
- `documents.dfy` (module `Documents`): `_clean_source`, which builds the
  cleaned text and the index. It also holds the `LatexDocument` class with
  its cleaned-text cache and the cleaned-mode conversions, and
  `DocumentTypeFactory.get_file_type`.
- `change_tracker.dfy` (module `ChangeTracking`): `ChangeTracker`, the
  run-length ledger of edited spans, as a class whose methods splice its run
  list in place.
- `wrappers.dfy` and `lsp.dfy`: `Option`, a `Result` that either returns a
  value or raises a Python exception, and the protocol's `Position` and
  `Range`. The protocol declares position fields as unsigned integers, so
  they are `nat`.

Where a Python function can crash, the model returns `Raises(...)` with the
exception the interpreter would raise. An `assert` in the source that
guards its callers becomes a precondition.

## Model

| member | source | states |
|---|---|---|
| Lines.SplitLines | textLSP/documents/document.py:39-49 | the lines joined give back the text, and there are none exactly when the text is empty |
| Lines.SplitLinesAreLines | textLSP/documents/document.py:39-49 | every line is non-empty and holds a line boundary only at its end; every line but the last ends in one |
| Lines.SplitLinesSumLens | textLSP/documents/document.py:39-49 | the line lengths add up to the text's length |
| Lines.SplitNewline | textLSP/documents/latex/latex.py:62 | `split('\n')` gives at least one piece, no piece holds a newline, and joining the pieces with newlines gives back the text |
| Coordinates.PositionOfLocates | textLSP/documents/document.py:39-49 | the position exists exactly for offsets inside the text, and then lies on a character of its line with the lengths of the earlier lines summing to the offset minus the character |
| Coordinates.LocatesUnique | textLSP/documents/document.py:39-49 | at most one position locates an offset |
| Coordinates.PositionAtOffset | textLSP/documents/document.py:39-49 | the accumulating loop returns `None` exactly past the end of the text, and otherwise the position that locates the offset |
| Coordinates.OffsetAtPosition | textLSP/documents/document.py:78-83 | the offset is at least the character, and a position on a character of the text locates the offset computed for it |
| Coordinates.OffsetOfPositionOf | textLSP/documents/document.py:39-83 | for every offset inside the text, converting to a position and back gives the offset |
| Coordinates.PositionOfOffsetOf | textLSP/documents/document.py:39-83 | for every position on a character of the text, converting to an offset and back gives the position |
| Coordinates.LastPosition | textLSP/documents/document.py:149-154 | `IndexError` exactly when there are no lines (`lines[-1]`); `ValueError` exactly when the last line is empty, since the character would be -1; otherwise the result locates the last character of the text |
| Coordinates.RangeAtOffset | textLSP/documents/document.py:51-76 | `None` exactly when the offset is past the text; the start is the offset's position; the end is the position of `offset + length` when that is inside the text, and otherwise the text's last position |
| Paragraphs.ParagraphAtOffset | textLSP/documents/document.py:85-121 | the nested scans return the paragraph the characterisation `IsParagraph` picks: it starts at the nearest paragraph start at or before the offset and ends at the first qualifying stop after it, and is at least `min_length` long or reaches the end of the text |
| Paragraphs.ParagraphUnique | textLSP/documents/document.py:85-121 | the characterisation admits one interval per offset, so it is the specification of the scans |
| Paragraphs.ParagraphMayPassEnd | textLSP/documents/document.py:85-121 | in "abc" the paragraph around offset 0 is (0, 4), one index past the text |
| Paragraphs.ParagraphAtOffsetIsWhole | textLSP/documents/document.py:135-145 | the paragraph found around an offset with no minimum length is a whole paragraph and covers at least one line, so each step of the walk moves to a later line |
| Paragraphs.ParagraphsAtRange | textLSP/documents/document.py:123-147 | every paragraph returned is a whole paragraph of the text; an empty or inverted range gives `[]`; at most one paragraph per line of the range; the only crash is the assert at line 95 |
| Bisect.BisectLeft | textLSP/types.py:142-150 | on a sorted list, every element before the result is below `x` and every one from it on is at least `x` |
| Bisect.BisectLeftUnique | textLSP/types.py:142-150 | on a sorted list, the result is the only index that splits it that way |
| Sorting.ArgsortSpec | textLSP/types.py:109-140 | the argsort is a permutation of `range(n)`, ordered by key, and keeps equal keys in index order, as Python's stable `sorted` does |
| Sorting.GatherArgsort | textLSP/types.py:109-140 | gathering a column through the argsort keeps the multiset of its elements |
| Sorting.ArgsortGathersAscending | textLSP/types.py:109-140 | gathering the keys through their argsort puts them in ascending order |
| Types.IntervalEqHash | textLSP/types.py:22-28 | `__eq__` holds exactly for equal (start, length), and exactly when the hash keys agree |
| Types.IntervalGtIgnoresLength | textLSP/types.py:30-33 | `__gt__` is a strict order on starts alone: two intervals that differ only in length are incomparable, and equal intervals are never greater |
| Types.OffsetPositionIntervalList.GetInterval | textLSP/types.py:83-100 | the rebuilt entry's offset length is `end - start + 1`, and its end character is the stored value plus one |
| Types.OffsetPositionIntervalList.AddIntervalValues | textLSP/types.py:54-103 | each of the seven columns gains exactly one element, the length grows by one, `get_interval` of the new last index rebuilds the arguments (the end character round-trips), and every earlier entry is unchanged |
| Types.OffsetPositionIntervalList.Values | textLSP/types.py:105-107 | the payloads in index order, one per entry |
| Types.OffsetPositionIntervalList.Sort | textLSP/types.py:109-140 | one stable argsort permutes the six coordinate columns, after which the start offsets ascend and the multiset of rows is unchanged; the payload column stays where it was |
| Types.ArgsortPermutesRows | textLSP/types.py:109-140 | gathering all six columns through the argsort of the start offsets leaves the multiset of rows unchanged |
| Types.OffsetPositionIntervalList.GetIdxAtOffset | textLSP/types.py:142-150 | an index only when the entry at the `bisect_left` position over end offsets contains the offset, `None` otherwise |
| Types.OffsetPositionIntervalList.GetIdxAtOffsetFindsContaining | textLSP/types.py:142-150 | on ascending disjoint entries, the lookup returns the entry that contains the offset |
| Types.OffsetPositionIntervalList.GetIntervalAtOffset | textLSP/types.py:152-156 | `None` exactly when the index lookup is, and otherwise an entry whose offset span holds the offset |
| Types.OffsetPositionIntervalList.GetIdxAtPositionAsWritten | textLSP/types.py:158-179 | the lookup as written: an index it returns is an entry containing the position; it raises `IndexError` at line 164 or line 174 |
| Types.OffsetPositionIntervalList.IdxAtPosition | textLSP/types.py:158-179 | the corrected lookup: an index only for an entry containing the position; equal to the lookup as written wherever that returns, and `None` wherever it raises |
| Types.OffsetPositionIntervalList.GetIdxAtPosition | textLSP/types.py:158-179 | the loop that gathers the run of entries ending on the position's line, then bisects their end characters, computes the corrected lookup |
| Types.OffsetPositionIntervalList.IdxAtPositionFindsContaining | textLSP/types.py:158-179 | on entries on one line each, ordered and disjoint, the lookup returns the entry that contains the position |
| Types.OffsetPositionIntervalList.GetIntervalAtPosition | textLSP/types.py:181-185 | `None` exactly when the index lookup is, and otherwise the stored entry at that index |
| Types.EndLinesSorted | textLSP/types.py:158-168 | entries ordered and disjoint on one line each have ascending end lines, as `bisect_left` at line 162 needs |
| Types.AsWrittenRaisesPastLastLine | textLSP/types.py:158-164 | when every entry ends on an earlier line than the position, including an empty index, the lookup as written raises `IndexError`, whether or not the end lines are ascending |
| Types.AsWrittenRaisesPastLastEntry | textLSP/types.py:158-179 | an index whose one entry ends at (0, 4) raises `IndexError` for position (0, 10), where the corrected lookup returns `None` |
| TextNodes.Space | textLSP/documents/document.py:216-221 | a single-space fragment over the given span |
| TextNodes.NewLine | textLSP/documents/document.py:224-229 | a newline fragment over the given span |
| Latex.GetNewLines | textLSP/documents/latex/latex.py:125-138 | exactly `num` newline fragments, each one column wide; the first starts one column after the location on its row, and the i-th, for i > 0, is at the start of row `row + i` |
| Latex.NewLinesOnRow | textLSP/documents/latex/latex.py:125-138 | the corrected placement: `num` one-column newlines, all on the location's row, the k-th starting `k + 1` columns after it; the first is the one `_get_new_lines` places |
| Latex.PySlice | textLSP/documents/latex/latex.py:84-144 | Python's slice holds exactly the elements at the indices from the lower bound below the upper bound that exist |
| Latex.SpaceBefore | textLSP/documents/latex/latex.py:90-108 | a one-column space on one row: when the word does not start its row, the column just before the word, ending where the word starts; when it does, the two columns after the previous fragment's end, on that fragment's row |
| Latex.NeedsSpaceBefore | textLSP/documents/latex/latex.py:140-145 | false before anything is sent; on the previous fragment's end row, true exactly when the source between its end column and the word's start column has a space; on another row, true exactly when the previous fragment is not a newline |
| Latex.BlankLineBetween | textLSP/documents/latex/latex.py:80-85 | true exactly when the word starts more than one row after the previous fragment ends and an empty source row lies between them |
| Latex.FlushBefore | textLSP/documents/latex/latex.py:70-78 | the flush only synthesizes newlines, none before anything is sent, and does not change whether something has been sent |
| Latex.FlushBeforeFifo | textLSP/documents/latex/latex.py:70-78 | the flush removes exactly the leading owed breaks that lie strictly before the word, keeps the rest in order, and emits two newlines per removed break once something has been sent |
| Latex.FlushAll | textLSP/documents/latex/latex.py:119-123 | two newlines per break still owed once something has been sent, none otherwise, all synthesized |
| Latex.IterateTextNodes | textLSP/documents/latex/latex.py:61-123 | the generator loop yields exactly the fragments of the specification `Emit` |
| Latex.WordsInOrder | textLSP/documents/latex/latex.py:67-117 | every word capture yields exactly one fragment with its text verbatim, in capture order, and every other fragment is synthesized |
| Latex.FirstFragmentIsWord | textLSP/documents/latex/latex.py:64-142 | nothing is synthesized before the first word: the first fragment, if any, is the first word |
| Documents.BuildIntervals | textLSP/documents/document.py:279-297 | a fresh index with one entry per fragment, each spanning the cumulative offsets of its fragment in ascending order with the fragment's source span and text; the cleaned text is the concatenation of the fragment texts, and its length is the sum of their lengths |
| Documents.IndexTilesCleaned | textLSP/documents/document.py:283-297 | an index of non-empty fragments is ascending and disjoint, the offset lookup succeeds exactly on the cleaned text's offsets, and it finds the fragment holding the offset |
| Documents.IndexOffsetsAscend | textLSP/documents/document.py:283-297 | the entries of an index of non-empty fragments are ascending and pairwise disjoint in the cleaned text |
| Documents.CleanedPositionOf | textLSP/documents/document.py:309-316 | the entry's start position moved right by the offset's distance from the entry's start; `AttributeError` exactly when no entry holds the offset |
| Documents.CleanedOffsetOf | textLSP/documents/document.py:346-354 | `None` exactly when the corrected position lookup `IdxAtPosition` finds no entry; `AssertionError` when the entry it finds starts on another line; otherwise that entry's start offset plus the distance from its start character |
| Documents.CleanedOffsetRoundTrip | textLSP/documents/document.py:309-354 | on an index of one-line entries that are ordered, disjoint and as wide in both spaces, converting a cleaned offset to a position and back gives the offset |
| Documents.CleanedPositionRoundTrip | textLSP/documents/document.py:309-354 | on such an index, converting a position inside an entry to a cleaned offset and back gives the position |
| Documents.CleanedOffsetThenPosition | textLSP/documents/document.py:309-354 | on every index the cleaning loop builds from non-empty fragments, a position that converts to a cleaned offset converts back to itself, provided the fragment found for it is as long as its source span |
| Documents.SectionFragments | textLSP/documents/latex/latex.py:67-138 | for `\section{Intro}` followed by the row `Some`, the emitter yields "Intro", a newline at (0, 15), a newline at (1, 0)-(1, 1) and "Some" at (1, 0)-(1, 4): the second newline and the word share the cell (1, 0) |
| Documents.SectionBreakShadowsWord | textLSP/documents/document.py:309-354 | on the index of those fragments, cleaned offset 7 (the "S" of "Some") converts to position (1, 0), and position (1, 0) converts to offset 6, the newline before it |
| Documents.SectionPlacements | textLSP/documents/latex/latex.py:125-138 | the example's fragments are "Intro", the break's two newlines and "Some"; the as-written and corrected lists differ only in the placement of those newlines |
| Documents.SectionOnRowRoundTrip | textLSP/documents/document.py:309-354 | with the corrected placement the example's index has one-line, ordered, disjoint entries of equal widths, and every cleaned offset 0 to 10 converts to a position and back to itself |
| Documents.SectionOnRowWord | textLSP/documents/document.py:309-354 | with the corrected placement cleaned offset 7 goes to (1, 0) and back to 7, where the source's placement answers 6 |
| Documents.CleanedPositionOfHeld | textLSP/documents/document.py:309-316 | on ascending disjoint entries, an offset held by entry `i` converts to entry `i`'s start position moved right by the distance into it |
| Documents.CleanedOffsetOfHeld | textLSP/documents/document.py:345-354 | on one-line ordered entries, a position held by entry `i` converts to entry `i`'s start offset moved right by the distance into it |
| Documents.CleanedRangeEnd | textLSP/documents/document.py:323-332 | `AttributeError` exactly when no entry holds `end - 1`; otherwise the end is on the end line of that entry, at its end character plus one less the distance from `end` to the entry's end offset plus one; `ValueError` exactly when that character is negative |
| Documents.CleanedRangeEndAfterLast | textLSP/documents/document.py:309-332 | when the entry holding `end - 1` lies on one line and is as wide in both spaces, the range end is the position of `end - 1` moved one character right |
| Documents.LatexDocument.constructor | textLSP/documents/document.py:159-161 | the document holds the given source and query, the cleaned-text cache starts empty, and the invariant `Valid()` holds |
| Documents.LatexDocument.ApplyChange | textLSP/documents/document.py:178-180 | the new text replaces the old one and the cleaned-text cache is dropped |
| Documents.LatexDocument.CleanSource | textLSP/documents/document.py:279-297 | the cache holds the cleaned text of the current source and a fresh index built with it |
| Documents.LatexDocument.CleanedSource | textLSP/documents/document.py:163-167 | returns the cleaned text of the current source, cleaning only when the cache is empty |
| Documents.LatexDocument.PositionAtOffsetCleaned | textLSP/documents/document.py:302-316 | fills the cache if needed, then answers as `CleanedPositionOf` over the index built with it |
| Documents.LatexDocument.RangeAtOffsetCleaned | textLSP/documents/document.py:318-337 | returns exactly when both ends convert, and then the range from the start position to the range end |
| Documents.LatexDocument.OffsetAtPositionCleaned | textLSP/documents/document.py:339-354 | fills the cache if needed, then answers as `CleanedOffsetOf` |
| Documents.PositionAtOffsetIn | textLSP/documents/document.py:308-316 | on a ready index, the lookup answers exactly as `CleanedPositionOf`: AttributeError with no entry, else the entry's start moved right by the distance into it |
| Documents.RangeEndIn | textLSP/documents/document.py:323-332 | on a ready index, the end lookup answers exactly as `CleanedRangeEnd` |
| Documents.RangeAtOffsetIn | textLSP/documents/document.py:321-337 | returns exactly when both ends convert, then the range between them; a failing start is raised before the end is looked at |
| Documents.OffsetAtPositionIn | textLSP/documents/document.py:345-354 | on a ready index, the lookup answers exactly as `CleanedOffsetOf`: None with no entry, AssertionError off the entry's start line |
| Documents.LatexDocument.ParagraphsAtRangeCleaned | textLSP/documents/document.py:356-381 | `TypeError` exactly when the position lookup for the range start gives `None`; otherwise whole paragraphs of the cleaned text, without duplicates |
| Documents.ParagraphsFromEntry | textLSP/documents/document.py:366-379 | the paragraphs of the entries from the found one up to the range end are whole paragraphs of the cleaned text, kept once each; an entry outside the text fails the assert in `paragraph_at_offset` |
| Documents.GetFileType | textLSP/documents/document.py:384-392 | "text" maps to "txt", "tex" to "latex", and every other language id to itself |
| Documents.GetFileTypeIdempotent | textLSP/documents/document.py:384-392 | mapping twice is mapping once |
| ChangeTracking.ChangeTracker.constructor | textLSP/documents/document.py:428-435 | a new ledger is one unchanged run over the whole text |
| ChangeTracking.ChangeTracker.Len | textLSP/documents/document.py:522-523 | the number of changed runs: at most the number of runs, and zero exactly when no run is changed |
| ChangeTracking.OffsetIdxFinds | textLSP/documents/document.py:480-488 | the corrected scan stops at the run holding the offset: every earlier run ends at or before it, and the run found is the last one or reaches past it |
| ChangeTracking.OffsetIdxUnique | textLSP/documents/document.py:480-488 | that stopping point is unique |
| ChangeTracking.ChangeTracker.GetOffsetIdx | textLSP/documents/document.py:480-488 | the corrected scan loop returns the run holding the offset and the offset at which that run starts, or the last run when the offset is at or past the ledger's end; wherever the scan as written returns, it returns the same run and start |
| ChangeTracking.OffsetIdxAsWritten | textLSP/documents/document.py:480-488 | the scan as written either raises `IndexError` or returns the run holding the offset, with the offset where that run starts |
| ChangeTracking.AsWrittenRaisesIff | textLSP/documents/document.py:480-488 | the scan as written raises `IndexError` exactly when every run ends at or before the offset |
| ChangeTracking.AsWrittenRaisesAtEnd | textLSP/documents/document.py:480-488 | on a fresh ledger over a two-character text, an edit at offset 2 makes the scan as written raise `IndexError` |
| ChangeTracking.OffsetIdxAgreesWithAsWritten | textLSP/documents/document.py:480-488 | wherever the scan as written returns, the corrected scan returns the same run and start |
| ChangeTracking.ChangeTracker.ReplaceAt | textLSP/documents/document.py:490-495 | run `idx` becomes the first tuple and the others are inserted after it; nothing else moves |
| ChangeTracking.EditRuns | textLSP/documents/document.py:456-478 | the replacement is an optional prefix keeping the run's flag with the in-run offset as its length, one changed run, and an optional suffix keeping the run's flag, present exactly when the edit ends before the end of the text |
| ChangeTracking.ChangeTracker.UpdateDocument | textLSP/documents/document.py:437-478 | after a full-document change nothing changes; a full-document change leaves the single run (-1, changed); a range change replaces only the run holding its start offset |
| ChangeTracking.ReplacedAtSpan | textLSP/documents/document.py:490-495 | the ledger's span changes by the replacement's span less the replaced run's length |
| ChangeTracking.GrowingEditConservesSpan | textLSP/documents/document.py:456-478 | an edit that inserts at least as much as it removes, ends before the end of the text and is not clamped changes the ledger's span by exactly the change in the text's length |
| ChangeTracking.ShrinkingEditSpan | textLSP/documents/document.py:456-478 | a shrinking edit that ends before the end of the text and is not clamped changes the span by the inserted length less twice the removed length |
| ChangeTracking.Report | textLSP/documents/document.py:510-517 | a run of non-negative length is reported with its length at its start when that is inside the text, and at `doc_length - 1` when it starts at or past the end; a negative run is reported at a non-negative start no earlier than the start of the deleted span, with at most the deleted length, and not a negative length while the run starts inside the text |
| ChangeTracking.ChangesCount | textLSP/documents/document.py:506-523 | `get_changes` reports one interval per changed run, as many as `__len__` counts |
| ChangeTracking.ChangesInRunOrder | textLSP/documents/document.py:506-520 | the k-th changed run is reported after the changed runs before it, at the position where it starts |
| ChangeTracking.ChangeTracker.GetChanges | textLSP/documents/document.py:497-520 | after a full-document change exactly `[Interval(0, doc_length)]`; otherwise the loop computes the run-order report `Changes` |

## Left out

- Parsing: building the tree-sitter grammar, cloning its repository,
  constructing `Language` and `Parser`, and compiling the query
  (textLSP/documents/document.py:248-277, textLSP/documents/latex/latex.py:39-59)
  are foreign library and I/O calls. The parse-and-query step is the
  function `query` of a `LatexDocument`. The only assumption about it is
  that every word capture starts on a row the source has.
- `position_from_utf16` (textLSP/documents/document.py:81) is taken as the
  identity on code points. The model has no UTF-16 code units.
- pygls `Document.apply_change` and `lines` are a foreign text-editing
  implementation. `ApplyChange` takes the resulting text as its argument.
- The `@synchronized` lock around `_sync_clean_source` is about concurrency.
  The model is sequential.
- `DocumentTypeFactory.get_document` loads classes dynamically. Only
  `get_file_type` is modelled.
- `OffsetPositionIntervalList.add_interval` (textLSP/types.py:72-81) reads
  `offset_interval.end`, which `Interval` does not have, so every call
  raises `AttributeError`. Nothing in the core calls it, and it is not
  modelled.
- `TEXT_PASSAGE_PATTERN` is unused by the core.
- `paragraph_at_position` is modelled only inside `ParagraphsAtRange`,
  where raw offsets are never `None`.
- Cleaned-mode `last_position` raises `NotImplementedError` for every
  cleanable document, so there is nothing to model.
- Cleaned `paragraphs_at_range` never gets a `None` paragraph, because
  `paragraph_at_offset` returns an interval or fails its assert. The
  endless loop on `None` in the raw version (line 137) cannot be reached
  there either.
- `LatexDocument.constructor`: in Python the index field starts as `None`.
  In the model it starts as an empty index. Nothing reads it before the
  first cleaning in either version.
- `ChangeTracker.UpdateDocument` and `ChangeTracker.GetChanges` take the
  two offsets of the change's range and the text length as arguments.
  They do not hold a reference to the document. A cleaned-mode offset
  lookup can return `None`, which makes Python raise `TypeError` at line
  458; that path is not modelled.
- `ChangeTracking.Report`: for a negative run its contract bounds the
  reported interval but does not state the exact `min`/`max`, and for a
  run starting after the text it does not state the sign of the length.
- `Paragraphs.ParagraphsAtRange`: its contract does not state which
  paragraphs are returned, only that each is a whole paragraph and how
  many there can be.
- `Documents.ParagraphsFromEntry` and
  `Documents.LatexDocument.ParagraphsAtRangeCleaned`: their contracts do
  not state which entries' paragraphs are included, only that each is a
  whole paragraph, kept once.
- `Types.OffsetPositionIntervalList.GetIntervalAtPosition`,
  `Documents.LatexDocument.OffsetAtPositionCleaned` and
  `Documents.LatexDocument.ParagraphsAtRangeCleaned` use the corrected
  position lookup rather than the one that raises `IndexError`.
- `ChangeTracking.ChangeTracker.UpdateDocument` uses the corrected run
  scan rather than the one that raises `IndexError`.
- `ChangeTracking.ChangeTracker.GetOffsetIdx` is the corrected run scan:
  for an offset at or past the ledger's end it returns the last run where
  document.py:484-486 raises `IndexError` (that case is
  `ChangeTracking.OffsetIdxAsWritten`).
- `Documents.CleanedOffsetOf` and `Documents.OffsetAtPositionIn` return
  `None` where the lookup as written raises `IndexError` at
  textLSP/types.py:164 or textLSP/types.py:174, because they use the
  corrected position lookup.
- `Documents.CleanedOffsetRoundTrip` is proved only for indexes whose
  entries lie on one line each, in order, without sharing a source cell
  (`PositionsSortedDisjoint`), and are as wide in the cleaned text as in
  the source (`WidthsAgree`). The index the LaTeX emitter produces can
  break both premises. The first breaks when a paragraph break is paid
  before a word that starts a row (see Findings). The second breaks when
  a word holds a multi-byte character, since tree-sitter columns count
  bytes. So the model does not promise this round trip on the pipeline's
  own indexes.
- `Documents.CleanedPositionRoundTrip` rests on the same two premises.
  On the pipeline's own indexes only the weaker statement
  `Documents.CleanedOffsetThenPosition` is proved: it needs no premise
  on positions, and width agreement only for the one entry found.
- `Latex.NewLinesOnRow`: the emitter as modelled keeps the source's
  placement of the second newline of a paragraph break. The corrected
  placement is applied only to the example of the Findings row
  (`Documents.SectionOnRowRoundTrip`), not to a corrected emitter, so
  the model does not prove that the corrected placement restores the
  round trip on every document.

## Findings

| source | as written | input that shows it | evidently intended | confidence | as-written member | corrected member |
|---|---|---|---|---|---|---|
| textLSP/types.py:162-164 | `get_idx_at_position` reads `_position_end_line[idx]` at the `bisect_left` index without checking that it is inside the list | an empty index, or a position on a line after every entry's end line | `None`: no entry contains the position | not executed | Types.AsWrittenRaisesPastLastLine | Types.OffsetPositionIntervalList.IdxAtPosition |
| textLSP/types.py:170-174 | the second `bisect_left` can return the end of the run, and line 174 then indexes one past the last entry | one entry ending at (0, 4) and position (0, 10) | `None`: the position is after every entry | not executed | Types.AsWrittenRaisesPastLastEntry | Types.OffsetPositionIntervalList.IdxAtPosition |
| textLSP/documents/latex/latex.py:125-138 | `_get_new_lines` puts the second newline of a paragraph break at column 0 of the next row, the cell a word starting that row also holds; `get_idx_at_position` then finds the newline first | `\section{Intro}` then the row `Some`: cleaned offset 7, the "S" of "Some", converts to position (1, 0), which converts back to offset 6 | the break's newlines stay on the row they follow, so they hold no source cell a word holds and the cleaned offset and position conversions invert each other | not executed | Documents.SectionBreakShadowsWord | Documents.SectionOnRowRoundTrip |
| textLSP/documents/document.py:484-486 | `_get_offset_idx` steps past every run that ends at or before the offset and then indexes the list with no bound check | a fresh tracker over a two-character text and an edit at offset 2, such as typing at the end of the document | the last run, with the offset where it starts | not executed | ChangeTracking.AsWrittenRaisesAtEnd | ChangeTracking.OffsetIdxFinds |
