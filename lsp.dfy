/** The two protocol value types the text-mapping engine is written against:
    a (line, character) position and a range between two positions. Both
    fields of a position are unsigned in the protocol, so they are `nat`
    here: building a position with a negative field raises in the source,
    and the models below state that as a precondition or as a raised
    `ValueError`. */
module Lsp {

  datatype Position = Position(line: nat, character: nat)

  datatype Range = Range(start: Position, end: Position)

  /** Positions are ordered line first, then character. */
  predicate PositionLess(a: Position, b: Position) {
    a.line < b.line || (a.line == b.line && a.character < b.character)
  }

  predicate PositionLessEq(a: Position, b: Position) {
    PositionLess(a, b) || a == b
  }

  /** The order is a strict total order: exactly one of a < b, a == b, b < a. */
  lemma PositionLessTrichotomy(a: Position, b: Position)
    ensures PositionLess(a, b) || a == b || PositionLess(b, a)
    ensures !(PositionLess(a, b) && PositionLess(b, a))
    ensures !PositionLess(a, a)
  {
  }
}
