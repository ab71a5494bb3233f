/** Source points and the text fragments the cleaning pipeline emits
    (`TextNode`, textLSP/documents/document.py:201-232). */
module TextNodes {

  /** A tree-sitter point: (row, column), both counted from zero. */
  datatype Point = Point(row: nat, column: nat)

  /** Python's tuple order on points: `a < b`. */
  predicate PointLess(a: Point, b: Point) {
    a.row < b.row || (a.row == b.row && a.column < b.column)
  }

  /** A fragment of cleaned text and the source span it stands for. */
  datatype TextNode = TextNode(text: string, start: Point, end: Point)

  /** TextNode.space */
  function Space(start: Point, end: Point): (n: TextNode)
    ensures n.text == " " && n.start == start && n.end == end
  {
    TextNode(" ", start, end)
  }

  /** TextNode.new_line */
  function NewLine(start: Point, end: Point): (n: TextNode)
    ensures n.text == "\n" && n.start == start && n.end == end
  {
    TextNode("\n", start, end)
  }

  /** TextNode.__len__ */
  function Length(n: TextNode): nat {
    |n.text|
  }
}
