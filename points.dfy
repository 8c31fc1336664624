/** Board coordinates, Checkers.Core.Board.Point. */
module Points {
  /** The two fields of the C# struct. */
  datatype Coords = Coords(row: int, col: int)

  /**
   * The values the struct's constructors can build: the sentinel (-1, -1), or
   * a point whose row and column are both non-negative (a negative coordinate
   * collapses to the sentinel).
   */
  type Point = c: Coords | c == Coords(-1, -1) || (c.row >= 0 && c.col >= 0)
    witness Coords(-1, -1)

  /** Point.Nop, "no position". */
  const Nop: Point := Coords(-1, -1)

  /** new Point(row, col). */
  function MakePoint(row: int, col: int): (p: Point)
    ensures p == Nop <==> (row < 0 || col < 0)
    ensures row >= 0 && col >= 0 ==> p.row == row && p.col == col
  {
    if row < 0 || col < 0 then Nop else Coords(row, col)
  }

  /** Point.At, a shorthand for the constructor. */
  function At(row: int, col: int): (p: Point)
    ensures p == MakePoint(row, col)
  {
    MakePoint(row, col)
  }

  /** operator ==: rows and columns both equal, which is value identity. */
  function Equal(p: Point, q: Point): (r: bool)
    ensures r <==> p == q
  {
    p.row == q.row && p.col == q.col
  }

  /** operator !=, the negation of ==. */
  function NotEqual(p: Point, q: Point): (r: bool)
    ensures r <==> p != q
  {
    !Equal(p, q)
  }

  /** The sentinel differs from every point with non-negative coordinates. */
  lemma NopIsNoPosition(p: Point)
    ensures p != Nop <==> p.row >= 0 && p.col >= 0
    ensures p == Nop <==> p.row < 0
  {
  }
}
