/** Checkers.Core.Board.Direction: the four diagonal offsets and the throwing Nop. */
module Directions {
  import opened Points

  datatype Direction = Nop | UpperLeft | UpperRight | BottomLeft | BottomRight

  /** Row offset of one step: "upper" is towards row 0. */
  function RowDelta(d: Direction): int
  {
    match d
    case UpperLeft => -1
    case UpperRight => -1
    case BottomLeft => 1
    case BottomRight => 1
    case Nop => 0
  }

  /** Column offset of one step: "left" is towards column 0. */
  function ColDelta(d: Direction): int
  {
    match d
    case UpperLeft => -1
    case BottomLeft => -1
    case UpperRight => 1
    case BottomRight => 1
    case Nop => 0
  }

  /**
   * Apply a direction to a point, `steps` times. The Nop direction throws a
   * NotSupportedException in the source, so no caller may apply it.
   */
  function Apply(d: Direction, p: Point, steps: int): (q: Point)
    requires d != Nop
    ensures q == MakePoint(p.row + RowDelta(d) * steps, p.col + ColDelta(d) * steps)
  {
    match d
    case UpperLeft => MakePoint(p.row - steps, p.col - steps)
    case UpperRight => MakePoint(p.row - steps, p.col + steps)
    case BottomLeft => MakePoint(p.row + steps, p.col - steps)
    case BottomRight => MakePoint(p.row + steps, p.col + steps)
  }

  /** Stepping past the top or the left edge yields the sentinel point. */
  lemma OffTopOrLeftIsNop(d: Direction, p: Point, steps: int)
    requires d != Nop && p != Points.Nop && steps >= 0
    requires (RowDelta(d) < 0 && p.row < steps) || (ColDelta(d) < 0 && p.col < steps)
    ensures Apply(d, p, steps) == Points.Nop
  {
  }

  /** On the board side of the top/left edges a step lands exactly on the offset point. */
  lemma StepInside(d: Direction, p: Point, steps: int)
    requires d != Nop && p != Points.Nop
    requires p.row + RowDelta(d) * steps >= 0 && p.col + ColDelta(d) * steps >= 0
    ensures Apply(d, p, steps).row == p.row + RowDelta(d) * steps
    ensures Apply(d, p, steps).col == p.col + ColDelta(d) * steps
  {
  }

  /** Two different directions never lead from one point to the same cell on the board. */
  lemma ApplyInjective(d: Direction, e: Direction, p: Point, steps: int)
    requires d != Nop && e != Nop && steps > 0
    requires Apply(d, p, steps) != Points.Nop && Apply(d, p, steps) == Apply(e, p, steps)
    ensures d == e
  {
  }
}
