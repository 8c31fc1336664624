/** Checkers.Core.Board.Figure: an immutable (point, side, king) value. */
module Figures {
  import opened Points
  import opened Sides
  import opened Directions

  /** Equality of this datatype is structural on the three fields, as Figure.Equals is. */
  datatype Figure = Figure(point: Point, side: Side, isKing: bool)

  /** Figure.Nop, the "no figure" sentinel. */
  const Nop: Figure := Figure(Points.Nop, Sides.Nop, false)

  /** Figure.CreateSimple(row, col, side). */
  function CreateSimple(row: int, col: int, side: Side): (f: Figure)
    ensures !f.isKing && f.side == side && f.point == MakePoint(row, col)
  {
    Figure(MakePoint(row, col), side, false)
  }

  /** Figure.CreateKing(row, col, side). */
  function CreateKing(row: int, col: int, side: Side): (f: Figure)
    ensures f.isKing && f.side == side && f.point == MakePoint(row, col)
  {
    Figure(MakePoint(row, col), side, true)
  }

  /**
   * The direction array built by the constructor. The king test comes first,
   * so a king gets all four diagonals whatever its side; a simple figure that
   * is neither Black nor Red keeps only the throwing Nop direction.
   */
  function DirectionsOf(f: Figure): (ds: seq<Direction>)
    ensures |ds| > 0
    ensures Directions.Nop in ds <==> !f.isKing && !IsPlayer(f.side)
    ensures f.isKing ==> ds == [BottomLeft, BottomRight, UpperLeft, UpperRight]
    ensures !f.isKing && f.side == Black ==>
      |ds| == 2 && forall i :: 0 <= i < |ds| ==> RowDelta(ds[i]) == -1
    ensures !f.isKing && f.side == Red ==>
      |ds| == 2 && forall i :: 0 <= i < |ds| ==> RowDelta(ds[i]) == 1
    ensures forall i, j :: 0 <= i < j < |ds| ==> ds[i] != ds[j]
  {
    if f.isKing then [BottomLeft, BottomRight, UpperLeft, UpperRight]
    else if f.side == Black then [UpperLeft, UpperRight]
    else if f.side == Red then [BottomLeft, BottomRight]
    else [Directions.Nop]
  }

  /** The exact order of a simple figure's directions, which the rules follow when they list moves. */
  lemma SimpleDirectionsOrder(f: Figure)
    requires !f.isKing
    ensures f.side == Black ==> DirectionsOf(f) == [UpperLeft, UpperRight]
    ensures f.side == Red ==> DirectionsOf(f) == [BottomLeft, BottomRight]
    ensures !IsPlayer(f.side) ==> DirectionsOf(f) == [Directions.Nop]
  {
  }

  /** The direction array of a figure depends on its side and king flag only, never on its point. */
  lemma DirectionsIgnorePoint(f: Figure, p: Point)
    ensures DirectionsOf(Figure(p, f.side, f.isKing)) == DirectionsOf(f)
  {
  }
}
