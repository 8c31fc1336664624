/** What the SquareBoard operations promise, stated through Get, IsEmpty and GetAll. */
module BoardLemmas {
  import opened Points
  import opened Sides
  import opened Figures
  import opened Boards

  /** A fresh board is valid, with every in-bounds cell empty and no kings. */
  lemma NewBoardIsEmpty(size: BoardSize, p: Point)
    ensures Valid(New(size))
    ensures NoFigures(New(size), Black) && NoFigures(New(size), Red)
    ensures InBounds(size, p) ==> Get(New(size), p) == Figure(p, Empty, false) && IsEmpty(New(size), p)
    ensures !InBounds(size, p) ==> Get(New(size), p) == Figures.Nop && !IsEmpty(New(size), p)
  {
  }

  /** After Set of a Black or Red figure, Get at its point returns that figure, king flag included. */
  lemma GetAfterSet(b: SquareBoard, f: Figure)
    requires InBounds(b.size, f.point) && IsPlayer(f.side)
    ensures Get(Set(b, f), f.point) == f
  {
  }

  /** Set of a figure of any other side empties the cell; a non-king one also drops the king bit. */
  lemma SetNonPlayerEmpties(b: SquareBoard, f: Figure)
    requires InBounds(b.size, f.point) && !IsPlayer(f.side)
    ensures Get(Set(b, f), f.point) == Figure(f.point, Empty, false)
    ensures BitPosition(b.size, f.point) in Set(b, f).kings <==> f.isKing
  {
  }

  /** Clear empties the cell and drops its king bit. */
  lemma ClearEmpties(b: SquareBoard, p: Point)
    requires InBounds(b.size, p)
    ensures Get(Clear(b, p), p) == Figure(p, Empty, false) && IsEmpty(Clear(b, p), p)
    ensures BitPosition(b.size, p) !in Clear(b, p).kings
  {
  }

  /** SetKing crowns whatever stands on the cell and leaves occupancy alone. */
  lemma SetKingCrowns(b: SquareBoard, p: Point, q: Point)
    requires InBounds(b.size, p)
    ensures Get(b, p).side != Empty ==> Get(SetKing(b, p), p) == Get(b, p).(isKing := true)
    ensures Get(SetKing(b, p), q).side == Get(b, q).side
    ensures IsEmpty(SetKing(b, p), q) == IsEmpty(b, q)
  {
  }

  /** ClearKing uncrowns the cell and leaves occupancy alone. */
  lemma ClearKingUncrowns(b: SquareBoard, p: Point, q: Point)
    requires InBounds(b.size, p)
    ensures Get(ClearKing(b, p), p) == Get(b, p).(isKing := false)
    ensures Get(ClearKing(b, p), q).side == Get(b, q).side
  {
  }

  /** Each mutator changes its own cell only: Get at every other point is unchanged. */
  lemma OtherCellsUnchanged(b: SquareBoard, f: Figure, p: Point, q: Point)
    requires InBounds(b.size, f.point) && InBounds(b.size, p)
    ensures q != f.point ==> Get(Set(b, f), q) == Get(b, q)
    ensures q != p ==> Get(Clear(b, p), q) == Get(b, q)
    ensures q != p ==> Get(SetKing(b, p), q) == Get(b, q)
    ensures q != p ==> Get(ClearKing(b, p), q) == Get(b, q)
  {
    if InBounds(b.size, q) {
      BitInjective(b.size, f.point, q);
      BitInjective(b.size, p, q);
    }
  }

  /** Every mutator keeps the black and red masks disjoint and every bit on the board. */
  lemma MutatorsKeepValid(b: SquareBoard, f: Figure, p: Point)
    requires Valid(b) && InBounds(b.size, f.point) && InBounds(b.size, p)
    ensures Valid(Set(b, f)) && Valid(Clear(b, p)) && Valid(SetKing(b, p)) && Valid(ClearKing(b, p))
  {
  }

  /** One row's scan reports exactly the set bits of that row, columns below `cols`. */
  lemma {:induction false} RowFiguresMembers(b: SquareBoard, side: Side, row: nat, cols: nat, f: Figure)
    requires row < b.size && cols <= b.size
    ensures f in RowFigures(b, side, row, cols) <==>
      && f.point.row == row && f.point.col < cols
      && BitPosition(b.size, f.point) in MaskOf(b, side)
      && f == Figure(f.point, side, BitPosition(b.size, f.point) in b.kings)
  {
    if cols > 0 {
      RowFiguresMembers(b, side, row, cols - 1, f);
      assert RowFigures(b, side, row, cols) ==
        RowFigures(b, side, row, cols - 1) + CellFigures(b, side, row, cols - 1);
    }
  }

  /** The row-major scan reports exactly the set bits of rows below `rows`. */
  lemma {:induction false} RowsFiguresMembers(b: SquareBoard, side: Side, rows: nat, f: Figure)
    requires rows <= b.size
    ensures f in RowsFigures(b, side, rows) <==>
      && f.point.row < rows && 0 <= f.point.col < b.size
      && BitPosition(b.size, f.point) in MaskOf(b, side)
      && f == Figure(f.point, side, BitPosition(b.size, f.point) in b.kings)
  {
    if rows > 0 {
      RowsFiguresMembers(b, side, rows - 1, f);
      RowFiguresMembers(b, side, rows - 1, b.size, f);
    }
  }

  /**
   * GetAll returns exactly the side's figures: on a valid board a figure is
   * listed iff Get at its cell returns it and it has the requested side.
   */
  lemma FiguresOfIsGet(b: SquareBoard, side: Side, f: Figure)
    requires Valid(b) && IsPlayer(side)
    ensures f in FiguresOf(b, side) <==> InBounds(b.size, f.point) && f.side == side && Get(b, f.point) == f
  {
    RowsFiguresMembers(b, side, b.size, f);
  }

  /** GetAll lists figures in strict row-major order, so no figure appears twice. */
  lemma FiguresOfRowMajor(b: SquareBoard, side: Side)
    ensures forall i, j :: 0 <= i < j < |FiguresOf(b, side)| ==>
      RowMajorBefore(FiguresOf(b, side)[i].point, FiguresOf(b, side)[j].point)
    ensures forall i, j :: 0 <= i < j < |FiguresOf(b, side)| ==>
      FiguresOf(b, side)[i] != FiguresOf(b, side)[j]
  {
  }

  /** On a valid board NoFigures(side) holds iff GetAll(side) is empty. */
  lemma NoFiguresIffNoneListed(b: SquareBoard, side: Side)
    requires Valid(b) && IsPlayer(side)
    ensures NoFigures(b, side) <==> FiguresOf(b, side) == []
  {
    if !NoFigures(b, side) {
      var m := MaskOf(b, side);
      assert m != {};
      var k: nat :| k in m;
      assert k < b.size * b.size;
      var p := BitSurjective(b.size, k);
      var f := Figure(p, side, k in b.kings);
      RowsFiguresMembers(b, side, b.size, f);
    } else if FiguresOf(b, side) != [] {
      RowsFiguresMembers(b, side, b.size, FiguresOf(b, side)[0]);
    }
  }

  /** One row yields at most one figure per column. */
  lemma {:induction false} RowFiguresCount(b: SquareBoard, side: Side, row: nat, cols: nat)
    requires row < b.size && cols <= b.size
    ensures |RowFigures(b, side, row, cols)| <= cols
  {
    if cols > 0 {
      RowFiguresCount(b, side, row, cols - 1);
    }
  }

  /** The first rows yield at most Size figures each. */
  lemma {:induction false} RowsFiguresCount(b: SquareBoard, side: Side, rows: nat)
    requires rows <= b.size
    ensures |RowsFigures(b, side, rows)| <= rows * b.size
  {
    if rows > 0 {
      RowsFiguresCount(b, side, rows - 1);
      RowFiguresCount(b, side, rows - 1, b.size);
      assert (rows - 1) * b.size + b.size == rows * b.size;
    }
  }

  /** GetAll lists at most Size * Size figures, so never more than 64. */
  lemma FiguresOfCount(b: SquareBoard, side: Side)
    ensures |FiguresOf(b, side)| <= b.size * b.size <= 64
  {
    RowsFiguresCount(b, side, b.size);
    assert b.size * b.size <= 8 * b.size <= 64;
  }
}
