/**
 * Checkers.Core.Game.DraughtsBoardBuilder: the opening position of English
 * draughts on an 8x8 board, Red on rows 0-2 and Black on rows 5-7, on the
 * cells whose row and column differ in parity.
 */
module DraughtsBoardBuilder {
  import opened Points
  import opened Sides
  import opened Figures
  import opened Boards
  import opened BoardLemmas

  const Size: BoardSize := 8

  /** The side Build puts on cell (row, col); Empty where it puts nothing. */
  function StartSide(row: int, col: int): (s: Side)
    ensures s != Sides.Nop
  {
    if row == 3 || row == 4 then Empty
    else if row % 2 != col % 2 then (if row < 3 then Red else Black)
    else Empty
  }

  /** The cell comes before (i, j) in the loops' row-major order. */
  predicate Visited(p: Point, i: int, j: int)
  {
    p.row < i || (p.row == i && p.col < j)
  }

  /** The board after the loops have reached (i, j): visited cells hold their start figure, the rest is empty. */
  ghost predicate Placed(b: SquareBoard, i: int, j: int)
  {
    && b.size == Size && Valid(b) && b.kings == {}
    && forall p :: InBounds(Size, p) ==>
         Get(b, p) == Figure(p, if Visited(p, i, j) then StartSide(p.row, p.col) else Empty, false)
  }

  /** One pass of the inner loop body: `board.Set(Figure.CreateSimple(i, j, side))` when the cell is a start cell. */
  lemma PlaceStep(b: SquareBoard, i: nat, j: nat)
    requires i < Size && j < Size && Placed(b, i, j)
    ensures StartSide(i, j) != Empty ==> Placed(Set(b, CreateSimple(i, j, StartSide(i, j))), i, j + 1)
    ensures StartSide(i, j) == Empty ==> Placed(b, i, j + 1)
  {
    var f := CreateSimple(i, j, StartSide(i, j));
    if StartSide(i, j) != Empty {
      MutatorsKeepValid(b, f, f.point);
      GetAfterSet(b, f);
      forall p | InBounds(Size, p)
        ensures Get(Set(b, f), p) == Figure(p, if Visited(p, i, j + 1) then StartSide(p.row, p.col) else Empty, false)
      {
        OtherCellsUnchanged(b, f, f.point, p);
      }
    }
  }

  /** DraughtsBoardBuilder.Build. */
  method Build() returns (board: SquareBoard)
    ensures board.size == Size && Valid(board) && board.kings == {}
    ensures forall p :: InBounds(Size, p) ==> Get(board, p) == Figure(p, StartSide(p.row, p.col), false)
  {
    board := New(Size);
    assert Placed(board, 0, 0) by {
      forall p | InBounds(Size, p)
        ensures Get(board, p) == Figure(p, Empty, false)
      {
        NewBoardIsEmpty(Size, p);
      }
    }
    for i := 0 to board.size
      invariant Placed(board, i, 0)
    {
      for j := 0 to board.size
        invariant Placed(board, i, j)
      {
        PlaceStep(board, i, j);
        if i == 3 || i == 4 {
          continue;
        }
        var side := if i < 3 then Red else Black;
        if i % 2 != j % 2 {
          board := Set(board, CreateSimple(i, j, side));
        }
      }
    }
  }

  /**
   * The start layout cell by cell: Red on rows 0-2 and Black on rows 5-7,
   * only where row and column differ in parity; rows 3 and 4 empty; no kings.
   */
  lemma StartLayout(b: SquareBoard, p: Point)
    requires IsStart(b) && InBounds(Size, p)
    ensures Get(b, p).side == Red <==> p.row < 3 && p.row % 2 != p.col % 2
    ensures Get(b, p).side == Black <==> p.row >= 5 && p.row % 2 != p.col % 2
    ensures p.row == 3 || p.row == 4 ==> IsEmpty(b, p)
    ensures !Get(b, p).isKing
  {
  }

  /** The pieces of a side, reported in GetAll's row-major order, as the start layout places them. */
  function StartRow(side: Side, row: nat, cols: nat): (r: seq<Figure>)
    ensures forall i :: 0 <= i < |r| ==> r[i] == Figure(r[i].point, side, false) && StartSide(row, r[i].point.col) == side
  {
    if cols == 0 then []
    else
      StartRow(side, row, cols - 1) +
        (if StartSide(row, cols - 1) == side then [Figure(At(row, cols - 1), side, false)] else [])
  }

  function StartRows(side: Side, rows: nat): (r: seq<Figure>)
    ensures forall i :: 0 <= i < |r| ==> r[i] == Figure(r[i].point, side, false)
  {
    if rows == 0 then [] else StartRows(side, rows - 1) + StartRow(side, rows - 1, Size)
  }

  /** The board Build ensures: every in-bounds cell holds its start figure. */
  ghost predicate IsStart(b: SquareBoard)
  {
    && b.size == Size && Valid(b) && b.kings == {}
    && forall p :: InBounds(Size, p) ==> Get(b, p) == Figure(p, StartSide(p.row, p.col), false)
  }

  lemma {:induction false} RowFiguresOfStart(b: SquareBoard, side: Side, row: nat, cols: nat)
    requires IsStart(b) && IsPlayer(side) && row < Size && cols <= Size
    ensures RowFigures(b, side, row, cols) == StartRow(side, row, cols)
  {
    if cols > 0 {
      RowFiguresOfStart(b, side, row, cols - 1);
      var p := At(row, cols - 1);
      assert Get(b, p) == Figure(p, StartSide(row, cols - 1), false);
    }
  }

  lemma {:induction false} RowsFiguresOfStart(b: SquareBoard, side: Side, rows: nat)
    requires IsStart(b) && IsPlayer(side) && rows <= Size
    ensures RowsFigures(b, side, rows) == StartRows(side, rows)
  {
    if rows > 0 {
      RowsFiguresOfStart(b, side, rows - 1);
      RowFiguresOfStart(b, side, rows - 1, Size);
    }
  }

  /** The start board has twelve simple pieces per side: GetAll reports twelve figures for Black and for Red. */
  lemma TwelvePerSide(b: SquareBoard)
    requires IsStart(b)
    ensures |FiguresOf(b, Black)| == 12 && |FiguresOf(b, Red)| == 12
    ensures forall i :: 0 <= i < |FiguresOf(b, Black)| ==> !FiguresOf(b, Black)[i].isKing
    ensures forall i :: 0 <= i < |FiguresOf(b, Red)| ==> !FiguresOf(b, Red)[i].isKing
  {
    RowsFiguresOfStart(b, Black, b.size);
    RowsFiguresOfStart(b, Red, b.size);
    TwelveOf(b, Black);
    TwelveOf(b, Red);
  }

  /** GetAll on a board whose side's figures are those of the start layout: twelve simple pieces. */
  lemma TwelveOf(b: SquareBoard, side: Side)
    requires IsPlayer(side) && b.size == Size && RowsFigures(b, side, b.size) == StartRows(side, b.size)
    ensures |FiguresOf(b, side)| == 12
    ensures forall i :: 0 <= i < |FiguresOf(b, side)| ==> !FiguresOf(b, side)[i].isKing
  {
    assert FiguresOf(b, side) == StartRows(side, Size);
    StartCount(side);
  }

  /** The side whose pieces start on the row: Red below row 3, Black above row 4. */
  function RowSide(row: int): (s: Side)
    ensures forall col :: StartSide(row, col) == (if row % 2 != col % 2 then s else Empty)
  {
    if row == 3 || row == 4 then Empty else if row < 3 then Red else Black
  }

  /** Of every two neighbouring columns one differs from the row in parity: a start row holds half its columns. */
  lemma {:induction false} StartRowLength(side: Side, row: nat, cols: nat)
    requires IsPlayer(side) && cols % 2 == 0
    ensures |StartRow(side, row, cols)| == if RowSide(row) == side then cols / 2 else 0
  {
    if cols > 0 {
      StartRowLength(side, row, cols - 2);
      assert StartRow(side, row, cols - 1) == StartRow(side, row, cols - 2) +
        (if StartSide(row, cols - 2) == side then [Figure(At(row, cols - 2), side, false)] else []);
    }
  }

  /** Red starts on rows 0-2 and Black on rows 5-7, four pieces a row. */
  lemma {:induction false} StartRowsLength(side: Side, rows: nat)
    requires IsPlayer(side) && rows <= Size
    ensures side == Red ==> |StartRows(side, rows)| == 4 * (if rows < 3 then rows else 3)
    ensures side == Black ==> |StartRows(side, rows)| == 4 * (if rows < 5 then 0 else rows - 5)
  {
    if rows > 0 {
      StartRowsLength(side, rows - 1);
      StartRowLength(side, rows - 1, Size);
    }
  }

  /** Four pieces on each of the three rows of a side. */
  lemma StartCount(side: Side)
    requires IsPlayer(side)
    ensures |StartRows(side, Size)| == 12
  {
    StartRowsLength(side, Size);
  }
}
