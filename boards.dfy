/**
 * Checkers.Core.Board.SquareBoard: a bitboard of three 64-bit masks.
 *
 * A mask is modelled as the set of indices of its 1-bits: `|= 1 << k` adds k,
 * `&= ~(1 << k)` removes it, and `== 0` is the empty set. The C# type is a
 * struct, so a board is a value: the datatype SquareBoard is one such value and
 * the pure update functions below are its mutators' effects; module
 * MutableBoards holds a variable of that type and the methods updating it in place.
 */
module Boards {
  import opened Results
  import opened Points
  import opened Sides
  import opened Figures

  /**
   * A 64-bit mask, as the set of positions of its 1-bits. That every position
   * is below 64 is part of Valid: a valid board's bits lie below Size * Size.
   */
  type Mask = set<nat>

  /** A cell's bit is Size * Col + Row, so a board of more than 8 columns no longer fits a 64-bit mask. */
  type BoardSize = n: int | 0 <= n <= 8

  datatype SquareBoard = SquareBoard(size: BoardSize, black: Mask, red: Mask, kings: Mask)

  /** The ArgumentException thrown by GetAll. */
  datatype BoardError = InvalidSide(side: Side)

  /** new SquareBoard(size): all three masks zero. */
  function New(size: BoardSize): (b: SquareBoard)
    ensures b.size == size && b.black == {} && b.red == {} && b.kings == {}
  {
    SquareBoard(size, {}, {}, {})
  }

  predicate InBounds(size: int, p: Point)
  {
    0 <= p.row < size && 0 <= p.col < size
  }

  /** Size * Col + Row, the bit of a cell. */
  function Bit(size: int, row: int, col: int): int
  {
    size * col + row
  }

  /** The bit of an in-bounds cell lies below Size * Size, hence below 64. */
  function BitPosition(size: BoardSize, p: Point): (k: nat)
    requires InBounds(size, p)
    ensures k == Bit(size, p.row, p.col) && k < size * size && k < 64
  {
    BitBound(size, p.row, p.col);
    size * p.col + p.row
  }

  lemma BitBound(size: BoardSize, row: int, col: int)
    requires 0 <= row < size && 0 <= col < size
    ensures 0 <= Bit(size, row, col) < size * size <= 64
  {
    assert size * col <= size * (size - 1) by {
      assert size * (size - 1) - size * col == size * (size - 1 - col);
    }
  }

  /** Distinct cells of one board have distinct bits. */
  lemma BitInjective(size: BoardSize, p: Point, q: Point)
    requires InBounds(size, p) && InBounds(size, q)
    ensures BitPosition(size, p) == BitPosition(size, q) <==> p == q
  {
    if p.col < q.col {
      assert size * q.col - size * p.col == size * (q.col - p.col);
      assert size * (q.col - p.col) >= size;
    } else if q.col < p.col {
      assert size * p.col - size * q.col == size * (p.col - q.col);
      assert size * (p.col - q.col) >= size;
    }
  }

  /** Every bit below Size * Size is the bit of exactly one in-bounds cell. */
  lemma BitSurjective(size: BoardSize, k: nat) returns (p: Point)
    requires k < size * size
    ensures InBounds(size, p) && BitPosition(size, p) == k
  {
    var col := k / size;
    var row := k % size;
    assert k == size * col + row;
    assert col < size by {
      assert size * (size - col) == size * size - size * col > 0;
    }
    p := Coords(row, col);
  }

  /**
   * The state every operation keeps: no cell is both black and red, and no
   * bit lies outside the board.
   */
  predicate Valid(b: SquareBoard)
  {
    && b.black !! b.red
    && (forall k :: k in b.black ==> k < b.size * b.size)
    && (forall k :: k in b.red ==> k < b.size * b.size)
    && (forall k :: k in b.kings ==> k < b.size * b.size)
  }

  /** SquareBoard.Get. Black is tested before Red. */
  function Get(b: SquareBoard, p: Point): (f: Figure)
    ensures !InBounds(b.size, p) ==> f == Figures.Nop
    ensures InBounds(b.size, p) ==> f.point == p && f.side != Sides.Nop
    ensures f.side == Black <==> InBounds(b.size, p) && BitPosition(b.size, p) in b.black
    ensures f.side == Empty ==> !f.isKing
  {
    if p == Points.Nop || p.col >= b.size || p.row >= b.size then Figures.Nop
    else
      var k := BitPosition(b.size, p);
      if k in b.black then Figure(p, Black, k in b.kings)
      else if k in b.red then Figure(p, Red, k in b.kings)
      else Figure(p, Empty, false)
  }

  /** SquareBoard.IsEmpty: out-of-bounds cells count as not empty. */
  function IsEmpty(b: SquareBoard, p: Point): (r: bool)
    ensures r ==> InBounds(b.size, p)
    ensures r <==> Get(b, p).side == Empty
  {
    if p.row < 0 || p.row >= b.size then false
    else if p.col < 0 || p.col >= b.size then false
    else
      var k := BitPosition(b.size, p);
      k !in b.black && k !in b.red
  }

  /** SquareBoard.NoFigures: Black tests the black mask, every other side the red one. */
  function NoFigures(b: SquareBoard, side: Side): (r: bool)
    ensures side == Black ==> (r <==> b.black == {})
    ensures side != Black ==> (r <==> b.red == {})
  {
    if side == Black then b.black == {} else b.red == {}
  }

  /** SetKingsMaskBit: the king bit follows the figure's flag. */
  function KingsAfterSet(kings: Mask, k: nat, isKing: bool): (m: Mask)
    requires k < 64
    ensures k in m <==> isKing
    ensures forall j :: j != k ==> (j in m <==> j in kings)
  {
    if isKing then kings + {k} else kings - {k}
  }

  /** SquareBoard.Set: writes the figure's side and king flag to its cell. */
  function Set(b: SquareBoard, f: Figure): (r: SquareBoard)
    requires InBounds(b.size, f.point)
    ensures r.size == b.size
  {
    var k := BitPosition(b.size, f.point);
    var kings := KingsAfterSet(b.kings, k, f.isKing);
    if f.side == Red then b.(black := b.black - {k}, red := b.red + {k}, kings := kings)
    else if f.side == Black then b.(black := b.black + {k}, red := b.red - {k}, kings := kings)
    else b.(black := b.black - {k}, red := b.red - {k}, kings := kings)
  }

  /** SquareBoard.Clear: drops the cell's black, red and king bits. */
  function Clear(b: SquareBoard, p: Point): (r: SquareBoard)
    requires InBounds(b.size, p)
    ensures r.size == b.size
  {
    var k := BitPosition(b.size, p);
    b.(black := b.black - {k}, red := b.red - {k}, kings := b.kings - {k})
  }

  /** SquareBoard.SetKing: sets the king bit only. */
  function SetKing(b: SquareBoard, p: Point): (r: SquareBoard)
    requires InBounds(b.size, p)
    ensures r.size == b.size && r.black == b.black && r.red == b.red
  {
    b.(kings := b.kings + {BitPosition(b.size, p)})
  }

  /** SquareBoard.ClearKing: clears the king bit only. */
  function ClearKing(b: SquareBoard, p: Point): (r: SquareBoard)
    requires InBounds(b.size, p)
    ensures r.size == b.size && r.black == b.black && r.red == b.red
  {
    b.(kings := b.kings - {BitPosition(b.size, p)})
  }

  /** The mask GetAll scans. */
  function MaskOf(b: SquareBoard, side: Side): Mask
  {
    if side == Black then b.black else b.red
  }

  /** The figure GetAll reports for cell (row, col) of a side's mask, if its bit is set. */
  function CellFigures(b: SquareBoard, side: Side, row: nat, col: nat): (r: seq<Figure>)
    requires row < b.size && col < b.size
  {
    var k := BitPosition(b.size, At(row, col));
    if k in MaskOf(b, side) then [Figure(At(row, col), side, k in b.kings)] else []
  }

  /** The figures GetAll finds in columns 0 .. cols-1 of one row, left to right. */
  function RowFigures(b: SquareBoard, side: Side, row: nat, cols: nat): (r: seq<Figure>)
    requires row < b.size && cols <= b.size
    ensures forall i :: 0 <= i < |r| ==> r[i].point.row == row && r[i].point.col < cols && r[i].side == side
    ensures forall i, j :: 0 <= i < j < |r| ==> r[i].point.col < r[j].point.col
  {
    if cols == 0 then []
    else RowFigures(b, side, row, cols - 1) + CellFigures(b, side, row, cols - 1)
  }

  /** The figures GetAll finds in rows 0 .. rows-1, row-major. */
  function RowsFigures(b: SquareBoard, side: Side, rows: nat): (r: seq<Figure>)
    requires rows <= b.size
    ensures forall i :: 0 <= i < |r| ==> r[i].point.row < rows && r[i].side == side && InBounds(b.size, r[i].point)
    ensures forall i, j :: 0 <= i < j < |r| ==> RowMajorBefore(r[i].point, r[j].point)
  {
    if rows == 0 then []
    else RowsFigures(b, side, rows - 1) + RowFigures(b, side, rows - 1, b.size)
  }

  /** Strict row-major order on cells. */
  predicate RowMajorBefore(p: Point, q: Point)
  {
    p.row < q.row || (p.row == q.row && p.col < q.col)
  }

  /** What the nested loops of GetAll collect for a side. */
  function FiguresOf(b: SquareBoard, side: Side): (r: seq<Figure>)
    ensures forall i :: 0 <= i < |r| ==> r[i].side == side && InBounds(b.size, r[i].point)
  {
    RowsFigures(b, side, b.size)
  }

  /** SquareBoard.GetAll as a value: sides up to Empty throw. */
  function AllOf(b: SquareBoard, side: Side): (r: Result<seq<Figure>, BoardError>)
    ensures r.Err? <==> !IsPlayer(side)
  {
    if !IsPlayer(side) then Err(InvalidSide(side)) else Ok(FiguresOf(b, side))
  }
}
