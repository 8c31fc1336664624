/** The in-place side of SquareBoard: its fields, its mutating methods and GetAll's loops. */
module MutableBoards {
  import opened Results
  import opened Points
  import opened Sides
  import opened Figures
  import opened Boards

  /** A SquareBoard variable updated in place: the struct's fields and its mutating methods. */
  class MutableBoard {
    var size: BoardSize
    var black: Mask
    var red: Mask
    var kings: Mask

    /** The struct value the fields currently hold. */
    function Value(): SquareBoard
      reads this
    {
      SquareBoard(size, black, red, kings)
    }

    /** new SquareBoard(size). */
    constructor (size: BoardSize)
      ensures Value() == New(size)
    {
      this.size := size;
      black := {};
      red := {};
      kings := {};
    }

    /** A struct copy: assigning a board value to a variable. */
    constructor Copy(b: SquareBoard)
      ensures Value() == b
    {
      size := b.size;
      black := b.black;
      red := b.red;
      kings := b.kings;
    }

    method Set(cell: Figure)
      requires InBounds(size, cell.point)
      modifies this
      ensures Value() == Boards.Set(old(Value()), cell)
    {
      var k := BitPosition(size, cell.point);
      if cell.isKing {
        kings := kings + {k};
      } else {
        kings := kings - {k};
      }
      if cell.side == Red {
        black := black - {k};
        red := red + {k};
      } else if cell.side == Black {
        black := black + {k};
        red := red - {k};
      } else {
        black := black - {k};
        red := red - {k};
      }
    }

    method Clear(p: Point)
      requires InBounds(size, p)
      modifies this
      ensures Value() == Boards.Clear(old(Value()), p)
    {
      var k := BitPosition(size, p);
      black := black - {k};
      red := red - {k};
      kings := kings - {k};
    }

    method SetKing(p: Point)
      requires InBounds(size, p)
      modifies this
      ensures Value() == Boards.SetKing(old(Value()), p)
    {
      var k := BitPosition(size, p);
      kings := kings + {k};
    }

    method ClearKing(p: Point)
      requires InBounds(size, p)
      modifies this
      ensures Value() == Boards.ClearKing(old(Value()), p)
    {
      var k := BitPosition(size, p);
      kings := kings - {k};
    }

    /** SquareBoard.GetAll: rows outer, columns inner, bit Size * j + i. */
    method GetAll(side: Side) returns (r: Result<seq<Figure>, BoardError>)
      ensures r == AllOf(Value(), side)
    {
      if !IsPlayer(side) {
        return Err(InvalidSide(side));
      }
      var result: seq<Figure> := [];
      var figures := if side == Black then black else red;
      var i := 0;
      while i < size
        invariant 0 <= i <= size
        invariant result == RowsFigures(Value(), side, i)
      {
        var j := 0;
        var row: seq<Figure> := [];
        while j < size
          invariant 0 <= j <= size
          invariant row == RowFigures(Value(), side, i, j)
        {
          var k := Bit(size, i, j);
          assert k == BitPosition(size, At(i, j));
          if k in figures {
            row := row + [Figure(At(i, j), side, k in kings)];
          }
          j := j + 1;
        }
        result := result + row;
        i := i + 1;
      }
      return Ok(result);
    }
  }
}
