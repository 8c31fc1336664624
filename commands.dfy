/**
 * What the move commands do to a board value, and MoveCommandChain.Execute
 * as a fold over the steps of a sequence.
 *
 * Each command works on its own copy of the SquareBoard struct and reports
 * the figure the next command starts from (its CurrentFigure).
 */
module Commands {
  import opened Points
  import opened Sides
  import opened Figures
  import opened Boards
  import opened BoardLemmas
  import opened MoveSteps

  /** The board a command returns and the CurrentFigure it leaves behind. */
  datatype Outcome = Outcome(board: SquareBoard, figure: Figure)

  /** The Clear/Set calls of WalkMoveCommand are made on cells of the board. */
  predicate CanWalk(b: SquareBoard, f: Figure, target: Point)
  {
    InBounds(b.size, f.point) && InBounds(b.size, target)
  }

  /** WalkMoveCommand.Execute: empties the source cell and puts the figure on the target. */
  function Walk(b: SquareBoard, f: Figure, target: Point): Outcome
    requires CanWalk(b, f, target)
  {
    var moved := Figure(target, f.side, f.isKing);
    Outcome(Set(Clear(b, f.point), moved), moved)
  }

  /**
   * The cell JumpMoveCommand clears: one step from the source toward the
   * target, going up when the target's row is smaller and left when its
   * column is smaller (down and right otherwise, equal coordinates included).
   */
  function Middle(from: Point, to: Point): Point
  {
    var offsetRow := if from.row > to.row then -1 else 1;
    var offsetCol := if from.col > to.col then -1 else 1;
    At(from.row + offsetRow, from.col + offsetCol)
  }

  /** The Clear/Set/Clear calls of JumpMoveCommand are made on cells of the board. */
  predicate CanJump(b: SquareBoard, f: Figure, target: Point)
  {
    InBounds(b.size, f.point) && InBounds(b.size, target) && InBounds(b.size, Middle(f.point, target))
  }

  /** JumpMoveCommand.Execute: a walk to the target, then the middle cell is cleared whatever it holds. */
  function JumpOver(b: SquareBoard, f: Figure, target: Point): Outcome
    requires CanJump(b, f, target)
  {
    var moved := Figure(target, f.side, f.isKing);
    Outcome(Clear(Set(Clear(b, f.point), moved), Middle(f.point, target)), moved)
  }

  /** PromoteKingMoveCommand.Execute: sets the king bit; the figure it reports keeps its old flag. */
  function Promote(b: SquareBoard, f: Figure): Outcome
    requires InBounds(b.size, f.point)
  {
    Outcome(SetKing(b, f.point), f)
  }

  /** The command CreateMoveCommand picks for a step can run on this board and figure. */
  predicate CanStep(b: SquareBoard, f: Figure, s: MoveStep)
  {
    match s.stepType
    case Move => CanWalk(b, f, s.target)
    case Jump => CanJump(b, f, s.target)
    case PromoteKing => InBounds(b.size, f.point)
  }

  /** The command CreateMoveCommand picks for the step, executed. */
  function Step(b: SquareBoard, f: Figure, s: MoveStep): (o: Outcome)
    requires CanStep(b, f, s)
    ensures o.board.size == b.size
  {
    match s.stepType
    case Move => Walk(b, f, s.target)
    case Jump => JumpOver(b, f, s.target)
    case PromoteKing => Promote(b, f)
  }

  /** Every command of the chain, in turn, can run on what the previous ones produced. */
  predicate Executable(b: SquareBoard, f: Figure, steps: seq<MoveStep>)
    decreases |steps|
  {
    steps == [] ||
      (CanStep(b, f, steps[0]) &&
        var o := Step(b, f, steps[0]);
        Executable(o.board, o.figure, steps[1..]))
  }

  /** MoveCommandChain.Execute: the steps' commands threaded through board and current figure. */
  function Run(b: SquareBoard, f: Figure, steps: seq<MoveStep>): Outcome
    requires Executable(b, f, steps)
    decreases |steps|
  {
    if steps == [] then Outcome(b, f)
    else
      var o := Step(b, f, steps[0]);
      Run(o.board, o.figure, steps[1..])
  }

  /** A walk: the source is empty (king bit too), the target holds the figure, no other cell changes. */
  lemma WalkCells(b: SquareBoard, f: Figure, target: Point, q: Point)
    requires CanWalk(b, f, target)
    ensures var r := Walk(b, f, target);
      && r.figure == Figure(target, f.side, f.isKing)
      && (target != f.point ==> IsEmpty(r.board, f.point) && BitPosition(b.size, f.point) !in r.board.kings)
      && (IsPlayer(f.side) ==> Get(r.board, target) == r.figure)
      && (q != f.point && q != target ==> Get(r.board, q) == Get(b, q))
  {
    var c := Clear(b, f.point);
    ClearEmpties(b, f.point);
    OtherCellsUnchanged(b, f, f.point, q);
    OtherCellsUnchanged(c, Figure(target, f.side, f.isKing), f.point, q);
    OtherCellsUnchanged(c, Figure(target, f.side, f.isKing), f.point, f.point);
    if IsPlayer(f.side) {
      GetAfterSet(c, Figure(target, f.side, f.isKing));
    }
    if target != f.point {
      BitInjective(b.size, f.point, target);
    }
  }

  /** A figure walking to its own cell leaves the board as it was. */
  lemma WalkInPlace(b: SquareBoard, f: Figure)
    requires Valid(b) && InBounds(b.size, f.point) && Get(b, f.point) == f && IsPlayer(f.side)
    ensures Walk(b, f, f.point) == Outcome(b, f)
  {
    var k := BitPosition(b.size, f.point);
    var r := Walk(b, f, f.point).board;
    if f.side == Black {
      assert r.black == b.black;
    } else {
      assert k in b.red && k !in b.black;
      assert r.red == b.red;
    }
    assert r.kings == b.kings;
  }

  /** The middle of a two-step diagonal jump is the cell one step along the same diagonal. */
  lemma MiddleOfJump(p: Point, dr: int, dc: int)
    requires (dr == 1 || dr == -1) && (dc == 1 || dc == -1)
    requires p.row + 2 * dr >= 0 && p.col + 2 * dc >= 0
    ensures Middle(p, MakePoint(p.row + 2 * dr, p.col + 2 * dc)) == MakePoint(p.row + dr, p.col + dc)
  {
  }

  /**
   * A jump: source and middle cells end up empty, the target holds the
   * figure, no other cell changes. The middle is cleared whatever it held.
   */
  lemma JumpCells(b: SquareBoard, f: Figure, target: Point, q: Point)
    requires CanJump(b, f, target) && target != Middle(f.point, target)
    ensures var r := JumpOver(b, f, target);
      && r.figure == Figure(target, f.side, f.isKing)
      && IsEmpty(r.board, Middle(f.point, target))
      && (target != f.point ==> IsEmpty(r.board, f.point))
      && (IsPlayer(f.side) ==> Get(r.board, target) == r.figure)
      && (q != f.point && q != target && q != Middle(f.point, target) ==> Get(r.board, q) == Get(b, q))
  {
    var m := Middle(f.point, target);
    var w := Walk(b, f, target);
    WalkCells(b, f, target, q);
    WalkCells(b, f, target, m);
    ClearEmpties(w.board, m);
    OtherCellsUnchanged(w.board, f, m, q);
    OtherCellsUnchanged(w.board, f, m, target);
    OtherCellsUnchanged(w.board, f, m, f.point);
  }

  /** Promotion sets the king bit of an occupied cell and changes neither occupancy nor the figure. */
  lemma PromoteCells(b: SquareBoard, f: Figure, q: Point)
    requires InBounds(b.size, f.point)
    ensures var r := Promote(b, f);
      && r.figure == f
      && r.board.black == b.black && r.board.red == b.red
      && BitPosition(b.size, f.point) in r.board.kings
      && (Get(b, f.point).side != Empty ==> Get(r.board, f.point) == Get(b, f.point).(isKing := true))
      && Get(r.board, q).side == Get(b, q).side
      && (q != f.point ==> Get(r.board, q) == Get(b, q))
  {
    SetKingCrowns(b, f.point, q);
    OtherCellsUnchanged(b, f, f.point, q);
  }

  /** Promoting twice is promoting once. */
  lemma PromoteIdempotent(b: SquareBoard, f: Figure)
    requires InBounds(b.size, f.point)
    ensures Promote(Promote(b, f).board, Promote(b, f).figure) == Promote(b, f)
  {
    var k := BitPosition(b.size, f.point);
    assert b.kings + {k} + {k} == b.kings + {k};
  }

  /** The empty chain returns the board it was given. */
  lemma RunEmpty(b: SquareBoard, f: Figure)
    ensures Executable(b, f, []) && Run(b, f, []) == Outcome(b, f)
  {
  }

  /** Running two sequences back to back is running their concatenation. */
  lemma {:induction false} RunAppend(b: SquareBoard, f: Figure, s1: seq<MoveStep>, s2: seq<MoveStep>)
    requires Executable(b, f, s1)
    ensures var o := Run(b, f, s1);
      Executable(b, f, s1 + s2) <==> Executable(o.board, o.figure, s2)
    ensures var o := Run(b, f, s1);
      Executable(o.board, o.figure, s2) ==> Run(b, f, s1 + s2) == Run(o.board, o.figure, s2)
    decreases |s1|
  {
    if s1 == [] {
      assert s1 + s2 == s2;
    } else {
      var o := Step(b, f, s1[0]);
      RunAppend(o.board, o.figure, s1[1..], s2);
      assert (s1 + s2)[0] == s1[0];
      assert (s1 + s2)[1..] == s1[1..] + s2;
    }
  }

  /** Every command keeps the board valid, so a whole chain does. */
  lemma {:induction false} RunKeepsValid(b: SquareBoard, f: Figure, steps: seq<MoveStep>)
    requires Valid(b) && Executable(b, f, steps)
    ensures Valid(Run(b, f, steps).board)
    decreases |steps|
  {
    if steps != [] {
      var s := steps[0];
      match s.stepType {
        case Move =>
          MutatorsKeepValid(b, f, f.point);
          MutatorsKeepValid(Clear(b, f.point), Figure(s.target, f.side, f.isKing), f.point);
        case Jump =>
          var moved := Figure(s.target, f.side, f.isKing);
          MutatorsKeepValid(b, f, f.point);
          MutatorsKeepValid(Clear(b, f.point), moved, f.point);
          MutatorsKeepValid(Set(Clear(b, f.point), moved), moved, Middle(f.point, s.target));
        case PromoteKing =>
          MutatorsKeepValid(b, f, f.point);
      }
      var o := Step(b, f, s);
      RunKeepsValid(o.board, o.figure, steps[1..]);
    }
  }
}
