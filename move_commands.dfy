/**
 * The command objects of Checkers.Core.Rules: WalkMoveCommand,
 * JumpMoveCommand, PromoteKingMoveCommand and MoveCommandChain.
 *
 * Each command's Execute receives a copy of the board (a SquareBoard value),
 * updates that copy and records the figure it leaves behind in its
 * CurrentFigure field.
 */
module MoveCommands {
  import opened Points
  import opened Figures
  import opened Boards
  import opened MoveSteps
  import opened Commands

  class WalkMoveCommand {
    const step: MoveStep
    var currentFigure: Figure

    constructor(step: MoveStep)
      ensures this.step == step
    {
      this.step := step;
      currentFigure := Figures.Nop;
    }

    method Execute(board: SquareBoard, figure: Figure) returns (r: SquareBoard)
      requires CanWalk(board, figure, step.target)
      modifies this
      ensures Outcome(r, currentFigure) == Walk(board, figure, step.target)
    {
      r := board;
      r := Clear(r, figure.point);
      currentFigure := Figure(step.target, figure.side, figure.isKing);
      r := Set(r, currentFigure);
    }
  }

  class JumpMoveCommand {
    const step: MoveStep
    var currentFigure: Figure

    constructor(step: MoveStep)
      ensures this.step == step
    {
      this.step := step;
      currentFigure := Figures.Nop;
    }

    method Execute(board: SquareBoard, figure: Figure) returns (r: SquareBoard)
      requires CanJump(board, figure, step.target)
      modifies this
      ensures Outcome(r, currentFigure) == JumpOver(board, figure, step.target)
    {
      r := board;
      var initialPosition := figure.point;
      r := Clear(r, initialPosition);
      currentFigure := Figure(step.target, figure.side, figure.isKing);
      r := Set(r, currentFigure);
      var offsetRow := 1;
      var offsetCol := 1;
      if initialPosition.row > step.target.row {
        offsetRow := -1;
      }
      if initialPosition.col > step.target.col {
        offsetCol := -1;
      }
      var middlePoint := At(initialPosition.row + offsetRow, initialPosition.col + offsetCol);
      r := Clear(r, middlePoint);
    }
  }

  class PromoteKingMoveCommand {
    const step: MoveStep
    var currentFigure: Figure

    constructor(step: MoveStep)
      ensures this.step == step
    {
      this.step := step;
      currentFigure := Figures.Nop;
    }

    method Execute(board: SquareBoard, figure: Figure) returns (r: SquareBoard)
      requires InBounds(board.size, figure.point)
      modifies this
      ensures Outcome(r, currentFigure) == Promote(board, figure)
    {
      r := board;
      r := SetKing(r, figure.point);
      currentFigure := figure;
    }
  }

  /** One element of the chain's command array: the three command classes share no base type here. */
  datatype Command =
    | WalkCommand(walk: WalkMoveCommand)
    | JumpCommand(jump: JumpMoveCommand)
    | PromoteCommand(promote: PromoteKingMoveCommand)
  {
    /** The step the command was created for. */
    function Step(): MoveStep
    {
      match this
      case WalkCommand(c) => c.step
      case JumpCommand(c) => c.step
      case PromoteCommand(c) => c.step
    }

    /** The command's class is the one CreateMoveCommand picks for its step's type. */
    predicate WellTyped()
    {
      match this
      case WalkCommand(c) => c.step.stepType == Move
      case JumpCommand(c) => c.step.stepType == Jump
      case PromoteCommand(c) => c.step.stepType == PromoteKing
    }

    function Object(): object
    {
      match this
      case WalkCommand(c) => c
      case JumpCommand(c) => c
      case PromoteCommand(c) => c
    }
  }

  /** The steps the commands were created for, in order. */
  function StepsOf(cs: seq<Command>): (r: seq<MoveStep>)
    ensures |r| == |cs| && forall i :: 0 <= i < |cs| ==> r[i] == cs[i].Step()
  {
    if cs == [] then [] else StepsOf(cs[..|cs| - 1]) + [cs[|cs| - 1].Step()]
  }

  /** MoveCommandChain.CreateMoveCommand: the command class for the step's type (the enumeration has no other value). */
  method CreateMoveCommand(step: MoveStep) returns (c: Command)
    ensures fresh(c.Object()) && c.Step() == step && c.WellTyped()
    ensures step.stepType == Move <==> c.WalkCommand?
    ensures step.stepType == Jump <==> c.JumpCommand?
    ensures step.stepType == PromoteKing <==> c.PromoteCommand?
  {
    match step.stepType
    case Move =>
      var w := new WalkMoveCommand(step);
      c := WalkCommand(w);
    case Jump =>
      var j := new JumpMoveCommand(step);
      c := JumpCommand(j);
    case PromoteKing =>
      var p := new PromoteKingMoveCommand(step);
      c := PromoteCommand(p);
  }

  class MoveCommandChain {
    const figure: Figure
    const initialBoard: SquareBoard
    const moves: seq<Command>

    /** The command objects Execute updates. */
    function Objects(): set<object>
    {
      set i | 0 <= i < |moves| :: moves[i].Object()
    }

    /** Every command is of the class its step's type calls for. */
    predicate Valid()
    {
      forall i :: 0 <= i < |moves| ==> moves[i].WellTyped()
    }

    /** One command per step the sequence enumerates, in order; the board is copied. */
    constructor(figure: Figure, board: SquareBoard, move: seq<MoveStep>)
      ensures this.figure == figure && initialBoard == board
      ensures StepsOf(moves) == move
      ensures Valid() && fresh(Objects())
    {
      this.figure := figure;
      initialBoard := board;
      var cs: seq<Command> := [];
      var i := 0;
      while i < |move|
        invariant i <= |move|
        invariant StepsOf(cs) == move[..i]
        invariant forall k :: 0 <= k < |cs| ==> cs[k].WellTyped() && fresh(cs[k].Object())
      {
        var c := CreateMoveCommand(move[i]);
        cs := cs + [c];
        i := i + 1;
      }
      moves := cs;
      assert move[..|move|] == move;
    }

    /** The commands run in order, each on the board and figure the previous one produced. */
    method Execute() returns (board: SquareBoard)
      requires Valid() && Executable(initialBoard, figure, StepsOf(moves))
      modifies Objects()
      ensures board == Run(initialBoard, figure, StepsOf(moves)).board
    {
      ghost var steps := StepsOf(moves);
      board := initialBoard;
      var currentFigure := figure;
      for i := 0 to |moves|
        invariant Executable(board, currentFigure, steps[i..])
        invariant Run(board, currentFigure, steps[i..]) == Run(initialBoard, figure, steps)
      {
        assert steps[i..][0] == steps[i] && steps[i..][1..] == steps[i + 1..];
        board, currentFigure := ExecuteCommand(moves[i], board, currentFigure);
      }
      assert steps[|moves|..] == [];
    }
  }

  /** One pass of Execute's loop: `board = step.Execute(board, currentFigure); currentFigure = step.CurrentFigure`. */
  method ExecuteCommand(c: Command, board: SquareBoard, figure: Figure) returns (next: SquareBoard, current: Figure)
    requires c.WellTyped() && CanStep(board, figure, c.Step())
    modifies c.Object()
    ensures Outcome(next, current) == Step(board, figure, c.Step())
  {
    match c
    case WalkCommand(w) =>
      next := w.Execute(board, figure);
      current := w.currentFigure;
    case JumpCommand(j) =>
      next := j.Execute(board, figure);
      current := j.currentFigure;
    case PromoteCommand(p) =>
      next := p.Execute(board, figure);
      current := p.currentFigure;
  }
}
