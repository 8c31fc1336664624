/**
 * EnglishDraughtsRules as the source runs it: the board kept in a field, the
 * builders filled in loops and recursion, MoveSequence objects copied and
 * extended in place. A builder list holds the step list of each sequence
 * added to it: no sequence is changed after it has been added, so this is
 * what the caller later enumerates. Every method is proved equal to the
 * functions of module Rules.
 */
module RulesEngine {
  import opened Results
  import opened Points
  import opened Sides
  import opened Directions
  import opened Figures
  import opened Boards
  import opened MutableBoards
  import opened MoveSteps
  import opened MoveSequences
  import opened Rules

  class EnglishDraughtsRules {
    /** The board of the GetMoves call in progress. */
    var board: SquareBoard

    constructor ()
      ensures board == New(0)
    {
      board := New(0);
    }

    /** GetJumpPoint, with its `out neighbour`. */
    method GetJumpPoint(figure: Figure, direction: Direction) returns (p: Point, neighbour: Figure)
      requires direction != Directions.Nop
      ensures neighbour == Get(board, Apply(direction, figure.point, 1))
      ensures p != Points.Nop <==>
        neighbour.side == Opposite(figure.side) && IsEmpty(board, Apply(direction, figure.point, 2))
      ensures p == JumpPoint(board, figure, direction)
    {
      neighbour := Get(board, Apply(direction, figure.point, 1));
      if neighbour.side == Opposite(figure.side) {
        var doubleStep := Apply(direction, figure.point, 2);
        if IsEmpty(board, doubleStep) {
          return doubleStep, neighbour;
        }
      }
      return Points.Nop, neighbour;
    }

    /** BuildSimpleMoves. */
    method BuildSimpleMoves(figure: Figure) returns (simpleMoves: seq<seq<MoveStep>>)
      requires IsPlayer(figure.side)
      ensures simpleMoves == SimpleMoves(board, figure)
    {
      var directions := DirectionsOf(figure);
      simpleMoves := [];
      var i := 0;
      while i < |directions|
        invariant 0 <= i <= |directions|
        invariant simpleMoves == SimpleMovesUpTo(board, figure, i)
      {
        SimpleMovesStep(board, figure, i);
        ghost var move := SimpleMove(board, figure, directions[i]);
        var jump, neighbour := GetJumpPoint(figure, directions[i]);
        if jump == Points.Nop && neighbour.side == Empty {
          var sequence := new MoveSequence.Single(MoveStep.Move(neighbour.point));
          if !figure.isKing && ShouldPromoteKing(Figure(neighbour.point, figure.side, figure.isKing), board.size) {
            sequence.Add(MoveStep.King());
          }
          assert sequence.steps == move.value;
          simpleMoves := simpleMoves + [sequence.steps];
        } else {
          assert move.None?;
        }
        i := i + 1;
      }
    }

    /** BuildJumpSequences: `builder` is the list so far, `result` the list after the call. */
    method BuildJumpSequences(figure: Figure, sequence: MoveSequence, builder: seq<seq<MoveStep>>)
      returns (result: seq<seq<MoveStep>>)
      requires IsPlayer(figure.side) && sequence.Valid()
      modifies sequence
      ensures result == builder + JumpSequences(board, figure, old(sequence.steps))
      decreases Unvisited(board.size, Targets(sequence.steps)), 2
    {
      if ShouldPromoteKing(figure, board.size) {
        sequence.Add(MoveStep.King());
        return builder + [sequence.steps];
      }
      var endOfSequence;
      result, endOfSequence := FollowDirections(figure, sequence, builder);
      if endOfSequence && !sequence.IsEmpty() {
        result := result + [sequence.steps];
      }
    }

    /** The direction loop of BuildJumpSequences, for a figure that is not being crowned. */
    method FollowDirections(figure: Figure, sequence: MoveSequence, builder: seq<seq<MoveStep>>)
      returns (result: seq<seq<MoveStep>>, endOfSequence: bool)
      requires IsPlayer(figure.side) && sequence.Valid()
      ensures endOfSequence <==> !AnyFreshJump(board, figure, Targets(sequence.steps), |DirectionsOf(figure)|)
      ensures result == builder + Branches(board, figure, sequence.steps, |DirectionsOf(figure)|)
      decreases Unvisited(board.size, Targets(sequence.steps)), 1
    {
      var directions := DirectionsOf(figure);
      ghost var steps := sequence.steps;
      ghost var b := board;
      endOfSequence := true;
      result := builder;
      var i := 0;
      while i < |directions|
        invariant 0 <= i <= |directions|
        invariant sequence.steps == steps && board == b
        invariant result == builder + Branches(b, figure, steps, i)
        invariant endOfSequence <==> !AnyFreshJump(b, figure, Targets(steps), i)
      {
        var jumped;
        ghost var before := result;
        result, jumped := FollowDirection(figure, sequence, directions[i], result);
        BranchesExtend(b, figure, steps, i, builder, before, result);
        if jumped {
          endOfSequence := false;
        }
        i := i + 1;
      }
    }

    /**
     * One iteration of the direction loop: if the jump in this direction
     * exists and lands on a cell not yet in the sequence, search on from a
     * copy of the sequence extended with it.
     */
    method FollowDirection(figure: Figure, sequence: MoveSequence, direction: Direction, builder: seq<seq<MoveStep>>)
      returns (result: seq<seq<MoveStep>>, jumped: bool)
      requires IsPlayer(figure.side) && direction != Directions.Nop && sequence.Valid()
      ensures jumped == FreshJump(board, figure, Targets(sequence.steps), direction)
      ensures result == builder + Follow(board, figure, sequence.steps, direction)
      decreases Unvisited(board.size, Targets(sequence.steps)), 0
    {
      var position, neighbour := GetJumpPoint(figure, direction);
      if position == Points.Nop || sequence.Contains(position) {
        return builder, false;
      }
      var figureAfterJump := Figure(position, figure.side, figure.isKing);
      var newSequence := new MoveSequence.Copy(sequence);
      newSequence.Add(MoveStep.Jump(figureAfterJump.point));
      TargetsAppend(sequence.steps, MoveStep.Jump(position));
      UnvisitedShrinks(board.size, Targets(sequence.steps), position);
      result := BuildJumpSequences(figureAfterJump, newSequence, builder);
      jumped := true;
    }

    /** GetMoves: the jump dictionary if any figure can capture, else the simple one. */
    method GetMoves(board: SquareBoard, side: Side) returns (r: Result<seq<Entry>, BoardError>)
      modifies this
      ensures this.board == board
      ensures r == Moves(board, side)
    {
      this.board := board;
      var copy := new MutableBoard.Copy(board);
      var all := copy.GetAll(side);
      if all.Err? {
        return Err(all.error);
      }
      var jumpMoves, simpleMoves := CollectMoves(all.value);
      if |jumpMoves| > 0 {
        return Ok(jumpMoves);
      }
      return Ok(simpleMoves);
    }

    /** GetMoves' loop over the figures GetAll returned, filling both dictionaries. */
    method CollectMoves(figures: seq<Figure>) returns (jumpMoves: seq<Entry>, simpleMoves: seq<Entry>)
      requires AllPlayers(figures)
      ensures jumpMoves == JumpEntries(board, figures)
      ensures simpleMoves == SimpleEntries(board, figures)
    {
      jumpMoves, simpleMoves := [], [];
      var i := 0;
      while i < |figures|
        invariant 0 <= i <= |figures|
        invariant jumpMoves == JumpEntries(board, figures[..i])
        invariant simpleMoves == SimpleEntries(board, figures[..i])
      {
        EntriesStep(board, figures, i);
        jumpMoves, simpleMoves := AddFigureMoves(figures[i], jumpMoves, simpleMoves);
        i := i + 1;
      }
      assert figures[..i] == figures;
    }

    /** One iteration of GetMoves' figure loop: its jumps if it has any, else its simple moves. */
    method AddFigureMoves(figure: Figure, jumpMoves: seq<Entry>, simpleMoves: seq<Entry>)
      returns (jumpMoves': seq<Entry>, simpleMoves': seq<Entry>)
      requires IsPlayer(figure.side)
      ensures jumpMoves' == jumpMoves +
        if JumpsOf(board, figure) != [] then [Entry(figure, JumpsOf(board, figure))] else []
      ensures simpleMoves' == simpleMoves +
        if JumpsOf(board, figure) == [] && SimpleMoves(board, figure) != [] then
          [Entry(figure, SimpleMoves(board, figure))]
        else []
    {
      var jumps := new MoveSequence();
      var found := BuildJumpSequences(figure, jumps, []);
      assert found == JumpsOf(board, figure);
      jumpMoves', simpleMoves' := jumpMoves, simpleMoves;
      if |found| > 0 {
        jumpMoves' := jumpMoves + [Entry(figure, found)];
      } else {
        var simple := BuildSimpleMoves(figure);
        if |simple| > 0 {
          simpleMoves' := simpleMoves + [Entry(figure, simple)];
        }
      }
    }

    /** GameIsOver: Black or Red has an empty move dictionary. */
    method GameIsOver(board: SquareBoard) returns (over: bool)
      modifies this
      ensures over == Rules.GameIsOver(board)
    {
      var blackMoves := GetMoves(board, Black);
      var redMoves := GetMoves(board, Red);
      over := |blackMoves.value| == 0 || |redMoves.value| == 0;
    }
  }
}
