/**
 * Checkers.Core.Game.Game: a human plays one side against the bot. The
 * game keeps the side to move, the moves that side may make on the current
 * board, a stack of the moves made with the board before each, and the
 * winner once the rules declare the game over.
 *
 * GameState and the functions Started, MadeMove and Undone describe the
 * game on values; the Game class's methods are proved to follow them.
 */
module DraughtsGames {
  import opened Results
  import Sides
  import opened GameSides
  import opened Figures
  import opened Boards
  import opened MoveSteps
  import opened Rules
  import opened Commands
  import opened MoveCommands
  import opened GameHistory
  import RunLemmas
  import NegaMax
  import Scoring
  import BoardLemmas

  /** The IRules the game is built with: move generation, the game-over test and the side that moves first. */
  datatype RulesProvider = RulesProvider(getMoves: NegaMax.RulesFn, gameIsOver: SquareBoard -> bool, firstMoveSide: GameSide)

  /** The exceptions MakeMove raises: two GameExceptions, and the array access with a negative index. */
  datatype GameError = FigureNotFound(figure: Figure) | MoveIndexNotFound(figure: Figure, moveIndex: int) | IndexOutOfRange(moveIndex: int)

  datatype GameState = GameState(board: SquareBoard, playerSide: GameSide, sideMoveNow: GameSide,
                                 winner: Option<GameSide>, validMoves: seq<Entry>, history: seq<History>)

  /** The English draughts rules as the game's provider; the games only ask them about Black and Red. */
  function EnglishRules(): (p: RulesProvider)
    ensures p.firstMoveSide == Red
    ensures forall b :: p.gameIsOver(b) == GameIsOver(b)
  {
    RulesProvider((b, side) => if Sides.IsPlayer(side) then MovesOf(b, side) else [], GameIsOver, FirstMoveSide)
  }

  /** Every sequence the English rules list can be executed by MoveCommandChain. */
  lemma EnglishRulesWellFormed()
    ensures NegaMax.RulesWellFormed(EnglishRules().getMoves)
  {
    var getMoves := EnglishRules().getMoves;
    forall b, side | Valid(b)
      ensures NegaMax.AllExecutable(b, getMoves(b, side))
    {
      forall e, q | e in getMoves(b, side) && q in e.sequences
        ensures Executable(b, e.figure, q)
      {
        RunLemmas.ListedSequencesRun(b, side, e, q);
      }
    }
  }

  /** TrivialBoardScoring as the bot's scoring function; a side that is not a player never reaches it. */
  function TrivialScoring(): (scoring: NegaMax.ScoringFn)
    ensures forall b, side :: Sides.IsPlayer(side) ==> scoring(b, side) == Scoring.Evaluation(b, side).value
  {
    (b, side) => if Sides.IsPlayer(side) then Scoring.Evaluation(b, side).value else 0
  }

  /** The material count of at most 64 figures a side stays far inside the negatable Int32 range. */
  lemma TrivialScoringInRange()
    ensures NegaMax.ScoringInRange(TrivialScoring())
    ensures forall b, side :: -192 <= TrivialScoring()(b, side) <= 192
  {
    forall b, side
      ensures -192 <= TrivialScoring()(b, side) <= 192
    {
      if Sides.IsPlayer(side) {
        Scoring.EvaluationBounds(b, side);
        BoardLemmas.FiguresOfCount(b, side);
        BoardLemmas.FiguresOfCount(b, Sides.Opposite(side));
      }
    }
  }

  /** The bot as the game builds it, English rules with TrivialBoardScoring, meets FindBestMove's requirements. */
  lemma EnglishBotSound(options: NegaMax.BotOptions, botSide: Sides.Side)
    ensures NegaMax.Sound(NegaMax.Search(EnglishRules().getMoves, TrivialScoring(), options, botSide))
  {
    EnglishRulesWellFormed();
    TrivialScoringInRange();
  }

  /** The dictionary lookup TryGetValue: the sequences listed for the figure, if it has an entry. */
  function Lookup(moves: seq<Entry>, figure: Figure): (r: Option<seq<seq<MoveStep>>>)
    ensures r.None? <==> forall e :: e in moves ==> e.figure != figure
    ensures r.Some? ==> Entry(figure, r.value) in moves
  {
    if moves == [] then None
    else if moves[0].figure == figure then Some(moves[0].sequences)
    else Lookup(moves[1..], figure)
  }

  /** UpdateAvailableMoves has run on this state: the valid moves are those of the side to move on the board. */
  predicate Current(rules: RulesProvider, g: GameState)
  {
    g.validMoves == rules.getMoves(g.board, Convert(g.sideMoveNow))
  }

  /** The game as the constructor leaves it before Start: no moves on offer and nothing to undo. */
  predicate NotStarted(g: GameState)
  {
    g.validMoves == [] && g.history == []
  }

  /** Every board is valid and, while nobody has won, the valid moves are current or the game is not started yet. */
  predicate Consistent(rules: RulesProvider, g: GameState)
  {
    Valid(g.board) && BoardsValid(g.history) && (g.winner.None? ==> Current(rules, g) || NotStarted(g))
  }

  /**
   * Start (without the bot's opening move): the player's side is set, the
   * history cleared, the board rebuilt, the first side to move and its
   * moves taken from the rules; the winner is left as it was.
   */
  function Started(rules: RulesProvider, g: GameState, startBoard: SquareBoard, playerSide: GameSide): (c: GameState)
    ensures c.playerSide == playerSide && c.history == [] && c.board == startBoard
    ensures c.sideMoveNow == rules.firstMoveSide && c.winner == g.winner
    ensures Current(rules, c)
  {
    GameState(startBoard, playerSide, rules.firstMoveSide, g.winner,
              rules.getMoves(startBoard, Convert(rules.firstMoveSide)), [])
  }

  /**
   * MakeMove(figure, moveIndex). Nothing happens once there is a winner.
   * A figure without valid moves and an index past its sequences are
   * refused before anything changes. Otherwise the board before the move is
   * pushed, the chain run, and either the rules declare the game over and
   * the side that moved wins, or the side to move toggles and its moves are
   * updated.
   */
  function MadeMove(rules: RulesProvider, g: GameState, figure: Figure, moveIndex: int): (r: Result<GameState, GameError>)
    requires g.winner.None? ==> NegaMax.AllExecutable(g.board, g.validMoves)
    ensures g.winner.Some? ==> r == Ok(g)
    ensures g.winner.None? && Lookup(g.validMoves, figure).None? ==> r == Err(FigureNotFound(figure))
    ensures g.winner.None? && Lookup(g.validMoves, figure).Some? && moveIndex >= |Lookup(g.validMoves, figure).value| ==>
      r == Err(MoveIndexNotFound(figure, moveIndex))
    ensures g.winner.None? && Lookup(g.validMoves, figure).Some? && moveIndex < 0 ==> r == Err(IndexOutOfRange(moveIndex))
    ensures r.Ok? && g.winner.None? ==>
      && Lookup(g.validMoves, figure).Some? && 0 <= moveIndex < |Lookup(g.validMoves, figure).value|
      && var move := Lookup(g.validMoves, figure).value[moveIndex];
      && Executable(g.board, figure, move)
      && r.value.history == g.history + [History(g.sideMoveNow, move, g.board)]
      && r.value.board == Run(g.board, figure, move).board
      && r.value.playerSide == g.playerSide
      && (rules.gameIsOver(r.value.board) ==> r.value.winner == Some(g.sideMoveNow) && r.value.sideMoveNow == g.sideMoveNow)
      && (!rules.gameIsOver(r.value.board) ==>
            r.value.winner.None? && r.value.sideMoveNow == Other(g.sideMoveNow) && Current(rules, r.value))
  {
    if g.winner.Some? then Ok(g)
    else match Lookup(g.validMoves, figure)
      case None => Err(FigureNotFound(figure))
      case Some(moves) =>
        if |moves| <= moveIndex then Err(MoveIndexNotFound(figure, moveIndex))
        else if moveIndex < 0 then Err(IndexOutOfRange(moveIndex))
        else
          var move := moves[moveIndex];
          assert Entry(figure, moves) in g.validMoves && move in moves;
          var pushed := g.(history := g.history + [History(g.sideMoveNow, move, g.board)]);
          var moved := pushed.(board := Run(g.board, figure, move).board);
          if rules.gameIsOver(moved.board) then Ok(moved.(winner := Some(g.sideMoveNow)))
          else
            var toggled := moved.(sideMoveNow := Other(moved.sideMoveNow));
            Ok(toggled.(validMoves := rules.getMoves(toggled.board, Convert(toggled.sideMoveNow))))
  }

  /**
   * Undo: refused with an empty history or when the bot is to move;
   * otherwise the top entry is popped, its board before the move restored
   * and the moves updated, the side to move and the winner unchanged.
   */
  function Undone(rules: RulesProvider, g: GameState): (r: (bool, GameState))
    ensures !r.0 <==> |g.history| == 0 || g.sideMoveNow != g.playerSide
    ensures !r.0 ==> r.1 == g
    ensures r.0 ==> && r.1.history == g.history[..|g.history| - 1]
                    && r.1.board == g.history[|g.history| - 1].boardBeforeMove
                    && r.1.sideMoveNow == g.sideMoveNow && r.1.playerSide == g.playerSide
                    && r.1.winner == g.winner && Current(rules, r.1)
  {
    if |g.history| <= 0 then (false, g)
    else if g.sideMoveNow != g.playerSide then (false, g)
    else
      var popped := g.(board := g.history[|g.history| - 1].boardBeforeMove, history := g.history[..|g.history| - 1]);
      (true, popped.(validMoves := rules.getMoves(popped.board, Convert(popped.sideMoveNow))))
  }

  /** While nobody has won, the moves on offer are executable when the rules' are. */
  lemma {:induction false} ConsistentExecutable(rules: RulesProvider, g: GameState)
    requires NegaMax.RulesWellFormed(rules.getMoves) && Consistent(rules, g) && g.winner.None?
    ensures NegaMax.AllExecutable(g.board, g.validMoves)
  {
    assert NegaMax.AllExecutable(g.board, rules.getMoves(g.board, Convert(g.sideMoveNow)));
  }

  /** A new game is consistent. */
  lemma {:induction false} StartedConsistent(rules: RulesProvider, g: GameState, startBoard: SquareBoard, playerSide: GameSide)
    requires Valid(startBoard)
    ensures Consistent(rules, Started(rules, g, startBoard, playerSide))
  {
  }

  /** MakeMove keeps the game consistent. */
  lemma {:induction false} MadeMoveConsistent(rules: RulesProvider, g: GameState, figure: Figure, moveIndex: int)
    requires NegaMax.RulesWellFormed(rules.getMoves) && Consistent(rules, g)
    ensures g.winner.None? ==> NegaMax.AllExecutable(g.board, g.validMoves)
    ensures var r := MadeMove(rules, g, figure, moveIndex); r.Ok? ==> Consistent(rules, r.value)
  {
    if g.winner.None? {
      ConsistentExecutable(rules, g);
      var r := MadeMove(rules, g, figure, moveIndex);
      if r.Ok? {
        var move := Lookup(g.validMoves, figure).value[moveIndex];
        RunKeepsValid(g.board, figure, move);
      }
    }
  }

  /** Undo keeps the game consistent. */
  lemma {:induction false} UndoneConsistent(rules: RulesProvider, g: GameState)
    requires Consistent(rules, g)
    ensures Consistent(rules, Undone(rules, g).1)
  {
  }

  /** Before Start, MakeMove finds no figure and Undo has nothing to take back; neither changes the game. */
  lemma {:induction false} NotStartedRefuses(rules: RulesProvider, g: GameState, figure: Figure, moveIndex: int)
    requires NotStarted(g) && g.winner.None?
    ensures MadeMove(rules, g, figure, moveIndex) == Err(FigureNotFound(figure))
    ensures Undone(rules, g) == (false, g)
  {
  }

  /** Once a side has won, MakeMove changes nothing and a new Start does not clear the winner. */
  lemma {:induction false} WinnerIsFinal(rules: RulesProvider, g: GameState, figure: Figure, moveIndex: int,
                                         startBoard: SquareBoard, playerSide: GameSide)
    requires g.winner.Some?
    ensures MadeMove(rules, g, figure, moveIndex) == Ok(g)
    ensures var s := Started(rules, g, startBoard, playerSide);
      s.winner == g.winner && MadeMove(rules, s, figure, moveIndex) == Ok(s)
  {
  }

  /** Right after the player's own move, while the game goes on, Undo is refused: the bot is to move. */
  lemma {:induction false} NoUndoOnBotTurn(rules: RulesProvider, g: GameState, figure: Figure, moveIndex: int)
    requires NegaMax.AllExecutable(g.board, g.validMoves) && g.winner.None? && g.sideMoveNow == g.playerSide
    requires var r := MadeMove(rules, g, figure, moveIndex); r.Ok? && r.value.winner.None?
    ensures var r := MadeMove(rules, g, figure, moveIndex); Undone(rules, r.value) == (false, r.value)
  {
  }

  /**
   * The player moves, the bot replies, and Undo takes back only the bot's
   * reply: the board is the one after the player's own move, the history
   * as it was after it, and the player's side is still to move.
   */
  lemma {:induction false} UndoTakesBackReply(rules: RulesProvider, g: GameState, f1: Figure, i1: int, f2: Figure, i2: int)
    requires NegaMax.RulesWellFormed(rules.getMoves) && Consistent(rules, g)
    requires g.winner.None? && g.sideMoveNow == g.playerSide
    requires var r1 := MadeMove(rules, g, f1, i1); r1.Ok? && r1.value.winner.None?
    ensures var g1 := MadeMove(rules, g, f1, i1).value;
      && NegaMax.AllExecutable(g1.board, g1.validMoves)
      && var r2 := MadeMove(rules, g1, f2, i2);
      r2.Ok? ==> r2.value.winner.None? ==>
        var u := Undone(rules, r2.value);
        && u.0 && u.1.board == g1.board && u.1.history == g1.history
        && u.1.sideMoveNow == g.playerSide && u.1.validMoves == rules.getMoves(g1.board, Convert(g.playerSide))
  {
    MadeMoveConsistent(rules, g, f1, i1);
    var g1 := MadeMove(rules, g, f1, i1).value;
    MadeMoveConsistent(rules, g1, f2, i2);
    var r2 := MadeMove(rules, g1, f2, i2);
    if r2.Ok? && r2.value.winner.None? {
      assert r2.value.sideMoveNow == Other(Other(g.sideMoveNow));
      assert r2.value.history[..|r2.value.history| - 1] == g1.history;
    }
  }

  /** ToggleSide swaps Black and Red, so toggling twice gives the side back. */
  lemma {:induction false} ToggleTwice(s: GameSide)
    ensures Other(s) != s && Other(Other(s)) == s
  {
  }

  class Game {
    const rules: RulesProvider
    const startBoard: SquareBoard
    var playerSide: GameSide
    var validMoves: seq<Entry>
    var history: seq<History>
    var board: SquareBoard
    var sideMoveNow: GameSide
    var winner: Option<GameSide>

    function State(): GameState
      reads this
    {
      GameState(board, playerSide, sideMoveNow, winner, validMoves, history)
    }

    ghost predicate Valid()
      reads this
    {
      NegaMax.RulesWellFormed(rules.getMoves) && Boards.Valid(startBoard) && Consistent(rules, State())
    }

    /** Game(rulesProvider, boardBuilder, bot): an empty history and no valid moves. */
    constructor(rules: RulesProvider, startBoard: SquareBoard)
      requires NegaMax.RulesWellFormed(rules.getMoves) && Boards.Valid(startBoard)
      ensures this.rules == rules && this.startBoard == startBoard
      ensures history == [] && validMoves == [] && winner.None? && board == startBoard
      ensures Valid()
    {
      this.rules := rules;
      this.startBoard := startBoard;
      playerSide := Black;
      validMoves := [];
      history := [];
      board := startBoard;
      sideMoveNow := Black;
      winner := None;
    }

    /** Start(playerSide), without the bot's random opening move. */
    method Start(playerSide: GameSide)
      requires NegaMax.RulesWellFormed(rules.getMoves) && Boards.Valid(startBoard)
      modifies this
      ensures Valid()
      ensures State() == Started(rules, old(State()), startBoard, playerSide)
    {
      this.playerSide := playerSide;
      history := [];
      board := startBoard;
      validMoves := [];
      sideMoveNow := rules.firstMoveSide;
      UpdateAvailableMoves();
    }

    /** MakeMove(figure, moveIndex); an exception is an Err and leaves the game as it was. */
    method MakeMove(figure: Figure, moveIndex: int) returns (r: Result<(), GameError>)
      requires Valid()
      modifies this
      ensures Valid()
      ensures var m := MadeMove(rules, old(State()), figure, moveIndex);
        && (r.Err? <==> m.Err?)
        && (m.Err? ==> r.error == m.error && State() == old(State()))
        && (m.Ok? ==> State() == m.value)
    {
      ghost var g := State();
      MadeMoveConsistent(rules, g, figure, moveIndex);
      if winner.Some? {
        return Ok(());
      }
      var moves := Lookup(validMoves, figure);
      if moves.None? {
        return Err(FigureNotFound(figure));
      }
      if |moves.value| <= moveIndex {
        return Err(MoveIndexNotFound(figure, moveIndex));
      }
      if moveIndex < 0 {
        return Err(IndexOutOfRange(moveIndex));
      }
      var move := moves.value[moveIndex];
      history := history + [History(sideMoveNow, move, board)];
      var chain := new MoveCommandChain(figure, board, move);
      assert this !in chain.Objects();
      board := chain.Execute();
      var over := GameIsOver();
      if over {
        return Ok(());
      }
      ToggleSide();
      UpdateAvailableMoves();
      r := Ok(());
    }

    /** GameIsOver: when the rules say so, the side to move, which has just moved, is the winner. */
    method GameIsOver() returns (over: bool)
      modifies this
      ensures over == rules.gameIsOver(board)
      ensures State() == if over then old(State()).(winner := Some(sideMoveNow)) else old(State())
    {
      if rules.gameIsOver(board) {
        winner := Some(sideMoveNow);
        return true;
      }
      return false;
    }

    /** ToggleSide. */
    method ToggleSide()
      modifies this
      ensures State() == old(State()).(sideMoveNow := Other(old(sideMoveNow)))
    {
      sideMoveNow := if sideMoveNow == Black then Red else Black;
    }

    /** Undo. */
    method Undo() returns (ok: bool)
      requires Valid()
      modifies this
      ensures Valid()
      ensures (ok, State()) == Undone(rules, old(State()))
    {
      if |history| <= 0 {
        return false;
      }
      if sideMoveNow != playerSide {
        return false;
      }
      board := history[|history| - 1].boardBeforeMove;
      history := history[..|history| - 1];
      UpdateAvailableMoves();
      return true;
    }

    /** UpdateAvailableMoves. */
    method UpdateAvailableMoves()
      modifies this
      ensures State() == old(State()).(validMoves := rules.getMoves(board, Convert(sideMoveNow)))
      ensures Current(rules, State())
    {
      validMoves := rules.getMoves(board, Convert(sideMoveNow));
    }
  }
}
