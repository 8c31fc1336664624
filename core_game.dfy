/**
 * Checkers.Core.Game: two players take turns on a board; each turn the
 * current player (turn mod 2) is offered the legal walks, Undo when the undo
 * stack is non-empty and Redo when the redo stack is non-empty. A walk pushes
 * the board before it; Undo and Redo move up to two entries between the
 * stacks, so that the same player is to move again.
 *
 * The state the moves change is GameState; Walked, Undone and Redone are the
 * moves on values, and the Game class's methods are proved equal to them.
 * The rules provider is a parameter (the IRules the game is built with), as
 * is the board the board builder returns.
 */
module CoreGames {
  import Results
  import Sides
  import opened GameSides
  import opened Figures
  import opened Boards
  import opened MoveSteps
  import opened Rules
  import opened Commands
  import opened MoveCommands
  import opened RulesExtensions
  import opened GameHistory
  import NegaMax

  /** Checkers.Core.GameStatus, in its declared order. */
  datatype GameStatus = None | Started | Player1Wins | Player2Wins | Draw | Stopped | Error

  /** The GameException Start throws. */
  datatype GameError = SameSides

  /** The IGameMove kinds the loop offers: a WalkGameMove for one (figure, sequence) pair, UndoMove, RedoMove. */
  datatype GameMove = WalkMove(figure: Figure, sequence: seq<MoveStep>) | UndoMove | RedoMove

  /** What the moves change: board, turn counter, winner index, status and the two stacks (top last). */
  datatype GameState = GameState(board: SquareBoard, turn: nat, winnerIndex: int, status: GameStatus,
                                 undo: seq<History>, redo: seq<History>)

  /** CurrentPlayerIndex: `(int)_turn % _players.Length` with two players. */
  function PlayerIndex(turn: nat): (i: nat)
    ensures i < 2
  {
    turn % 2
  }

  /** One move was made per entry of the undo stack. */
  predicate Counted(g: GameState)
  {
    g.turn == |g.undo|
  }

  /** Counted, and every board the game holds or remembers is valid. */
  predicate Coherent(g: GameState)
  {
    Counted(g) && Valid(g.board) && BoardsValid(g.undo) && BoardsValid(g.redo)
  }

  function Min(a: nat, b: nat): nat
  {
    if a <= b then a else b
  }

  /**
   * CheckForWin: when the side of the current player has no moves, that
   * player's index becomes the winner and the status says which one won.
   */
  function WinChecked(rules: NegaMax.RulesFn, sides: seq<GameSide>, g: GameState): (c: GameState)
    requires |sides| == 2
    ensures c.board == g.board && c.turn == g.turn && c.undo == g.undo && c.redo == g.redo
    ensures |rules(g.board, Convert(sides[PlayerIndex(g.turn)]))| == 0 ==>
      && c.winnerIndex == PlayerIndex(g.turn)
      && c.status == (if c.winnerIndex == 0 then Player1Wins else Player2Wins)
    ensures |rules(g.board, Convert(sides[PlayerIndex(g.turn)]))| > 0 ==> c == g
  {
    var i := PlayerIndex(g.turn);
    if |rules(g.board, Convert(sides[i]))| == 0 then
      g.(winnerIndex := i, status := if i == 0 then Player1Wins else Player2Wins)
    else g
  }

  /** Walk: push the board before the move, run the chain, clear the redo stack, check for a win, next turn. */
  function Walked(rules: NegaMax.RulesFn, sides: seq<GameSide>, g: GameState, figure: Figure, q: seq<MoveStep>): (c: GameState)
    requires |sides| == 2 && Executable(g.board, figure, q)
    ensures c.undo == g.undo + [History(sides[PlayerIndex(g.turn)], q, g.board)]
    ensures c.board == Run(g.board, figure, q).board
    ensures c.redo == [] && c.turn == g.turn + 1
  {
    var pushed := g.(undo := g.undo + [History(sides[PlayerIndex(g.turn)], q, g.board)]);
    var moved := pushed.(board := Run(g.board, figure, q).board, redo := []);
    var checked := WinChecked(rules, sides, moved);
    checked.(turn := checked.turn + 1)
  }

  /** One pass of UndoGameMove's loop: pop, restore the board before the move, push on redo, check, previous turn. */
  function UndoneOnce(rules: NegaMax.RulesFn, sides: seq<GameSide>, g: GameState): (c: GameState)
    requires |sides| == 2 && Counted(g) && |g.undo| > 0
    ensures Counted(c)
  {
    var h := g.undo[|g.undo| - 1];
    var popped := g.(undo := g.undo[..|g.undo| - 1], board := h.boardBeforeMove, redo := g.redo + [h]);
    var checked := WinChecked(rules, sides, popped);
    checked.(turn := checked.turn - 1)
  }

  /** UndoGameMove.Execute, with k passes of its loop left. */
  function Undone(rules: NegaMax.RulesFn, sides: seq<GameSide>, g: GameState, k: nat): (c: GameState)
    requires |sides| == 2 && Counted(g)
    decreases k
  {
    if k == 0 || |g.undo| == 0 then g else Undone(rules, sides, UndoneOnce(rules, sides, g), k - 1)
  }

  /**
   * The top min(k, |undo|) entries move, top first, to the redo stack; with
   * nothing to undo nothing changes.
   */
  lemma {:induction false} UndoneMoves(rules: NegaMax.RulesFn, sides: seq<GameSide>, g: GameState, k: nat)
    requires |sides| == 2 && Counted(g)
    ensures var c, m, n := Undone(rules, sides, g, k), |g.undo|, Min(k, |g.undo|);
      && c.undo == g.undo[..m - n]
      && c.redo == g.redo + Reverse(g.undo[m - n..])
      && (n == 0 ==> c == g)
    decreases k
  {
    if k > 0 && |g.undo| > 0 {
      var m, n := |g.undo|, Min(k, |g.undo|);
      var h := g.undo[m - 1];
      var u := UndoneOnce(rules, sides, g);
      UndoneMoves(rules, sides, u, k - 1);
      assert u.undo == g.undo[..m - 1] && u.redo == g.redo + [h];
      // the entries the remaining passes pop lie just below the top one
      var rest := g.undo[m - n..];
      assert rest[..n - 1] == u.undo[m - n..];
      assert Reverse(rest) == [h] + Reverse(rest[..n - 1]);
      assert g.redo + [h] + Reverse(rest[..n - 1]) == g.redo + Reverse(rest);
      assert u.undo[..m - 1 - (n - 1)] == g.undo[..m - n];
    }
  }

  /**
   * The turn goes back by the number of entries moved, and the board is
   * the one before the move of the deepest of them.
   */
  lemma {:induction false} UndoneTurnAndBoard(rules: NegaMax.RulesFn, sides: seq<GameSide>, g: GameState, k: nat)
    requires |sides| == 2 && Counted(g)
    ensures var c, m, n := Undone(rules, sides, g, k), |g.undo|, Min(k, |g.undo|);
      && c.turn == g.turn - n
      && (n > 0 ==> c.board == g.undo[m - n].boardBeforeMove)
    decreases k
  {
    if k > 0 && |g.undo| > 0 {
      var u := UndoneOnce(rules, sides, g);
      UndoneTurnAndBoard(rules, sides, u, k - 1);
      assert u.undo == g.undo[..|g.undo| - 1];
    }
  }

  /** One pass of RedoGameMove's loop: pop redo, set the board to that entry's board before its move, push on undo, check, next turn. */
  function RedoneOnce(rules: NegaMax.RulesFn, sides: seq<GameSide>, g: GameState): (c: GameState)
    requires |sides| == 2 && |g.redo| > 0
  {
    var h := g.redo[|g.redo| - 1];
    var popped := g.(redo := g.redo[..|g.redo| - 1], board := h.boardBeforeMove, undo := g.undo + [h]);
    var checked := WinChecked(rules, sides, popped);
    checked.(turn := checked.turn + 1)
  }

  /** RedoGameMove.Execute, with k passes of its loop left. */
  function Redone(rules: NegaMax.RulesFn, sides: seq<GameSide>, g: GameState, k: nat): (c: GameState)
    requires |sides| == 2
    decreases k
  {
    if k == 0 || |g.redo| == 0 then g else Redone(rules, sides, RedoneOnce(rules, sides, g), k - 1)
  }

  /**
   * The top min(k, |redo|) entries move, top first, back to the undo stack; with
   * nothing to redo nothing changes.
   */
  lemma {:induction false} RedoneMoves(rules: NegaMax.RulesFn, sides: seq<GameSide>, g: GameState, k: nat)
    requires |sides| == 2
    ensures var c, m, n := Redone(rules, sides, g, k), |g.redo|, Min(k, |g.redo|);
      && c.redo == g.redo[..m - n]
      && c.undo == g.undo + Reverse(g.redo[m - n..])
      && (n == 0 ==> c == g)
    decreases k
  {
    if k > 0 && |g.redo| > 0 {
      var m, n := |g.redo|, Min(k, |g.redo|);
      var h := g.redo[m - 1];
      var u := RedoneOnce(rules, sides, g);
      RedoneMoves(rules, sides, u, k - 1);
      assert u.redo == g.redo[..m - 1] && u.undo == g.undo + [h];
      // the entries the remaining passes pop lie just below the top one
      var rest := g.redo[m - n..];
      assert rest[..n - 1] == u.redo[m - n..];
      assert Reverse(rest) == [h] + Reverse(rest[..n - 1]);
      assert g.undo + [h] + Reverse(rest[..n - 1]) == g.undo + Reverse(rest);
      assert u.redo[..m - 1 - (n - 1)] == g.redo[..m - n];
    }
  }

  /**
   * The turn advances by the number of entries moved, and the board is
   * the one before the move of the last of them.
   */
  lemma {:induction false} RedoneTurnAndBoard(rules: NegaMax.RulesFn, sides: seq<GameSide>, g: GameState, k: nat)
    requires |sides| == 2
    ensures var c, m, n := Redone(rules, sides, g, k), |g.redo|, Min(k, |g.redo|);
      && c.turn == g.turn + n
      && (n > 0 ==> c.board == g.redo[m - n].boardBeforeMove)
    decreases k
  {
    if k > 0 && |g.redo| > 0 {
      var u := RedoneOnce(rules, sides, g);
      RedoneTurnAndBoard(rules, sides, u, k - 1);
      assert u.redo == g.redo[..|g.redo| - 1];
    }
  }

  /** A pass of the undo loop keeps the turn counted and the boards valid. */
  lemma {:induction false} UndoneOnceCoherent(rules: NegaMax.RulesFn, sides: seq<GameSide>, g: GameState)
    requires |sides| == 2 && Coherent(g) && |g.undo| > 0
    ensures Coherent(UndoneOnce(rules, sides, g))
  {
  }

  /** A pass of the redo loop keeps the turn counted and the boards valid. */
  lemma {:induction false} RedoneOnceCoherent(rules: NegaMax.RulesFn, sides: seq<GameSide>, g: GameState)
    requires |sides| == 2 && Coherent(g) && |g.redo| > 0
    ensures Coherent(RedoneOnce(rules, sides, g))
  {
  }

  /** Undo keeps the turn counted and the boards valid. */
  lemma {:induction false} UndoneCoherent(rules: NegaMax.RulesFn, sides: seq<GameSide>, g: GameState, k: nat)
    requires |sides| == 2 && Coherent(g)
    ensures Coherent(Undone(rules, sides, g, k))
    decreases k
  {
    if k > 0 && |g.undo| > 0 {
      UndoneOnceCoherent(rules, sides, g);
      UndoneCoherent(rules, sides, UndoneOnce(rules, sides, g), k - 1);
    }
  }

  /** Redo keeps the turn counted and the boards valid. */
  lemma {:induction false} RedoneCoherent(rules: NegaMax.RulesFn, sides: seq<GameSide>, g: GameState, k: nat)
    requires |sides| == 2 && Coherent(g)
    ensures Coherent(Redone(rules, sides, g, k))
    decreases k
  {
    if k > 0 && |g.redo| > 0 {
      RedoneOnceCoherent(rules, sides, g);
      RedoneCoherent(rules, sides, RedoneOnce(rules, sides, g), k - 1);
    }
  }

  /** One pass of the undo loop followed by the remaining ones. */
  lemma {:induction false} UndoneStep(rules: NegaMax.RulesFn, sides: seq<GameSide>, g: GameState, k: nat)
    requires |sides| == 2 && Counted(g) && k > 0 && |g.undo| > 0
    ensures Undone(rules, sides, g, k) == Undone(rules, sides, UndoneOnce(rules, sides, g), k - 1)
  {
  }

  /** One pass of the redo loop followed by the remaining ones. */
  lemma {:induction false} RedoneStep(rules: NegaMax.RulesFn, sides: seq<GameSide>, g: GameState, k: nat)
    requires |sides| == 2 && k > 0 && |g.redo| > 0
    ensures Redone(rules, sides, g, k) == Redone(rules, sides, RedoneOnce(rules, sides, g), k - 1)
  {
  }

  /** The walk move WalkGameMove(Walk, f, m) stands for. */
  function WalkOf(f: Figure, m: seq<MoveStep>): GameMove
  {
    WalkMove(f, m)
  }

  /** The moves GameLoop offers: the flattened valid moves, then Undo and Redo when their stacks are non-empty. */
  function Offered(moves: seq<Entry>, g: GameState): seq<GameMove>
  {
    (if |moves| > 0 then Flatten(moves, WalkOf) else []) +
      (if |g.undo| > 0 then [UndoMove] else []) +
      (if |g.redo| > 0 then [RedoMove] else [])
  }

  /** What executing a chosen offered move does to the state. */
  function Played(rules: NegaMax.RulesFn, sides: seq<GameSide>, g: GameState, m: GameMove): GameState
    requires |sides| == 2 && Counted(g)
    requires m.WalkMove? ==> Executable(g.board, m.figure, m.sequence)
  {
    match m
    case WalkMove(f, q) => Walked(rules, sides, g, f, q)
    case UndoMove => Undone(rules, sides, g, 2)
    case RedoMove => Redone(rules, sides, g, 2)
  }

  /** A walk keeps the turn counted and, with executable chains, the boards valid. */
  lemma {:induction false} WalkedCoherent(rules: NegaMax.RulesFn, sides: seq<GameSide>, g: GameState, figure: Figure, q: seq<MoveStep>)
    requires |sides| == 2 && Executable(g.board, figure, q) && Coherent(g)
    ensures Coherent(Walked(rules, sides, g, figure, q))
  {
    RunKeepsValid(g.board, figure, q);
  }

  /**
   * Undo is offered exactly when the undo stack is non-empty, Redo exactly
   * when the redo stack is, and a walk exactly for a figure and one of the
   * sequences the valid moves list for it.
   */
  lemma {:induction false} OfferedMoves(moves: seq<Entry>, g: GameState, m: GameMove)
    ensures m.UndoMove? ==> (m in Offered(moves, g) <==> |g.undo| > 0)
    ensures m.RedoMove? ==> (m in Offered(moves, g) <==> |g.redo| > 0)
    ensures m.WalkMove? ==> (m in Offered(moves, g) <==>
      exists k, i :: 0 <= k < |moves| && 0 <= i < |moves[k].sequences| &&
        moves[k].figure == m.figure && moves[k].sequences[i] == m.sequence)
  {
    var walks := if |moves| > 0 then Flatten(moves, WalkOf) else [];
    assert Offered(moves, g) == walks + (if |g.undo| > 0 then [UndoMove] else []) + (if |g.redo| > 0 then [RedoMove] else []);
    if m in walks {
      var j :| 0 <= j < |walks| && walks[j] == m;
      FlattenFrom(moves, WalkOf, j);
    }
    if m.WalkMove? {
      if k, i :| (0 <= k < |moves| && 0 <= i < |moves[k].sequences| &&
          moves[k].figure == m.figure && moves[k].sequences[i] == m.sequence) {
        FlattenAt(moves, WalkOf, k, i);
        assert walks[Total(moves[..k]) + i] == m;
      }
    }
  }

  /** A walk passes the turn: the other player is current afterwards. */
  lemma {:induction false} WalkPassesTurn(rules: NegaMax.RulesFn, sides: seq<GameSide>, g: GameState, figure: Figure, q: seq<MoveStep>)
    requires |sides| == 2 && Executable(g.board, figure, q)
    ensures PlayerIndex(Walked(rules, sides, g, figure, q).turn) == 1 - PlayerIndex(g.turn)
  {
  }

  /**
   * CheckForWin runs before the turn counter moves on, so after a walk it
   * looks at the side that has just moved: that player is declared the
   * winner when its own side has no moves left.
   */
  lemma {:induction false} WalkChecksMover(rules: NegaMax.RulesFn, sides: seq<GameSide>, g: GameState, figure: Figure, q: seq<MoveStep>)
    requires |sides| == 2 && Executable(g.board, figure, q)
    ensures var c := Walked(rules, sides, g, figure, q);
      && (|rules(c.board, Convert(sides[PlayerIndex(g.turn)]))| == 0 ==> c.winnerIndex == PlayerIndex(g.turn))
      && (|rules(c.board, Convert(sides[PlayerIndex(g.turn)]))| > 0 ==>
            c.winnerIndex == g.winnerIndex && c.status == g.status)
  {
  }

  /** Undoing two moves leaves the same player to move ("undo 2 moves to turn on the current player"). */
  lemma {:induction false} UndoKeepsPlayer(rules: NegaMax.RulesFn, sides: seq<GameSide>, g: GameState)
    requires |sides| == 2 && Counted(g) && |g.undo| >= 2
    ensures PlayerIndex(Undone(rules, sides, g, 2).turn) == PlayerIndex(g.turn)
  {
    UndoneTurnAndBoard(rules, sides, g, 2);
    var t := Undone(rules, sides, g, 2).turn;
    assert t + 2 == g.turn;
    assert t % 2 == g.turn % 2;
  }

  /** Two walks and an Undo give back the board, the turn and the undo stack from before the walks. */
  lemma {:induction false} UndoAfterTwoWalks(rules: NegaMax.RulesFn, sides: seq<GameSide>, g: GameState,
                          f1: Figure, q1: seq<MoveStep>, f2: Figure, q2: seq<MoveStep>)
    requires |sides| == 2 && Counted(g) && Executable(g.board, f1, q1)
    requires Executable(Walked(rules, sides, g, f1, q1).board, f2, q2)
    ensures var w := Walked(rules, sides, Walked(rules, sides, g, f1, q1), f2, q2);
      var c := Undone(rules, sides, w, 2);
      c.board == g.board && c.turn == g.turn && c.undo == g.undo && |c.redo| == 2
  {
    var w1 := Walked(rules, sides, g, f1, q1);
    var w := Walked(rules, sides, w1, f2, q2);
    UndoneMoves(rules, sides, w, 2);
    UndoneTurnAndBoard(rules, sides, w, 2);
    assert w.undo[..|w.undo| - 2] == g.undo;
  }

  /** An Undo right after the first walk of a game gives back the starting board and turn 0. */
  lemma {:induction false} UndoFirstWalk(rules: NegaMax.RulesFn, sides: seq<GameSide>, g: GameState, f: Figure, q: seq<MoveStep>)
    requires |sides| == 2 && Counted(g) && g.undo == [] && Executable(g.board, f, q)
    ensures var c := Undone(rules, sides, Walked(rules, sides, g, f, q), 2);
      c.board == g.board && c.turn == 0 && c.undo == []
  {
    UndoneMoves(rules, sides, Walked(rules, sides, g, f, q), 2);
    UndoneTurnAndBoard(rules, sides, Walked(rules, sides, g, f, q), 2);
  }

  /**
   * Redo after Undo puts back both stacks and the turn counter, but the
   * board it leaves is the board before the last move, not the one the
   * Undo started from: Redo sets BoardBeforeMove of each entry it replays.
   */
  lemma {:induction false} UndoRedoRoundTrip(rules: NegaMax.RulesFn, sides: seq<GameSide>, g: GameState)
    requires |sides| == 2 && Counted(g) && (|g.undo| >= 2 || g.redo == [])
    ensures var c := Redone(rules, sides, Undone(rules, sides, g, 2), 2);
      && c.undo == g.undo && c.redo == g.redo && c.turn == g.turn
      && (|g.undo| > 0 ==> c.board == g.undo[|g.undo| - 1].boardBeforeMove)
  {
    var m, n := |g.undo|, Min(2, |g.undo|);
    var u := Undone(rules, sides, g, 2);
    UndoneMoves(rules, sides, g, 2);
    UndoneTurnAndBoard(rules, sides, g, 2);
    RedoneMoves(rules, sides, u, 2);
    RedoneTurnAndBoard(rules, sides, u, 2);
    MoveBack(g.undo, g.redo, n);
    assert Min(2, |u.redo|) == n;
  }

  /**
   * After a Redo the board is the top undo entry's board before its move: a
   * redone game always shows the position one move behind its turn counter.
   */
  lemma {:induction false} RedoLeavesBoardBeforeTopMove(rules: NegaMax.RulesFn, sides: seq<GameSide>, g: GameState)
    requires |sides| == 2 && |g.redo| > 0
    ensures var c := Redone(rules, sides, g, 2);
      |c.undo| > 0 && c.board == c.undo[|c.undo| - 1].boardBeforeMove
  {
    var c := Redone(rules, sides, g, 2);
    RedoneMoves(rules, sides, g, 2);
    RedoneTurnAndBoard(rules, sides, g, 2);
    var n := Min(2, |g.redo|);
    assert c.undo[|c.undo| - 1] == Reverse(g.redo[|g.redo| - n..])[n - 1];
    ReverseAt(g.redo[|g.redo| - n..], n - 1);
  }

  class Game {
    const rules: NegaMax.RulesFn
    const startBoard: SquareBoard
    const players: array<Results.Option<GameSide>>
    var status: GameStatus
    var board: SquareBoard
    var turn: nat
    var winnerIndex: int
    var undoHistory: seq<History>
    var redoHistory: seq<History>
    var running: bool

    function State(): GameState
      reads this
    {
      GameState(board, turn, winnerIndex, status, undoHistory, redoHistory)
    }

    /** Two player slots, rules whose sequences the chain can execute, and a coherent state. */
    ghost predicate Valid()
      reads this, players
    {
      players.Length == 2 && NegaMax.RulesWellFormed(rules) && Boards.Valid(startBoard) && Coherent(State())
    }

    /** Start has filled both player slots. */
    predicate HasPlayers()
      reads this, players
    {
      players.Length == 2 && players[0].Some? && players[1].Some?
    }

    /** The sides of player 1 and player 2. */
    function SidesOf(): (s: seq<GameSide>)
      requires HasPlayers()
      reads this, players
      ensures |s| == 2
    {
      [players[0].value, players[1].value]
    }

    /** Game(rules, boardBuilder, statistics): empty stacks, the builder's board, no players yet. */
    constructor(rules: NegaMax.RulesFn, startBoard: SquareBoard)
      requires NegaMax.RulesWellFormed(rules) && Boards.Valid(startBoard)
      ensures Valid() && fresh(players) && players[..] == [Results.None, Results.None]
      ensures this.rules == rules && this.startBoard == startBoard
      ensures State() == GameState(startBoard, 0, 0, None, [], []) && !running
    {
      this.rules := rules;
      this.startBoard := startBoard;
      players := new Results.Option<GameSide>[2](_ => Results.None);
      status := None;
      board := startBoard;
      turn := 0;
      winnerIndex := 0;
      undoHistory := [];
      redoHistory := [];
      running := false;
    }

    /**
     * Start: players of the same side are refused; otherwise both slots are
     * filled, the winner cleared, both stacks emptied, the board rebuilt,
     * the turn reset and the loop running.
     */
    method Start(player1: GameSide, player2: GameSide) returns (r: Results.Result<(), GameError>)
      requires Valid()
      modifies this, players
      ensures Valid()
      ensures r.Err? <==> player1 == player2
      ensures r.Err? ==> State() == old(State()) && players[..] == old(players[..]) && running == old(running)
      ensures r.Ok? ==> && players[..] == [Results.Some(player1), Results.Some(player2)]
                        && State() == GameState(startBoard, 0, -1, Started, [], []) && running
    {
      if player1 == player2 {
        return Results.Err(SameSides);
      }
      players[0] := Results.Some(player1);
      players[1] := Results.Some(player2);
      winnerIndex := -1;
      undoHistory := [];
      redoHistory := [];
      board := startBoard;
      turn := 0;
      status := Started;
      running := true;
      r := Results.Ok(());
    }

    /** The moves this turn offers the current player. */
    function OfferedNow(): seq<GameMove>
      requires HasPlayers()
      reads this, players
    {
      Offered(rules(board, Convert(SidesOf()[PlayerIndex(turn)])), State())
    }

    /**
     * One pass of GameLoop: the chosen offered move is executed; a player
     * who chooses nothing gets the StopGameMove, which ends the loop.
     */
    method Play(chosen: Results.Option<GameMove>)
      requires Valid() && HasPlayers()
      requires chosen.Some? ==> chosen.value in OfferedNow()
      modifies this
      ensures Valid() && HasPlayers()
      ensures chosen.None? ==> State() == old(State()) && !running
      ensures chosen.Some? ==> running == old(running)
      ensures chosen.Some? ==> chosen.value.WalkMove? ==> Executable(old(board), chosen.value.figure, chosen.value.sequence)
      ensures chosen.Some? ==> chosen.value.WalkMove? ==>
        State() == Walked(rules, SidesOf(), old(State()), chosen.value.figure, chosen.value.sequence)
      ensures chosen.Some? ==> chosen.value.UndoMove? ==> State() == Undone(rules, SidesOf(), old(State()), 2)
      ensures chosen.Some? ==> chosen.value.RedoMove? ==> State() == Redone(rules, SidesOf(), old(State()), 2)
    {
      if chosen.None? {
        running := false;
        return;
      }
      var move := chosen.value;
      ghost var moves := rules(board, Convert(SidesOf()[PlayerIndex(turn)]));
      OfferedMoves(moves, State(), move);
      match move
      case WalkMove(f, q) =>
        assert NegaMax.AllExecutable(board, moves);
        ghost var k, i :| (0 <= k < |moves| && 0 <= i < |moves[k].sequences| &&
          moves[k].figure == f && moves[k].sequences[i] == q);
        assert moves[k] in moves && q in moves[k].sequences;
        Walk(f, q);
      case UndoMove =>
        Undo();
      case RedoMove =>
        Redo();
    }

    /** CheckForWin, on the current player's side. */
    method CheckForWin()
      requires HasPlayers()
      modifies this
      ensures State() == WinChecked(rules, SidesOf(), old(State())) && running == old(running)
    {
      var index := turn % players.Length;
      var side := players[index].value;
      var validEnemyMoves := rules(board, Convert(side));
      if |validEnemyMoves| == 0 {
        winnerIndex := index;
        status := if winnerIndex == 0 then Player1Wins else Player2Wins;
      }
    }

    /** Walk(figure, moveSequence). */
    method Walk(figure: Figure, moveSequence: seq<MoveStep>)
      requires Valid() && HasPlayers() && Executable(board, figure, moveSequence)
      modifies this
      ensures Valid() && running == old(running)
      ensures State() == Walked(rules, SidesOf(), old(State()), figure, moveSequence)
    {
      WalkedCoherent(rules, SidesOf(), State(), figure, moveSequence);
      undoHistory := undoHistory + [History(players[turn % players.Length].value, moveSequence, board)];
      var chain := new MoveCommandChain(figure, board, moveSequence);
      assert this !in chain.Objects();
      board := chain.Execute();
      redoHistory := [];
      CheckForWin();
      turn := turn + 1;
    }

    /** UndoGameMove.Execute: undo up to as many moves as there are players. */
    method Undo()
      requires Valid() && HasPlayers()
      modifies this
      ensures Valid() && running == old(running)
      ensures State() == Undone(rules, SidesOf(), old(State()), 2)
    {
      var movesToUndo := players.Length;
      while movesToUndo > 0 && |undoHistory| > 0
        invariant Coherent(State()) && 0 <= movesToUndo <= 2 && running == old(running)
        invariant Undone(rules, SidesOf(), State(), movesToUndo) == Undone(rules, SidesOf(), old(State()), 2)
        decreases movesToUndo
      {
        ghost var before := State();
        var history := undoHistory[|undoHistory| - 1];
        undoHistory := undoHistory[..|undoHistory| - 1];
        board := history.boardBeforeMove;
        redoHistory := redoHistory + [history];
        assert State() == before.(undo := before.undo[..|before.undo| - 1], board := history.boardBeforeMove,
                                  redo := before.redo + [history]);
        CheckForWin();
        turn := turn - 1;
        movesToUndo := movesToUndo - 1;
        assert State() == UndoneOnce(rules, SidesOf(), before);
        UndoneStep(rules, SidesOf(), before, movesToUndo + 1);
        UndoneOnceCoherent(rules, SidesOf(), before);
      }
    }

    /** RedoGameMove.Execute: redo up to as many moves as there are players. */
    method Redo()
      requires Valid() && HasPlayers()
      modifies this
      ensures Valid() && running == old(running)
      ensures State() == Redone(rules, SidesOf(), old(State()), 2)
    {
      var movesToRedo := players.Length;
      while movesToRedo > 0 && |redoHistory| > 0
        invariant Coherent(State()) && 0 <= movesToRedo <= 2 && running == old(running)
        invariant Redone(rules, SidesOf(), State(), movesToRedo) == Redone(rules, SidesOf(), old(State()), 2)
        decreases movesToRedo
      {
        ghost var before := State();
        var history := redoHistory[|redoHistory| - 1];
        redoHistory := redoHistory[..|redoHistory| - 1];
        board := history.boardBeforeMove;
        undoHistory := undoHistory + [history];
        assert State() == before.(redo := before.redo[..|before.redo| - 1], board := history.boardBeforeMove,
                                  undo := before.undo + [history]);
        CheckForWin();
        turn := turn + 1;
        movesToRedo := movesToRedo - 1;
        assert State() == RedoneOnce(rules, SidesOf(), before);
        RedoneStep(rules, SidesOf(), before, movesToRedo + 1);
        RedoneOnceCoherent(rules, SidesOf(), before);
      }
    }
  }
}
