/**
 * The NegaMaxBot class: the fields FindBestMove sets per call, the running
 * TotalMovesEstimated counter, and the recursive search proved equal to the
 * functions of module NegaMax.
 */
module NegaMaxBots {
  import opened Sides
  import opened Figures
  import opened Boards
  import opened MoveSteps
  import opened Rules
  import opened Commands
  import opened MoveCommands
  import opened NegaMax

  class NegaMaxBot {
    const rules: RulesFn
    const scoring: ScoringFn
    var options: BotOptions
    var botSide: Side
    var playerSide: Side
    var totalMovesEstimated: nat

    constructor(rules: RulesFn, scoring: ScoringFn)
      ensures this.rules == rules && this.scoring == scoring && totalMovesEstimated == 0
    {
      this.rules := rules;
      this.scoring := scoring;
      options := BotOptions(0, false);
      botSide := Sides.Nop;
      playerSide := Sides.Nop;
      totalMovesEstimated := 0;
    }

    /** The search the fields describe. */
    function Context(): Search
      reads this
    {
      Search(rules, scoring, options, botSide)
    }

    /** What FindBestMove sets up: the player is the bot's opponent. */
    predicate Ready()
      reads this
    {
      playerSide == Opposite(botSide)
    }

    /**
     * FindBestMove: stores options and sides, then searches from the root.
     * The counter is not reset, so it accumulates across calls.
     */
    method FindBestMove(board: SquareBoard, botSide: Side, options: BotOptions) returns (m: BotMove)
      requires Sound(Search(rules, scoring, options, botSide)) && Valid(board)
      modifies this
      ensures this.options == options && this.botSide == botSide && Ready()
      ensures m == BestMove(Context(), board).move
      ensures totalMovesEstimated == old(totalMovesEstimated) + BestMove(Context(), board).estimates
    {
      this.options := options;
      this.botSide := botSide;
      this.playerSide := Opposite(botSide);
      m := Negamax(board, options.maxDepth, MinInt + 1, MaxInt, botSide);
    }

    /** Negamax(board, depth, alpha, beta, side). */
    method Negamax(board: SquareBoard, depth: int, alpha: int, beta: int, side: Side) returns (m: BotMove)
      requires Sound(Context()) && Valid(board) && Ready()
      modifies this
      decreases Levels(depth), 2
      ensures options == old(options) && botSide == old(botSide) && playerSide == old(playerSide)
      ensures m == Node(Context(), board, depth, alpha, beta, side).move
      ensures totalMovesEstimated == old(totalMovesEstimated) + Node(Context(), board, depth, alpha, beta, side).estimates
    {
      var ctx := Context();
      if !CanSearchDeeper(ctx, board, depth) {
        var estimate := Estimate(board);
        return EmptyMove(estimate);
      }
      var states := GetStates(board, side);
      StatesPlayable(ctx, board, side);
      if depth == options.maxDepth && |states| == 1 {
        var singleState := states[0];
        return BotMove(singleState.figure, 0, 0);
      }
      ChildrenFollow(board, states);
      var bestMove, noMoves := VisitStates(depth, alpha, beta, side, states, Children(board, states));
      if noMoves {
        var estimate := Estimate(board);
        return EmptyMove(estimate);
      }
      NodeSweeps(ctx, board, depth, alpha, beta, side);
      return bestMove;
    }

    /**
     * The foreach over the states: stop once cancelled, otherwise DoNegamax
     * on the next state. noMoves stays true only when there is no state.
     */
    method VisitStates(depth: int, alpha: int, beta: int, side: Side, states: seq<State>, ghost children: seq<SquareBoard>)
      returns (bestMove: BotMove, noMoves: bool)
      requires Sound(Context()) && Ready() && depth > 0
      requires AllPlayable(states) && Leads(states, children) && Follows(states, children)
      modifies this
      decreases Levels(depth), 1
      ensures options == old(options) && botSide == old(botSide) && playerSide == old(playerSide)
      ensures noMoves <==> states == []
      ensures var f := Sweep(Context(), depth, alpha, beta, side, states, children, |states|);
        bestMove == f.best && totalMovesEstimated == old(totalMovesEstimated) + f.estimates
    {
      var ctx := Context();
      bestMove := EmptyMove(MinInt);
      noMoves := true;
      var a := alpha;
      var cancelled := false;
      var i := 0;
      while i < |states|
        invariant i <= |states| && (noMoves <==> i == 0)
        invariant options == old(options) && botSide == old(botSide) && playerSide == old(playerSide)
        invariant var f := Sweep(ctx, depth, alpha, beta, side, states, children, i);
          && bestMove == f.best && a == f.alpha && cancelled == f.pruned
          && totalMovesEstimated == old(totalMovesEstimated) + f.estimates
        invariant i < |states| || Sweep(ctx, depth, alpha, beta, side, states, children, i) == Sweep(ctx, depth, alpha, beta, side, states, children, |states|)
        decreases |states| - i
      {
        noMoves := false;
        if cancelled {
          SweepStopsWhenPruned(ctx, depth, alpha, beta, side, states, children, i, |states|);
          break;
        }
        ghost var r := Node(ctx, children[i], depth - 1, -beta, -a, Opposite(side));
        SweepStep(ctx, depth, alpha, beta, side, states, children, i, r);
        bestMove, a, cancelled := DoNegamax(states[i], depth, beta, side, bestMove, a, r);
        i := i + 1;
      }
    }

    /**
     * DoNegamax(state): execute the chain, search the child with the negated
     * window, keep a strictly better score, raise alpha, and report whether
     * the loop should be cancelled.
     */
    method DoNegamax(state: State, depth: int, beta: int, side: Side, bestMove: BotMove, alpha: int, ghost r: Eval)
      returns (best: BotMove, a: int, shouldPrune: bool)
      requires Sound(Context()) && Playable(state) && Ready() && depth > 0
      requires r == Node(Context(), After(state), depth - 1, -beta, -alpha, Opposite(side))
      modifies this
      decreases Levels(depth), 0
      ensures options == old(options) && botSide == old(botSide) && playerSide == old(playerSide)
      ensures best == Better(bestMove, state, -r.move.score)
      ensures a == Max(alpha, best.score) && shouldPrune == (options.allowPruning && a >= beta)
      ensures totalMovesEstimated == old(totalMovesEstimated) + r.estimates
    {
      var chain := new MoveCommandChain(state.figure, state.board, state.moveSequence);
      assert this !in chain.Objects();
      var boardAfterMove := chain.Execute();
      assert boardAfterMove == After(state);
      var child := Negamax(boardAfterMove, depth - 1, -beta, -alpha, Opposite(side));
      var score := -child.score;
      best := bestMove;
      if score > best.score {
        best := BotMove(state.figure, state.sequenceIndex, score);
      }
      a := Max(alpha, best.score);
      shouldPrune := options.allowPruning && a >= beta;
    }

    /** GetStates: every figure's sequences in dictionary order, each with its index. */
    method GetStates(board: SquareBoard, side: Side) returns (result: seq<State>)
      ensures result == States(Context(), board, side)
    {
      var moves := rules(board, side);
      result := [];
      for k := 0 to |moves|
        invariant result == StatesFrom(board, moves[..k])
      {
        var figureMove := moves[k];
        ghost var before := result;
        for i := 0 to |figureMove.sequences|
          invariant result == before + EntryStates(board, figureMove)[..i]
        {
          result := result + [State(figureMove.figure, i, board, figureMove.sequences[i])];
          assert EntryStates(board, figureMove)[..i + 1] == EntryStates(board, figureMove)[..i] + [EntryStates(board, figureMove)[i]];
        }
        assert moves[..k + 1][..k] == moves[..k];
        assert EntryStates(board, figureMove)[..|figureMove.sequences|] == EntryStates(board, figureMove);
      }
      assert moves[..|moves|] == moves;
    }

    /** Estimate: counts the call, then scores the board from the bot's side. */
    method Estimate(board: SquareBoard) returns (score: int)
      requires Ready()
      modifies this
      ensures options == old(options) && botSide == old(botSide) && playerSide == old(playerSide)
      ensures score == EstimateValue(Context(), board)
      ensures totalMovesEstimated == old(totalMovesEstimated) + 1
    {
      totalMovesEstimated := totalMovesEstimated + 1;
      if NoFigures(board, botSide) {
        return -1000;
      }
      if NoFigures(board, playerSide) {
        return 1000;
      }
      return scoring(board, botSide);
    }
  }
}
