/**
 * What alpha-beta pruning (BotOptions.AllowPrunning) does to the Negamax
 * search: a windowed node agrees with plain Negamax inside its window and is
 * on the right side of the window outside it (the bound Knuth and Moore
 * proved for fail-soft alpha-beta); at the root, whose window is the widest
 * one, it returns exactly plain Negamax's move; and it never estimates more
 * boards than the search without pruning.
 */
module NegaMaxPruning {
  import opened Sides
  import opened Boards
  import opened NegaMax
  import opened NegaMaxLemmas

  /** The windows Negamax passes around: alpha below beta, both within one of Int32. */
  predicate Window(alpha: int, beta: int)
  {
    MinInt <= alpha < beta <= MaxInt + 1
  }

  /**
   * The loop so far against the plain loop over the same states: a cancelled
   * loop has reached beta, and so has the plain one; otherwise alpha is below
   * beta, and bestMove is the plain one whenever that rose above alpha.
   */
  predicate Clamped(f: Frame, u: BotMove, alpha: int, beta: int)
  {
    && (f.pruned ==> f.best.score >= beta && u.score >= beta)
    && (!f.pruned ==>
          && f.alpha < beta
          && (u.score > alpha ==> f.best == u)
          && (u.score <= alpha ==> f.best.score <= alpha))
  }

  /**
   * One iteration of both loops on plain values: w is the state's windowed
   * score, v its plain score, related by the child's window (-beta, -a).
   */
  lemma ClampStep(alpha: int, beta: int, best: BotMove, a: int, u: BotMove, st: State, v: int, w: int)
    requires alpha < beta && a < beta && a == Max(alpha, best.score)
    requires u.score > alpha ==> best == u
    requires u.score <= alpha ==> best.score <= alpha
    requires v >= beta ==> w >= beta
    requires v <= a ==> w <= a
    requires a < v < beta ==> w == v
    ensures var b := Better(best, st, w);
      Clamped(Frame(b, Max(a, b.score), Max(a, b.score) >= beta, 0), Better(u, st, v), alpha, beta)
  {
  }

  /** With pruning on, the windowed loop stays clamped to the plain loop. */
  lemma {:induction false} SweepClamp(s: Search, depth: int, alpha: int, beta: int, side: Side,
                                      states: seq<State>, children: seq<SquareBoard>, n: nat)
    requires Leads(states, children) && s.options.allowPruning && depth > 0 && n <= |states|
    requires Window(alpha, beta)
    ensures Clamped(Sweep(s, depth, alpha, beta, side, states, children, n),
                    PlainSweep(s, depth, side, states, children, n).move, alpha, beta)
    decreases Levels(depth), 0, n, 1
  {
    if n > 0 {
      SweepClamp(s, depth, alpha, beta, side, states, children, n - 1);
      SweepClampStep(s, depth, alpha, beta, side, states, children, n - 1);
    }
  }

  /** One iteration of both loops keeps them clamped. */
  lemma {:induction false} SweepClampStep(s: Search, depth: int, alpha: int, beta: int, side: Side,
                                          states: seq<State>, children: seq<SquareBoard>, i: nat)
    requires Leads(states, children) && s.options.allowPruning && depth > 0 && i < |states|
    requires Window(alpha, beta)
    requires Clamped(Sweep(s, depth, alpha, beta, side, states, children, i),
                     PlainSweep(s, depth, side, states, children, i).move, alpha, beta)
    ensures Clamped(Sweep(s, depth, alpha, beta, side, states, children, i + 1),
                    PlainSweep(s, depth, side, states, children, i + 1).move, alpha, beta)
    decreases Levels(depth), 0, i + 1, 0
  {
    var f := Sweep(s, depth, alpha, beta, side, states, children, i);
    var u := PlainSweep(s, depth, side, states, children, i);
    var q := Plain(s, children[i], depth - 1, Opposite(side));
    PlainSweepStep(s, depth, side, states, children, i, q);
    if !f.pruned {
      var r := Node(s, children[i], depth - 1, -beta, -f.alpha, Opposite(side));
      SweepAlpha(s, depth, alpha, beta, side, states, children, i);
      NodeClamp(s, children[i], depth - 1, -beta, -f.alpha, Opposite(side));
      SweepStep(s, depth, alpha, beta, side, states, children, i, r);
      ClampStep(alpha, beta, f.best, f.alpha, u.move, states[i], -q.move.score, -r.move.score);
    }
  }

  /**
   * Fail-soft alpha-beta: a plain value at or below alpha gives a windowed
   * value at or below alpha, one at or above beta a windowed value at or
   * above beta, and one strictly inside the window the very same move.
   */
  lemma {:induction false} NodeClamp(s: Search, board: SquareBoard, depth: int, alpha: int, beta: int, side: Side)
    requires Valid(board) && Window(alpha, beta)
    ensures var m, p := Node(s, board, depth, alpha, beta, side).move, Plain(s, board, depth, side).move;
      && (p.score <= alpha ==> m.score <= alpha)
      && (p.score >= beta ==> m.score >= beta)
      && (alpha < p.score < beta ==> m == p)
    decreases Levels(depth), 1
  {
    if !s.options.allowPruning {
      UnprunedIsPlain(s, board, depth, alpha, beta, side);
    } else if CanSearchDeeper(s, board, depth) {
      var states := States(s, board, side);
      if |states| > 0 && !(depth == s.options.maxDepth && |states| == 1) {
        SweepClamp(s, depth, alpha, beta, side, states, Children(board, states), |states|);
      }
    }
  }

  /** The root's loop and the plain loop agree once the windowed score of a state is tied to its plain one. */
  predicate RootAgrees(f: Frame, u: BotMove)
  {
    && f.best == u
    && (f.pruned ==> u.score == MaxInt)
    && (!f.pruned ==> f.alpha < MaxInt)
  }

  /**
   * One iteration at the root on plain values: in the window (-MaxInt, -a)
   * of an Int32-valued child the windowed score w and the plain score v
   * lead to the same bestMove.
   */
  lemma RootStep(best: BotMove, a: int, u: BotMove, st: State, v: int, w: int)
    requires best == u && a < MaxInt && a == Max(MinInt + 1, best.score) && u.score <= MaxInt
    requires InRange(v) && InRange(w)
    requires v >= MaxInt ==> w >= MaxInt
    requires v <= a ==> w <= a
    requires a < v < MaxInt ==> w == v
    ensures var b := Better(best, st, w);
      RootAgrees(Frame(b, Max(a, b.score), Max(a, b.score) >= MaxInt, 0), Better(u, st, v))
  {
  }

  /** With pruning on, the root loop over the widest window returns the plain loop's bestMove. */
  lemma {:induction false} RootSweep(s: Search, depth: int, side: Side, states: seq<State>,
                                     children: seq<SquareBoard>, n: nat)
    requires ScoringInRange(s.scoring) && Leads(states, children) && s.options.allowPruning
    requires depth > 0 && n <= |states|
    ensures RootAgrees(Sweep(s, depth, MinInt + 1, MaxInt, side, states, children, n),
                       PlainSweep(s, depth, side, states, children, n).move)
  {
    if n > 0 {
      RootSweep(s, depth, side, states, children, n - 1);
      RootSweepStep(s, depth, side, states, children, n - 1);
    }
  }

  /** One iteration of both root loops keeps them in agreement. */
  lemma RootSweepStep(s: Search, depth: int, side: Side, states: seq<State>, children: seq<SquareBoard>, i: nat)
    requires ScoringInRange(s.scoring) && Leads(states, children) && s.options.allowPruning
    requires depth > 0 && i < |states|
    requires RootAgrees(Sweep(s, depth, MinInt + 1, MaxInt, side, states, children, i),
                        PlainSweep(s, depth, side, states, children, i).move)
    ensures RootAgrees(Sweep(s, depth, MinInt + 1, MaxInt, side, states, children, i + 1),
                       PlainSweep(s, depth, side, states, children, i + 1).move)
  {
    var f := Sweep(s, depth, MinInt + 1, MaxInt, side, states, children, i);
    var u := PlainSweep(s, depth, side, states, children, i);
    var q := Plain(s, children[i], depth - 1, Opposite(side));
    PlainSweepInRange(s, depth, side, states, children, i);
    PlainInRange(s, children[i], depth - 1, Opposite(side));
    PlainSweepStep(s, depth, side, states, children, i, q);
    if !f.pruned {
      var r := Node(s, children[i], depth - 1, -MaxInt, -f.alpha, Opposite(side));
      SweepAlpha(s, depth, MinInt + 1, MaxInt, side, states, children, i);
      NodeClamp(s, children[i], depth - 1, -MaxInt, -f.alpha, Opposite(side));
      NodeInRange(s, children[i], depth - 1, -MaxInt, -f.alpha, Opposite(side));
      SweepStep(s, depth, MinInt + 1, MaxInt, side, states, children, i, r);
      RootStep(f.best, f.alpha, u.move, states[i], -q.move.score, -r.move.score);
    }
  }

  /** A node searched with FindBestMove's window returns plain Negamax's move, whether or not it prunes. */
  lemma RootIsPlain(s: Search, board: SquareBoard, depth: int, side: Side)
    requires ScoringInRange(s.scoring) && Valid(board)
    ensures Node(s, board, depth, MinInt + 1, MaxInt, side).move == Plain(s, board, depth, side).move
  {
    if !s.options.allowPruning {
      UnprunedIsPlain(s, board, depth, MinInt + 1, MaxInt, side);
    } else if CanSearchDeeper(s, board, depth) {
      var states := States(s, board, side);
      if |states| > 0 && !(depth == s.options.maxDepth && |states| == 1) {
        RootSweep(s, depth, side, states, Children(board, states), |states|);
      }
    }
  }

  /** FindBestMove returns the move of plain Negamax to MaxDepth from the bot's side. */
  lemma BestMoveIsPlain(s: Search, board: SquareBoard)
    requires ScoringInRange(s.scoring) && Valid(board)
    ensures BestMove(s, board).move == Plain(s, board, s.options.maxDepth, s.botSide).move
  {
    RootIsPlain(s, board, s.options.maxDepth, s.botSide);
  }

  /** Plain Negamax does not read AllowPrunning. */
  lemma {:induction false} PlainIgnoresPruning(s: Search, board: SquareBoard, depth: int, side: Side)
    requires Valid(board)
    ensures Plain(s, board, depth, side) == Plain(Unpruned(s), board, depth, side)
    decreases Levels(depth), 1
  {
    if CanSearchDeeper(s, board, depth) {
      var states := States(s, board, side);
      if |states| > 0 && !(depth == s.options.maxDepth && |states| == 1) {
        PlainSweepIgnoresPruning(s, depth, side, states, Children(board, states), |states|);
      }
    }
  }

  lemma {:induction false} PlainSweepIgnoresPruning(s: Search, depth: int, side: Side, states: seq<State>,
                                                    children: seq<SquareBoard>, n: nat)
    requires Leads(states, children) && depth > 0 && n <= |states|
    ensures PlainSweep(s, depth, side, states, children, n) == PlainSweep(Unpruned(s), depth, side, states, children, n)
    decreases Levels(depth), 0, n
  {
    if n > 0 {
      PlainSweepIgnoresPruning(s, depth, side, states, children, n - 1);
      PlainIgnoresPruning(s, children[n - 1], depth - 1, Opposite(side));
    }
  }

  /** Switching AllowPrunning off leaves FindBestMove's move unchanged. */
  lemma PruningKeepsBestMove(s: Search, board: SquareBoard)
    requires ScoringInRange(s.scoring) && Valid(board)
    ensures BestMove(s, board).move == BestMove(Unpruned(s), board).move
  {
    BestMoveIsPlain(s, board);
    BestMoveIsPlain(Unpruned(s), board);
    PlainIgnoresPruning(s, board, s.options.maxDepth, s.botSide);
  }

  /** A windowed node never estimates more boards than plain Negamax, whatever the window. */
  lemma {:induction false} NodeEstimates(s: Search, board: SquareBoard, depth: int, alpha: int, beta: int, side: Side)
    requires Valid(board)
    ensures Node(s, board, depth, alpha, beta, side).estimates <= Plain(s, board, depth, side).estimates
    decreases Levels(depth), 1
  {
    if CanSearchDeeper(s, board, depth) {
      var states := States(s, board, side);
      if |states| > 0 && !(depth == s.options.maxDepth && |states| == 1) {
        SweepEstimates(s, depth, alpha, beta, side, states, Children(board, states), |states|);
      }
    }
  }

  lemma {:induction false} SweepEstimates(s: Search, depth: int, alpha: int, beta: int, side: Side,
                                          states: seq<State>, children: seq<SquareBoard>, n: nat)
    requires Leads(states, children) && depth > 0 && n <= |states|
    ensures Sweep(s, depth, alpha, beta, side, states, children, n).estimates <=
      PlainSweep(s, depth, side, states, children, n).estimates
    decreases Levels(depth), 0, n, 1
  {
    if n > 0 {
      SweepEstimates(s, depth, alpha, beta, side, states, children, n - 1);
      SweepEstimatesStep(s, depth, alpha, beta, side, states, children, n - 1);
    }
  }

  /** One iteration estimates no more with the window than without it. */
  lemma {:induction false} SweepEstimatesStep(s: Search, depth: int, alpha: int, beta: int, side: Side,
                                              states: seq<State>, children: seq<SquareBoard>, i: nat)
    requires Leads(states, children) && depth > 0 && i < |states|
    requires Sweep(s, depth, alpha, beta, side, states, children, i).estimates <=
      PlainSweep(s, depth, side, states, children, i).estimates
    ensures Sweep(s, depth, alpha, beta, side, states, children, i + 1).estimates <=
      PlainSweep(s, depth, side, states, children, i + 1).estimates
    decreases Levels(depth), 0, i + 1, 0
  {
    var f := Sweep(s, depth, alpha, beta, side, states, children, i);
    var q := Plain(s, children[i], depth - 1, Opposite(side));
    PlainSweepStep(s, depth, side, states, children, i, q);
    if !f.pruned {
      var r := Node(s, children[i], depth - 1, -beta, -f.alpha, Opposite(side));
      NodeEstimates(s, children[i], depth - 1, -beta, -f.alpha, Opposite(side));
      SweepStep(s, depth, alpha, beta, side, states, children, i, r);
    }
  }

  /** FindBestMove with pruning adds no more to TotalMovesEstimated than without. */
  lemma PruningNeverCostsMore(s: Search, board: SquareBoard)
    requires Valid(board)
    ensures BestMove(s, board).estimates <= BestMove(Unpruned(s), board).estimates
  {
    NodeEstimates(s, board, s.options.maxDepth, MinInt + 1, MaxInt, s.botSide);
    UnprunedIsPlain(Unpruned(s), board, s.options.maxDepth, MinInt + 1, MaxInt, s.botSide);
    PlainIgnoresPruning(s, board, s.options.maxDepth, s.botSide);
  }
}
