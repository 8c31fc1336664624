/**
 * What the Negamax search promises: its scores stay in the Int32 range,
 * without pruning a node scores the maximum of its children and picks the
 * earliest state reaching it, and alpha-beta pruning never changes the
 * root's result while never costing more estimates.
 */
module NegaMaxLemmas {
  import opened Sides
  import opened Figures
  import opened Boards
  import opened Commands
  import opened NegaMax

  predicate InRange(x: int)
  {
    MinInt + 1 <= x <= MaxInt
  }

  /** A node that cannot search deeper is one estimate, the same whichever side is to move. */
  lemma LeafEstimates(s: Search, board: SquareBoard, depth: int, alpha: int, beta: int, side: Side, other: Side)
    requires Valid(board) && !CanSearchDeeper(s, board, depth)
    ensures Node(s, board, depth, alpha, beta, side) == Eval(EmptyMove(EstimateValue(s, board)), 1)
    ensures Node(s, board, depth, alpha, beta, side) == Node(s, board, depth, alpha, beta, other)
  {
  }

  /** At depth MaxDepth a single state is returned with index 0 and score 0, and nothing is estimated. */
  lemma SingleStateFastPath(s: Search, board: SquareBoard, alpha: int, beta: int, side: Side)
    requires Valid(board) && CanSearchDeeper(s, board, s.options.maxDepth)
    requires |States(s, board, side)| == 1
    ensures Node(s, board, s.options.maxDepth, alpha, beta, side) ==
      Eval(BotMove(States(s, board, side)[0].figure, 0, 0), 0)
  {
  }

  /** A side with figures but no moves is one estimate. */
  lemma NoMovesEstimates(s: Search, board: SquareBoard, depth: int, alpha: int, beta: int, side: Side)
    requires Valid(board) && CanSearchDeeper(s, board, depth) && States(s, board, side) == []
    ensures Node(s, board, depth, alpha, beta, side) == Eval(EmptyMove(EstimateValue(s, board)), 1)
  {
  }

  /** Every score a node returns can be negated without leaving Int32. */
  lemma {:induction false} NodeInRange(s: Search, board: SquareBoard, depth: int, alpha: int, beta: int, side: Side)
    requires ScoringInRange(s.scoring) && Valid(board)
    ensures InRange(Node(s, board, depth, alpha, beta, side).move.score)
    decreases Levels(depth), 1
  {
    if CanSearchDeeper(s, board, depth) {
      var states := States(s, board, side);
      if |states| > 0 && !(depth == s.options.maxDepth && |states| == 1) {
        SweepInRange(s, depth, alpha, beta, side, states, Children(board, states), |states|);
      }
    }
  }

  /**
   * bestMove starts at Int32.MinValue and is in range after the first state;
   * alpha stays in range when it starts in range, so -alpha never overflows.
   */
  lemma {:induction false} SweepInRange(s: Search, depth: int, alpha: int, beta: int, side: Side,
                                        states: seq<State>, children: seq<SquareBoard>, n: nat)
    requires ScoringInRange(s.scoring) && Leads(states, children) && depth > 0 && n <= |states|
    ensures var f := Sweep(s, depth, alpha, beta, side, states, children, n);
      && MinInt <= f.best.score <= MaxInt
      && (n > 0 ==> InRange(f.best.score))
      && (n == 0 ==> !f.pruned)
      && (InRange(alpha) ==> InRange(f.alpha))
    decreases Levels(depth), 0, n
  {
    if n > 0 {
      SweepInRange(s, depth, alpha, beta, side, states, children, n - 1);
      var f := Sweep(s, depth, alpha, beta, side, states, children, n - 1);
      if !f.pruned {
        var r := Node(s, children[n - 1], depth - 1, -beta, -f.alpha, Opposite(side));
        NodeInRange(s, children[n - 1], depth - 1, -beta, -f.alpha, Opposite(side));
        SweepStep(s, depth, alpha, beta, side, states, children, n - 1, r);
      }
    }
    SweepAlpha(s, depth, alpha, beta, side, states, children, n);
  }

  /** alpha is raised to bestMove's score at every state, so after the first state it is their maximum. */
  lemma {:induction false} SweepAlpha(s: Search, depth: int, alpha: int, beta: int, side: Side,
                                      states: seq<State>, children: seq<SquareBoard>, n: nat)
    requires Leads(states, children) && depth > 0 && n <= |states|
    ensures var f := Sweep(s, depth, alpha, beta, side, states, children, n);
      f.alpha == if n == 0 then alpha else Max(alpha, f.best.score)
    decreases n
  {
    if n > 0 {
      SweepAlpha(s, depth, alpha, beta, side, states, children, n - 1);
    }
  }

  /**
   * Negamax without alpha-beta, the reference the windowed search is
   * measured against: the same leaves, the same single-state shortcut at
   * MaxDepth, and every state's child searched to the end.
   */
  function Plain(s: Search, board: SquareBoard, depth: int, side: Side): Eval
    requires Valid(board)
    decreases Levels(depth), 1
  {
    if !CanSearchDeeper(s, board, depth) then Eval(EmptyMove(EstimateValue(s, board)), 1)
    else
      var states := States(s, board, side);
      if depth == s.options.maxDepth && |states| == 1 then Eval(BotMove(states[0].figure, 0, 0), 0)
      else if states == [] then Eval(EmptyMove(EstimateValue(s, board)), 1)
      else
        PlainSweep(s, depth, side, states, Children(board, states), |states|)
  }

  /** The first n states, each kept when it scores strictly more than the best so far. */
  function PlainSweep(s: Search, depth: int, side: Side, states: seq<State>, children: seq<SquareBoard>, n: nat): Eval
    requires Leads(states, children) && depth > 0 && n <= |states|
    decreases Levels(depth), 0, n
  {
    if n == 0 then Eval(EmptyMove(MinInt), 0)
    else
      var p := PlainSweep(s, depth, side, states, children, n - 1);
      var r := Plain(s, children[n - 1], depth - 1, Opposite(side));
      Eval(Better(p.move, states[n - 1], -r.move.score), p.estimates + r.estimates)
  }

  /** One more iteration of the plain loop, given the child's plain result r. */
  lemma PlainSweepStep(s: Search, depth: int, side: Side, states: seq<State>, children: seq<SquareBoard>, i: nat, r: Eval)
    requires Leads(states, children) && depth > 0 && i < |states|
    requires r == Plain(s, children[i], depth - 1, Opposite(side))
    ensures var p := PlainSweep(s, depth, side, states, children, i);
      PlainSweep(s, depth, side, states, children, i + 1) == Eval(Better(p.move, states[i], -r.move.score), p.estimates + r.estimates)
  {
  }

  /** The score of the k-th state: its child's plain value, negated. */
  function ChildValue(s: Search, depth: int, side: Side, children: seq<SquareBoard>, k: nat): int
    requires k < |children| && Valid(children[k])
  {
    -Plain(s, children[k], depth - 1, Opposite(side)).move.score
  }

  lemma {:induction false} PlainInRange(s: Search, board: SquareBoard, depth: int, side: Side)
    requires ScoringInRange(s.scoring) && Valid(board)
    ensures InRange(Plain(s, board, depth, side).move.score)
    decreases Levels(depth), 1
  {
    if CanSearchDeeper(s, board, depth) {
      var states := States(s, board, side);
      if |states| > 0 && !(depth == s.options.maxDepth && |states| == 1) {
        PlainSweepInRange(s, depth, side, states, Children(board, states), |states|);
      }
    }
  }

  lemma {:induction false} PlainSweepInRange(s: Search, depth: int, side: Side, states: seq<State>,
                                             children: seq<SquareBoard>, n: nat)
    requires ScoringInRange(s.scoring) && Leads(states, children) && depth > 0 && n <= |states|
    ensures var p := PlainSweep(s, depth, side, states, children, n);
      MinInt <= p.move.score && (n > 0 ==> InRange(p.move.score))
    decreases Levels(depth), 0, n
  {
    if n > 0 {
      PlainSweepInRange(s, depth, side, states, children, n - 1);
      PlainInRange(s, children[n - 1], depth - 1, Opposite(side));
    }
  }

  /**
   * After n states the plain loop holds the earliest state k with the
   * greatest score: every earlier state scores strictly less, no later one more.
   */
  lemma {:induction false} PlainSweepFirstMaximum(s: Search, depth: int, side: Side, states: seq<State>,
                                                  children: seq<SquareBoard>, n: nat) returns (k: nat)
    requires ScoringInRange(s.scoring) && Leads(states, children) && depth > 0 && 0 < n <= |states|
    ensures k < n
    ensures PlainSweep(s, depth, side, states, children, n).move ==
      BotMove(states[k].figure, states[k].sequenceIndex, ChildValue(s, depth, side, children, k))
    ensures forall j :: 0 <= j < k ==> ChildValue(s, depth, side, children, j) < ChildValue(s, depth, side, children, k)
    ensures forall j :: k <= j < n ==> ChildValue(s, depth, side, children, j) <= ChildValue(s, depth, side, children, k)
  {
    PlainInRange(s, children[n - 1], depth - 1, Opposite(side));
    if n == 1 {
      k := 0;
    } else {
      var k' := PlainSweepFirstMaximum(s, depth, side, states, children, n - 1);
      if ChildValue(s, depth, side, children, n - 1) > ChildValue(s, depth, side, children, k') {
        k := n - 1;
      } else {
        k := k';
      }
    }
  }

  /** A searching node of plain Negamax returns its first maximal state. */
  lemma PlainIsFirstMaximum(s: Search, board: SquareBoard, depth: int, side: Side) returns (k: nat)
    requires ScoringInRange(s.scoring) && Valid(board) && CanSearchDeeper(s, board, depth)
    requires var n := |States(s, board, side)|; n > 0 && !(depth == s.options.maxDepth && n == 1)
    ensures var states := States(s, board, side);
      && k < |states|
      && Plain(s, board, depth, side).move ==
           BotMove(states[k].figure, states[k].sequenceIndex, ChildValue(s, depth, side, Children(board, states), k))
      && (forall j :: 0 <= j < k ==>
           ChildValue(s, depth, side, Children(board, states), j) < ChildValue(s, depth, side, Children(board, states), k))
      && (forall j :: k <= j < |states| ==>
           ChildValue(s, depth, side, Children(board, states), j) <= ChildValue(s, depth, side, Children(board, states), k))
  {
    var states := States(s, board, side);
    k := PlainSweepFirstMaximum(s, depth, side, states, Children(board, states), |states|);
  }

  /** With AllowPrunning off the window never matters: Negamax is plain Negamax, count included. */
  lemma {:induction false} UnprunedIsPlain(s: Search, board: SquareBoard, depth: int, alpha: int, beta: int, side: Side)
    requires Valid(board) && !s.options.allowPruning
    ensures Node(s, board, depth, alpha, beta, side) == Plain(s, board, depth, side)
    decreases Levels(depth), 1
  {
    if CanSearchDeeper(s, board, depth) {
      var states := States(s, board, side);
      if |states| > 0 && !(depth == s.options.maxDepth && |states| == 1) {
        UnprunedSweepIsPlain(s, depth, alpha, beta, side, states, Children(board, states), |states|);
      }
    }
  }

  lemma {:induction false} UnprunedSweepIsPlain(s: Search, depth: int, alpha: int, beta: int, side: Side,
                                                states: seq<State>, children: seq<SquareBoard>, n: nat)
    requires Leads(states, children) && !s.options.allowPruning && depth > 0 && n <= |states|
    ensures var f, p := Sweep(s, depth, alpha, beta, side, states, children, n), PlainSweep(s, depth, side, states, children, n);
      f.best == p.move && f.estimates == p.estimates && !f.pruned
    decreases Levels(depth), 0, n
  {
    if n > 0 {
      UnprunedSweepIsPlain(s, depth, alpha, beta, side, states, children, n - 1);
      var f := Sweep(s, depth, alpha, beta, side, states, children, n - 1);
      var r := Node(s, children[n - 1], depth - 1, -beta, -f.alpha, Opposite(side));
      UnprunedIsPlain(s, children[n - 1], depth - 1, -beta, -f.alpha, Opposite(side));
      SweepStep(s, depth, alpha, beta, side, states, children, n - 1, r);
      PlainSweepStep(s, depth, side, states, children, n - 1, r);
    }
  }
}
