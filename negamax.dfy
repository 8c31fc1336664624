/**
 * Checkers.Core.Bot.NegaMaxBot, sequential: Negamax with alpha-beta windows
 * as pure functions of the board. Node is one Negamax call, Sweep the value
 * of its loop over the states after n iterations, each a DoNegamax call.
 * Each result carries the number of Estimate calls the search made, which is
 * what TotalMovesEstimated grows by.
 *
 * The rules and the board scoring are parameters (the IRules and
 * IBoardScoring the bot is constructed with).
 */
module NegaMax {
  import opened Sides
  import opened Figures
  import opened Boards
  import opened MoveSteps
  import opened Rules
  import opened Commands

  const MinInt: int := -0x8000_0000
  const MaxInt: int := 0x7fff_ffff

  /** The options the sequential search reads. */
  datatype BotOptions = BotOptions(maxDepth: int, allowPruning: bool)

  /** A chosen figure, the index of its chosen sequence, and the score. */
  datatype BotMove = BotMove(figure: Figure, sequenceIndex: int, score: int)

  /** BotMove.Empty(score) and BotMove(score): no figure, only a score. */
  function EmptyMove(score: int): (m: BotMove)
    ensures m.figure == Figures.Nop && m.score == score
  {
    BotMove(Figures.Nop, 0, score)
  }

  /** One (figure, sequence) pair of GetStates, with the board it starts from. */
  datatype State = State(figure: Figure, sequenceIndex: nat, board: SquareBoard, moveSequence: seq<MoveStep>)

  type RulesFn = (SquareBoard, Side) -> seq<Entry>
  type ScoringFn = (SquareBoard, Side) -> int

  /** What one FindBestMove call fixes: rules, scoring, options and the bot's side. */
  datatype Search = Search(rules: RulesFn, scoring: ScoringFn, options: BotOptions, botSide: Side)

  /** Every sequence the rules list on a valid board can be executed by MoveCommandChain. */
  ghost predicate RulesWellFormed(rules: RulesFn)
  {
    forall b, side {:trigger AllExecutable(b, rules(b, side))} :: Valid(b) ==> AllExecutable(b, rules(b, side))
  }

  /** Every sequence listed for a figure can be executed by MoveCommandChain from the board. */
  ghost predicate AllExecutable(b: SquareBoard, moves: seq<Entry>)
  {
    forall e, q {:trigger Executable(b, e.figure, q)} :: e in moves && q in e.sequences ==> Executable(b, e.figure, q)
  }

  /** The scoring stays in the range whose negation is still an Int32. */
  ghost predicate ScoringInRange(scoring: ScoringFn)
  {
    forall b, side :: MinInt + 1 <= scoring(b, side) <= MaxInt
  }

  ghost predicate Sound(s: Search)
  {
    RulesWellFormed(s.rules) && ScoringInRange(s.scoring)
  }

  /** The same search with AllowPrunning switched off. */
  function Unpruned(s: Search): (u: Search)
    ensures u.rules == s.rules && u.scoring == s.scoring && u.botSide == s.botSide
    ensures u.options.maxDepth == s.options.maxDepth && !u.options.allowPruning
  {
    s.(options := s.options.(allowPruning := false))
  }

  function Max(a: int, b: int): int
  {
    if a >= b then a else b
  }

  /** CanSearchDeeper: depth left, and both sides still have figures. */
  predicate CanSearchDeeper(s: Search, board: SquareBoard, depth: int)
  {
    depth > 0 && !NoFigures(board, s.botSide) && !NoFigures(board, Opposite(s.botSide))
  }

  /** Estimate's value, always from the bot's side whatever side is to move. */
  function EstimateValue(s: Search, board: SquareBoard): (v: int)
    ensures NoFigures(board, s.botSide) ==> v == -1000
    ensures !NoFigures(board, s.botSide) && NoFigures(board, Opposite(s.botSide)) ==> v == 1000
    ensures !NoFigures(board, s.botSide) && !NoFigures(board, Opposite(s.botSide)) ==> v == s.scoring(board, s.botSide)
  {
    if NoFigures(board, s.botSide) then -1000
    else if NoFigures(board, Opposite(s.botSide)) then 1000
    else s.scoring(board, s.botSide)
  }

  /** The states of one dictionary entry: one per sequence, with its index. */
  function EntryStates(board: SquareBoard, e: Entry): (r: seq<State>)
    ensures |r| == |e.sequences|
    ensures forall i :: 0 <= i < |r| ==> r[i] == State(e.figure, i, board, e.sequences[i])
  {
    seq(|e.sequences|, i requires 0 <= i < |e.sequences| => State(e.figure, i, board, e.sequences[i]))
  }

  /** GetStates over the given entries, in dictionary order. */
  function StatesFrom(board: SquareBoard, moves: seq<Entry>): seq<State>
  {
    if moves == [] then [] else StatesFrom(board, moves[..|moves| - 1]) + EntryStates(board, moves[|moves| - 1])
  }

  function States(s: Search, board: SquareBoard, side: Side): seq<State>
  {
    StatesFrom(board, s.rules(board, side))
  }

  /** Every state pairs a listed figure with one of its listed sequences, on the board it was built for. */
  lemma {:induction false} StatesFromAt(board: SquareBoard, moves: seq<Entry>, k: nat)
    requires k < |StatesFrom(board, moves)|
    ensures var st := StatesFrom(board, moves)[k];
      st.board == board && exists e :: e in moves && st.figure == e.figure && st.moveSequence in e.sequences
    decreases |moves|
  {
    var init := moves[..|moves| - 1];
    var last := moves[|moves| - 1];
    if k < |StatesFrom(board, init)| {
      StatesFromAt(board, init, k);
      var e :| e in init && StatesFrom(board, init)[k].figure == e.figure &&
        StatesFrom(board, init)[k].moveSequence in e.sequences;
      assert e in moves;
    } else {
      var i := k - |StatesFrom(board, init)|;
      assert StatesFrom(board, moves)[k] == EntryStates(board, last)[i];
      assert last in moves;
    }
  }

  /** The state's chain can be executed from its board, which is a valid board. */
  predicate Playable(st: State)
  {
    Valid(st.board) && Executable(st.board, st.figure, st.moveSequence)
  }

  ghost predicate AllPlayable(states: seq<State>)
  {
    forall k {:trigger Playable(states[k])} :: 0 <= k < |states| ==> Playable(states[k])
  }

  /** Every state GetStates returns can be executed from the board it was built for. */
  lemma StatesPlayable(s: Search, board: SquareBoard, side: Side)
    requires Sound(s) && Valid(board)
    ensures AllPlayable(States(s, board, side))
  {
    assert AllExecutable(board, s.rules(board, side));
    forall k | 0 <= k < |States(s, board, side)|
      ensures Playable(States(s, board, side)[k])
    {
      var st := States(s, board, side)[k];
      StatesFromAt(board, s.rules(board, side), k);
      var e :| e in s.rules(board, side) && st.figure == e.figure && st.moveSequence in e.sequences;
    }
  }

  /** The board after MoveCommandChain executes the state. */
  function After(st: State): (c: SquareBoard)
    requires Playable(st)
    ensures Valid(c)
  {
    RunKeepsValid(st.board, st.figure, st.moveSequence);
    Run(st.board, st.figure, st.moveSequence).board
  }

  /**
   * The board a state of `board` leads to: the chain's result, or the board
   * itself for a state the chain cannot execute (one sound rules never list).
   */
  function Next(board: SquareBoard, st: State): (c: SquareBoard)
    ensures Valid(board) ==> Valid(c)
    ensures Playable(st) ==> c == After(st)
  {
    if Playable(st) then After(st) else board
  }

  /** The boards the states lead to, one per state. */
  function Children(board: SquareBoard, states: seq<State>): (c: seq<SquareBoard>)
    ensures Valid(board) ==> Leads(states, c)
  {
    if states == [] then [] else Children(board, states[..|states| - 1]) + [Next(board, states[|states| - 1])]
  }

  /** Each board is the one its state leads to, wherever the state can be executed. */
  ghost predicate Follows(states: seq<State>, children: seq<SquareBoard>)
  {
    |children| == |states| &&
      forall k {:trigger After(states[k])} :: 0 <= k < |states| && Playable(states[k]) ==> children[k] == After(states[k])
  }

  lemma ChildrenFollow(board: SquareBoard, states: seq<State>)
    ensures Follows(states, Children(board, states))
  {
  }

  /** All the boards are valid, one per state. */
  ghost predicate Leads(states: seq<State>, children: seq<SquareBoard>)
  {
    |children| == |states| && forall k {:trigger Valid(children[k])} :: 0 <= k < |children| ==> Valid(children[k])
  }

  /** The result of a Negamax call and the number of Estimate calls it made. */
  datatype Eval = Eval(move: BotMove, estimates: nat)

  /** bestMove, alpha and the pruning flag after some iterations of the loop, and the estimates so far. */
  datatype Frame = Frame(best: BotMove, alpha: int, pruned: bool, estimates: nat)

  function Levels(depth: int): nat
  {
    if depth > 0 then depth else 0
  }

  /** bestMove after a state that scored `score`: replaced only by a strictly greater score. */
  function Better(best: BotMove, st: State, score: int): (b: BotMove)
    ensures b.score == Max(best.score, score)
    ensures b == best || b == BotMove(st.figure, st.sequenceIndex, score)
  {
    if score > best.score then BotMove(st.figure, st.sequenceIndex, score) else best
  }

  /** Negamax(board, depth, alpha, beta, side). */
  function Node(s: Search, board: SquareBoard, depth: int, alpha: int, beta: int, side: Side): Eval
    requires Valid(board)
    decreases Levels(depth), 1
  {
    if !CanSearchDeeper(s, board, depth) then Eval(EmptyMove(EstimateValue(s, board)), 1)
    else
      var states := States(s, board, side);
      if depth == s.options.maxDepth && |states| == 1 then Eval(BotMove(states[0].figure, 0, 0), 0)
      else if states == [] then Eval(EmptyMove(EstimateValue(s, board)), 1)
      else
        var f := Sweep(s, depth, alpha, beta, side, states, Children(board, states), |states|);
        Eval(f.best, f.estimates)
  }

  /**
   * The loop over the states after n iterations. Iteration k is DoNegamax on
   * the k-th state: search the child with the negated window, keep a strictly
   * better score, raise alpha; a pruned frame stops the loop (the cts.Cancel
   * and break).
   */
  function Sweep(s: Search, depth: int, alpha: int, beta: int, side: Side, states: seq<State>,
                 children: seq<SquareBoard>, n: nat): Frame
    requires Leads(states, children) && depth > 0 && n <= |states|
    decreases Levels(depth), 0, n
  {
    if n == 0 then Frame(EmptyMove(MinInt), alpha, false, 0)
    else
      var f := Sweep(s, depth, alpha, beta, side, states, children, n - 1);
      if f.pruned then f
      else
        var r := Node(s, children[n - 1], depth - 1, -beta, -f.alpha, Opposite(side));
        var b := Better(f.best, states[n - 1], -r.move.score);
        var a := Max(f.alpha, b.score);
        Frame(b, a, s.options.allowPruning && a >= beta, f.estimates + r.estimates)
  }

  /** FindBestMove: the root call, depth MaxDepth and the widest window whose negation is an Int32. */
  function BestMove(s: Search, board: SquareBoard): Eval
    requires Valid(board)
  {
    Node(s, board, s.options.maxDepth, MinInt + 1, MaxInt, s.botSide)
  }

  /** Once a frame is pruned no further state is visited: the loop's result is that frame. */
  lemma {:induction false} SweepStopsWhenPruned(s: Search, depth: int, alpha: int, beta: int, side: Side,
                                                states: seq<State>, children: seq<SquareBoard>, i: nat, n: nat)
    requires Leads(states, children) && depth > 0 && i <= n <= |states|
    requires Sweep(s, depth, alpha, beta, side, states, children, i).pruned
    ensures Sweep(s, depth, alpha, beta, side, states, children, n) == Sweep(s, depth, alpha, beta, side, states, children, i)
    decreases n
  {
    if n > i {
      SweepStopsWhenPruned(s, depth, alpha, beta, side, states, children, i, n - 1);
    }
  }

  /** One more iteration of the loop, when the frame so far is not pruned, given the child's result r. */
  lemma SweepStep(s: Search, depth: int, alpha: int, beta: int, side: Side, states: seq<State>,
                  children: seq<SquareBoard>, i: nat, r: Eval)
    requires Leads(states, children) && depth > 0 && i < |states|
    requires !Sweep(s, depth, alpha, beta, side, states, children, i).pruned
    requires r == Node(s, children[i], depth - 1, -beta, -Sweep(s, depth, alpha, beta, side, states, children, i).alpha, Opposite(side))
    ensures var f := Sweep(s, depth, alpha, beta, side, states, children, i);
      var b := Better(f.best, states[i], -r.move.score);
      Sweep(s, depth, alpha, beta, side, states, children, i + 1) ==
        Frame(b, Max(f.alpha, b.score), s.options.allowPruning && Max(f.alpha, b.score) >= beta, f.estimates + r.estimates)
  {
  }

  /** A node that can search deeper, is not the single-state root and has states returns its loop's frame. */
  lemma NodeSweeps(s: Search, board: SquareBoard, depth: int, alpha: int, beta: int, side: Side)
    requires Valid(board) && CanSearchDeeper(s, board, depth)
    requires var n := |States(s, board, side)|; n > 0 && !(depth == s.options.maxDepth && n == 1)
    ensures var states := States(s, board, side);
      var f := Sweep(s, depth, alpha, beta, side, states, Children(board, states), |states|);
      Node(s, board, depth, alpha, beta, side) == Eval(f.best, f.estimates)
  {
  }
}
