/**
 * Checkers.Core.Game.History: what a game remembers of one move, the side
 * that made it, the sequence it played and the board before it. Both game
 * orchestrators keep their undo stacks of these.
 */
module GameHistory {
  import opened GameSides
  import opened Boards
  import opened MoveSteps

  datatype History = History(side: GameSide, move: seq<MoveStep>, boardBeforeMove: SquareBoard)

  /** Every remembered board is a valid board. */
  predicate BoardsValid(hs: seq<History>)
  {
    forall i :: 0 <= i < |hs| ==> Valid(hs[i].boardBeforeMove)
  }

  /** The stack's entries from the top down, the order Pop returns them in. */
  function Reverse(hs: seq<History>): (r: seq<History>)
    ensures |r| == |hs|
  {
    if hs == [] then [] else [hs[|hs| - 1]] + Reverse(hs[..|hs| - 1])
  }

  /** The i-th entry popped is the i-th from the top. */
  lemma {:induction false} ReverseAt(hs: seq<History>, i: nat)
    requires i < |hs|
    ensures Reverse(hs)[i] == hs[|hs| - 1 - i]
  {
    if i > 0 {
      ReverseAt(hs[..|hs| - 1], i - 1);
    }
  }

  /** Popping a stack's entries and pushing them in turn onto another puts them back in their order. */
  lemma ReverseReverse(hs: seq<History>)
    ensures Reverse(Reverse(hs)) == hs
  {
    forall i | 0 <= i < |hs|
      ensures Reverse(Reverse(hs))[i] == hs[i]
    {
      ReverseAt(Reverse(hs), i);
      ReverseAt(hs, |hs| - 1 - i);
    }
  }

  /**
   * Moving the top n entries of one stack onto another, one pop at a time,
   * and then the top n entries back restores both stacks; the first entry
   * moved back is the one that was on top.
   */
  lemma MoveBack(from: seq<History>, to: seq<History>, n: nat)
    requires n <= |from|
    ensures var moved := to + Reverse(from[|from| - n..]);
      && |moved| == |to| + n
      && moved[..|moved| - n] == to
      && from[..|from| - n] + Reverse(moved[|moved| - n..]) == from
      && (n > 0 ==> moved[|moved| - n] == from[|from| - 1])
  {
    var tail := from[|from| - n..];
    var moved := to + tail[..0] + Reverse(tail);
    assert moved == to + Reverse(tail);
    assert moved[|moved| - n..] == Reverse(tail);
    ReverseReverse(tail);
    assert from == from[..|from| - n] + tail;
    if n > 0 {
      ReverseAt(tail, 0);
    }
  }
}
