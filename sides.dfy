/** Checkers.Core.Board.Side and SideUtil. */
module Sides {
  /** The byte enum, declared in its order Nop < Empty < Black < Red. */
  datatype Side = Nop | Empty | Black | Red

  /** The enum's underlying byte value. */
  function Ordinal(s: Side): (n: nat)
    ensures n < 4
    ensures s == Nop <==> n == 0
    ensures s == Empty <==> n == 1
    ensures s == Black <==> n == 2
    ensures s == Red <==> n == 3
  {
    match s
    case Nop => 0
    case Empty => 1
    case Black => 2
    case Red => 3
  }

  /** A side that owns figures: exactly the sides above Empty. */
  predicate IsPlayer(s: Side)
  {
    s == Black || s == Red
  }

  /** SideUtil.Opposite. */
  function Opposite(s: Side): (r: Side)
    ensures IsPlayer(s) <==> IsPlayer(r)
    ensures IsPlayer(s) ==> r != s
    ensures !IsPlayer(s) ==> r == Nop
  {
    if s == Black then Red
    else if s == Red then Black
    else Nop
  }

  /** Being a player is being above Empty in the enum order. */
  lemma PlayerOrdinal(s: Side)
    ensures IsPlayer(s) <==> Ordinal(s) > Ordinal(Empty)
  {
  }

  /** Opposite is an involution on the two players. */
  lemma OppositeInvolution(s: Side)
    requires IsPlayer(s)
    ensures Opposite(Opposite(s)) == s
  {
  }
}

/** GameSide, the two playing sides of the game layer, and its conversion to a board side. */
module GameSides {
  import Sides

  datatype GameSide = Black | Red

  /** The conversion used by both game orchestrators: GameSide.Black to Side.Black, otherwise Side.Red. */
  function Convert(g: GameSide): (s: Sides.Side)
    ensures Sides.IsPlayer(s)
    ensures g.Black? <==> s == Sides.Black
  {
    if g == Black then Sides.Black else Sides.Red
  }

  /** The other game side. */
  function Other(g: GameSide): (r: GameSide)
    ensures r != g && Convert(r) == Sides.Opposite(Convert(g))
  {
    if g == Black then Red else Black
  }
}
