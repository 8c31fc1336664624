/**
 * Checkers.Core.Rules.EnglishDraughtsRules as pure functions of a board.
 *
 * Each loop of the source is a prefix recursion here (the value after the
 * first n iterations), which is what the imperative methods of RulesEngine are
 * proved equal to. Enumeration never changes the board: captured pieces stay
 * where they are, and the start cell stays occupied.
 */
module Rules {
  import opened Results
  import opened Points
  import opened Sides
  import GameSides
  import opened Directions
  import opened Figures
  import opened Boards
  import opened MoveSteps

  /** One dictionary entry of GetMoves: a figure and its sequences. */
  datatype Entry = Entry(figure: Figure, sequences: seq<seq<MoveStep>>)

  /** FirstMoveSide: Red moves first. */
  const FirstMoveSide: GameSides.GameSide := GameSides.Red

  /** The row a simple figure is crowned on: 0 for Black, Size - 1 for Red. */
  function CrowningRow(side: Side, size: int): int
  {
    if side == Black then 0 else size - 1
  }

  /** ShouldPromoteKing: a simple Black or Red figure standing on its crowning row. */
  predicate ShouldPromoteKing(f: Figure, size: int)
  {
    !f.isKing && IsPlayer(f.side) && f.point.row == CrowningRow(f.side, size)
  }

  /** The figure one step away in direction d (the `out neighbour` of GetJumpPoint). */
  function Neighbour(b: SquareBoard, f: Figure, d: Direction): Figure
    requires d != Directions.Nop
  {
    Get(b, Apply(d, f.point, 1))
  }

  /** GetJumpPoint: the landing cell two steps away, if the neighbour is an opponent and the landing is empty. */
  function JumpPoint(b: SquareBoard, f: Figure, d: Direction): (p: Point)
    requires d != Directions.Nop
    ensures p != Points.Nop <==> Neighbour(b, f, d).side == Opposite(f.side) && IsEmpty(b, Apply(d, f.point, 2))
    ensures p != Points.Nop ==> p == Apply(d, f.point, 2) && InBounds(b.size, p) && IsEmpty(b, p)
  {
    if Neighbour(b, f, d).side == Opposite(f.side) && IsEmpty(b, Apply(d, f.point, 2)) then
      Apply(d, f.point, 2)
    else
      Points.Nop
  }

  /** The in-bounds cells not yet landed on: shrinks with every jump, so the search terminates. */
  function Unvisited(size: int, visited: set<Point>): set<Coords>
  {
    set r, c | 0 <= r < size && 0 <= c < size && Coords(r, c) !in visited :: Coords(r, c)
  }

  lemma UnvisitedShrinks(size: int, visited: set<Point>, p: Point)
    requires InBounds(size, p) && p !in visited
    ensures Unvisited(size, visited + {p}) < Unvisited(size, visited)
  {
    assert p == Coords(p.row, p.col);
    assert p in Unvisited(size, visited);
  }

  /** A jump from f in direction d is taken: it exists and lands on a cell not yet in the sequence. */
  predicate FreshJump(b: SquareBoard, f: Figure, visited: set<Point>, d: Direction)
    requires d != Directions.Nop
  {
    JumpPoint(b, f, d) != Points.Nop && JumpPoint(b, f, d) !in visited
  }

  /** Some of the first n directions of f gives a fresh jump (the negation of endOfSequence). */
  predicate AnyFreshJump(b: SquareBoard, f: Figure, visited: set<Point>, n: nat)
    requires IsPlayer(f.side) && n <= |DirectionsOf(f)|
  {
    n > 0 && (AnyFreshJump(b, f, visited, n - 1) || FreshJump(b, f, visited, DirectionsOf(f)[n - 1]))
  }

  /**
   * BuildJumpSequences(f, steps): the sequences it adds to the builder. A
   * figure on its crowning row ends the chain with King, even before any jump.
   */
  function JumpSequences(b: SquareBoard, f: Figure, steps: seq<MoveStep>): (r: seq<seq<MoveStep>>)
    requires IsPlayer(f.side)
    decreases Unvisited(b.size, Targets(steps)), 2, 0
  {
    if ShouldPromoteKing(f, b.size) then [steps + [MoveStep.King()]]
    else
      var n := |DirectionsOf(f)|;
      Branches(b, f, steps, n)
        + (if !AnyFreshJump(b, f, Targets(steps), n) && steps != [] then [steps] else [])
  }

  /** What the first n iterations of BuildJumpSequences' direction loop add to the builder. */
  function Branches(b: SquareBoard, f: Figure, steps: seq<MoveStep>, n: nat): (r: seq<seq<MoveStep>>)
    requires IsPlayer(f.side) && n <= |DirectionsOf(f)|
    decreases Unvisited(b.size, Targets(steps)), 1, n
  {
    if n == 0 then []
    else Branches(b, f, steps, n - 1) + Follow(b, f, steps, DirectionsOf(f)[n - 1])
  }

  /** One iteration of the direction loop: the search past a fresh jump in direction d, if there is one. */
  function Follow(b: SquareBoard, f: Figure, steps: seq<MoveStep>, d: Direction): (r: seq<seq<MoveStep>>)
    requires IsPlayer(f.side) && d != Directions.Nop
    decreases Unvisited(b.size, Targets(steps)), 0, 0
  {
    var p := JumpPoint(b, f, d);
    if FreshJump(b, f, Targets(steps), d) then
      TargetsAppend(steps, MoveStep.Jump(p));
      UnvisitedShrinks(b.size, Targets(steps), p);
      JumpSequences(b, Figure(p, f.side, f.isKing), steps + [MoveStep.Jump(p)])
    else []
  }

  /** The simple move of BuildSimpleMoves in direction d, if there is one. */
  function SimpleMove(b: SquareBoard, f: Figure, d: Direction): Option<seq<MoveStep>>
    requires d != Directions.Nop
  {
    var n := Neighbour(b, f, d);
    if JumpPoint(b, f, d) == Points.Nop && n.side == Empty then
      var promote := !f.isKing && ShouldPromoteKing(Figure(n.point, f.side, f.isKing), b.size);
      Some([MoveStep.Move(n.point)] + if promote then [MoveStep.King()] else [])
    else None
  }

  /** What the first n iterations of BuildSimpleMoves' loop add. */
  function SimpleMovesUpTo(b: SquareBoard, f: Figure, n: nat): seq<seq<MoveStep>>
    requires IsPlayer(f.side) && n <= |DirectionsOf(f)|
  {
    if n == 0 then []
    else
      SimpleMovesUpTo(b, f, n - 1) +
        match SimpleMove(b, f, DirectionsOf(f)[n - 1])
        case Some(s) => [s]
        case None => []
  }

  /** BuildSimpleMoves(f). */
  function SimpleMoves(b: SquareBoard, f: Figure): seq<seq<MoveStep>>
    requires IsPlayer(f.side)
  {
    SimpleMovesUpTo(b, f, |DirectionsOf(f)|)
  }

  /** The jumps of a figure, as GetMoves requests them: an empty starting sequence. */
  function JumpsOf(b: SquareBoard, f: Figure): seq<seq<MoveStep>>
    requires IsPlayer(f.side)
  {
    JumpSequences(b, f, [])
  }

  predicate AllPlayers(figs: seq<Figure>)
  {
    forall i :: 0 <= i < |figs| ==> IsPlayer(figs[i].side)
  }

  /** The jumpMoves dictionary after the given figures, in insertion order. */
  function JumpEntries(b: SquareBoard, figs: seq<Figure>): seq<Entry>
    requires AllPlayers(figs)
  {
    if figs == [] then []
    else
      var f := figs[|figs| - 1];
      JumpEntries(b, figs[..|figs| - 1]) +
        if JumpsOf(b, f) != [] then [Entry(f, JumpsOf(b, f))] else []
  }

  /** The simpleMoves dictionary after the given figures: only figures without jumps enter it. */
  function SimpleEntries(b: SquareBoard, figs: seq<Figure>): seq<Entry>
    requires AllPlayers(figs)
  {
    if figs == [] then []
    else
      var f := figs[|figs| - 1];
      SimpleEntries(b, figs[..|figs| - 1]) +
        if JumpsOf(b, f) == [] && SimpleMoves(b, f) != [] then [Entry(f, SimpleMoves(b, f))] else []
  }

  /** GetMoves for a playing side: the jump dictionary if it is non-empty, else the simple one. */
  function MovesOf(b: SquareBoard, side: Side): seq<Entry>
    requires IsPlayer(side)
  {
    var figs := FiguresOf(b, side);
    var jumps := JumpEntries(b, figs);
    if |jumps| > 0 then jumps else SimpleEntries(b, figs)
  }

  /** GetMoves: GetAll's exception for a side that is not a player. */
  function Moves(b: SquareBoard, side: Side): (r: Result<seq<Entry>, BoardError>)
    ensures r.Err? <==> !IsPlayer(side)
    ensures r.Ok? ==> r.value == MovesOf(b, side)
  {
    if IsPlayer(side) then Ok(MovesOf(b, side)) else Err(InvalidSide(side))
  }

  /** GameIsOver: one of the sides has no moves. */
  predicate GameIsOver(b: SquareBoard)
  {
    |MovesOf(b, Black)| == 0 || |MovesOf(b, Red)| == 0
  }

  /** One more iteration of BuildJumpSequences' direction loop. */
  lemma BranchesStep(b: SquareBoard, f: Figure, steps: seq<MoveStep>, i: nat)
    requires IsPlayer(f.side) && i < |DirectionsOf(f)|
    ensures var d := DirectionsOf(f)[i];
      && (AnyFreshJump(b, f, Targets(steps), i + 1) <==>
            AnyFreshJump(b, f, Targets(steps), i) || FreshJump(b, f, Targets(steps), d))
      && Branches(b, f, steps, i + 1) == Branches(b, f, steps, i) + Follow(b, f, steps, d)
  {
  }

  /** BranchesStep, as FollowDirections' loop uses it: the list grows by what the next direction finds. */
  lemma BranchesExtend(b: SquareBoard, f: Figure, steps: seq<MoveStep>, i: nat,
                       builder: seq<seq<MoveStep>>, before: seq<seq<MoveStep>>, after: seq<seq<MoveStep>>)
    requires IsPlayer(f.side) && i < |DirectionsOf(f)|
    requires before == builder + Branches(b, f, steps, i)
    requires after == before + Follow(b, f, steps, DirectionsOf(f)[i])
    ensures after == builder + Branches(b, f, steps, i + 1)
    ensures AnyFreshJump(b, f, Targets(steps), i + 1) <==>
      AnyFreshJump(b, f, Targets(steps), i) || FreshJump(b, f, Targets(steps), DirectionsOf(f)[i])
  {
    BranchesStep(b, f, steps, i);
    AppendAssociative(builder, Branches(b, f, steps, i), Follow(b, f, steps, DirectionsOf(f)[i]));
  }

  lemma AppendAssociative<T>(x: seq<T>, y: seq<T>, z: seq<T>)
    ensures (x + y) + z == x + (y + z)
  {
  }

  /** One more iteration of BuildSimpleMoves' loop. */
  lemma SimpleMovesStep(b: SquareBoard, f: Figure, i: nat)
    requires IsPlayer(f.side) && i < |DirectionsOf(f)|
    ensures var m := SimpleMove(b, f, DirectionsOf(f)[i]);
      SimpleMovesUpTo(b, f, i + 1) == SimpleMovesUpTo(b, f, i) + (if m.Some? then [m.value] else [])
  {
  }

  /** One more iteration of GetMoves' figure loop. */
  lemma EntriesStep(b: SquareBoard, figs: seq<Figure>, i: nat)
    requires AllPlayers(figs) && i < |figs|
    ensures AllPlayers(figs[..i]) && AllPlayers(figs[..i + 1])
    ensures var f := figs[i];
      && JumpEntries(b, figs[..i + 1]) ==
           JumpEntries(b, figs[..i]) + (if JumpsOf(b, f) != [] then [Entry(f, JumpsOf(b, f))] else [])
      && SimpleEntries(b, figs[..i + 1]) ==
           SimpleEntries(b, figs[..i]) +
             (if JumpsOf(b, f) == [] && SimpleMoves(b, f) != [] then [Entry(f, SimpleMoves(b, f))] else [])
  {
    assert figs[..i + 1][..i] == figs[..i];
  }
}
