/**
 * Applying what the rules produce: every sequence GetMoves lists for a
 * figure can be executed by MoveCommandChain, the mover ends on the last
 * Move/Jump target, every jumped cell is empty and the king bit is set iff
 * the sequence crowns the figure.
 */
module RunLemmas {
  import opened Points
  import opened Sides
  import opened Directions
  import opened Figures
  import opened Boards
  import opened BoardLemmas
  import opened MoveSteps
  import opened Rules
  import opened RulesLemmas
  import opened Commands

  /** Where the mover stands after the steps: the last Move or Jump target, or where it started. */
  function EndPoint(from: Point, t: seq<MoveStep>): Point
    decreases |t|
  {
    if t == [] then from
    else if t[0].stepType == PromoteKing then EndPoint(from, t[1..])
    else EndPoint(t[0].target, t[1..])
  }

  /** The cells JumpMoveCommand clears along the steps. */
  function Middles(from: Point, t: seq<MoveStep>): set<Point>
    decreases |t|
  {
    if t == [] then {}
    else if t[0].stepType == PromoteKing then Middles(from, t[1..])
    else if t[0].stepType == Jump then {Middle(from, t[0].target)} + Middles(t[0].target, t[1..])
    else Middles(t[0].target, t[1..])
  }

  /** A jump found by the rules clears the jumped cell, which is one step along the jump's diagonal. */
  lemma CaptureMiddle(b: SquareBoard, f: Figure, d: Direction, s: MoveStep)
    requires IsPlayer(f.side) && d != Directions.Nop && InBounds(b.size, f.point) && IsCapture(b, f, d, s)
    ensures Middle(f.point, s.target) == Apply(d, f.point, 1)
    ensures InBounds(b.size, Middle(f.point, s.target)) && !IsEmpty(b, Middle(f.point, s.target))
    ensures s.target != Middle(f.point, s.target) && s.target != f.point
    ensures CanJump(b, f, s.target)
  {
    var dr, dc := RowDelta(d), ColDelta(d);
    var one := Apply(d, f.point, 1);
    var t := s.target;
    assert Get(b, one).side == Opposite(f.side);
    assert Opposite(f.side) != Sides.Nop && Opposite(f.side) != Empty;
    assert InBounds(b.size, one) && !IsEmpty(b, one);
    assert IsEmpty(b, t) && InBounds(b.size, t);
    assert t == MakePoint(f.point.row + dr * 2, f.point.col + dc * 2);
    assert t.row == f.point.row + 2 * dr && t.col == f.point.col + 2 * dc;
    MiddleOfJump(f.point, dr, dc);
    assert Middle(f.point, t) == one;
  }

  /** One jump of a chain, run on a board c that holds the mover: what ChainRuns carries to the next jump. */
  lemma JumpStepRuns(b: SquareBoard, c: SquareBoard, f: Figure, d: Direction, s: MoveStep, M: set<Point>) returns (M2: set<Point>)
    requires IsPlayer(f.side) && d != Directions.Nop && InBounds(b.size, f.point) && IsCapture(b, f, d, s)
    requires c.size == b.size && Get(c, f.point) == f
    requires forall m :: m in M ==> IsEmpty(c, m) && !IsEmpty(b, m)
    ensures CanStep(c, f, s)
    ensures Step(c, f, s).figure == Figure(s.target, f.side, f.isKing)
    ensures Get(Step(c, f, s).board, s.target) == Figure(s.target, f.side, f.isKing)
    ensures M2 == M + {Middle(f.point, s.target)} + (if IsEmpty(b, f.point) then {} else {f.point})
    ensures forall m :: m in M2 ==> IsEmpty(Step(c, f, s).board, m) && !IsEmpty(b, m)
  {
    var p := s.target;
    CaptureMiddle(b, f, d, s);
    M2 := M + {Middle(f.point, p)} + (if IsEmpty(b, f.point) then {} else {f.point});
    var c2 := JumpOver(c, f, p).board;
    JumpCells(c, f, p, p);
    forall m | m in M2
      ensures IsEmpty(c2, m) && !IsEmpty(b, m)
    {
      JumpCells(c, f, p, m);
    }
  }

  /** The King step of a chain, run on a board c that holds the mover. */
  lemma PromoteStepRuns(c: SquareBoard, f: Figure, M: set<Point>)
    requires InBounds(c.size, f.point) && Get(c, f.point) == f && IsPlayer(f.side)
    ensures var o := Promote(c, f);
      && Get(o.board, f.point) == f.(isKing := true)
      && forall m :: m in M && IsEmpty(c, m) ==> IsEmpty(o.board, m)
  {
    PromoteCells(c, f, f.point);
    forall m | m in M && IsEmpty(c, m)
      ensures IsEmpty(Promote(c, f).board, m)
    {
      PromoteCells(c, f, m);
    }
  }

  /**
   * What running the steps t of figure f leaves behind: the mover on the
   * end point, crowned iff t crowns it, the cells in M and the jumped cells
   * empty, and the start cell empty once the mover has left it (when the
   * rules' board b has a figure there).
   */
  predicate RanAsPlanned(b: SquareBoard, f: Figure, t: seq<MoveStep>, M: set<Point>, o: Outcome)
  {
    && o.figure == Figure(EndPoint(f.point, t), f.side, f.isKing)
    && Get(o.board, o.figure.point) == o.figure.(isKing := f.isKing || MoveStep.King() in t)
    && (forall m :: m in M + Middles(f.point, t) ==> IsEmpty(o.board, m))
    && (EndPoint(f.point, t) != f.point && !IsEmpty(b, f.point) ==> IsEmpty(o.board, f.point))
  }

  /**
   * Running a chain on a board c that agrees with the rules' board b where it
   * matters: the mover stands on its cell in c, and the cells in M are empty
   * in c but occupied in b (so no landing of the chain can refill them).
   */
  lemma {:induction false} ChainRuns(b: SquareBoard, c: SquareBoard, f: Figure, visited: set<Point>, t: seq<MoveStep>, M: set<Point>)
    requires IsPlayer(f.side) && Chain(b, f, visited, t) && c.size == b.size
    requires InBounds(b.size, f.point) && Get(c, f.point) == f
    requires forall m :: m in M ==> IsEmpty(c, m) && !IsEmpty(b, m)
    ensures Executable(c, f, t) && RanAsPlanned(b, f, t, M, Run(c, f, t))
    decreases |t|, 1
  {
    if ShouldPromoteKing(f, b.size) {
      assert t == [MoveStep.King()] && t[1..] == [];
      PromoteStepRuns(c, f, M);
    } else if t != [] {
      JumpChainRuns(b, c, f, visited, t, M);
    }
  }

  /** ChainRuns for a chain that starts with a jump. */
  lemma {:induction false} JumpChainRuns(b: SquareBoard, c: SquareBoard, f: Figure, visited: set<Point>, t: seq<MoveStep>, M: set<Point>)
    requires IsPlayer(f.side) && Chain(b, f, visited, t) && c.size == b.size
    requires !ShouldPromoteKing(f, b.size) && t != []
    requires InBounds(b.size, f.point) && Get(c, f.point) == f
    requires forall m :: m in M ==> IsEmpty(c, m) && !IsEmpty(b, m)
    ensures Executable(c, f, t) && RanAsPlanned(b, f, t, M, Run(c, f, t))
    decreases |t|, 0
  {
    var p := t[0].target;
    var i := LandsOnIndex(b, f, visited, p);
    var M2 := JumpStepRuns(b, c, f, DirectionsOf(f)[i], t[0], M);
    var o := Step(c, f, t[0]);
    ChainRuns(b, o.board, o.figure, visited + {p}, t[1..], M2);
    PlannedAfterJump(b, f, t, M, M2, Run(o.board, o.figure, t[1..]));
  }

  /** RanAsPlanned carries back over a first Jump step. */
  lemma PlannedAfterJump(b: SquareBoard, f: Figure, t: seq<MoveStep>, M: set<Point>, M2: set<Point>, o: Outcome)
    requires t != [] && t[0] == MoveStep.Jump(t[0].target)
    requires RanAsPlanned(b, Figure(t[0].target, f.side, f.isKing), t[1..], M2, o)
    requires M + {Middle(f.point, t[0].target)} <= M2 && (!IsEmpty(b, f.point) ==> f.point in M2)
    ensures RanAsPlanned(b, f, t, M, o)
  {
    var p := t[0].target;
    assert MoveStep.King() in t <==> MoveStep.King() in t[1..] by {
      assert t == [t[0]] + t[1..];
    }
    assert Middles(f.point, t) == {Middle(f.point, p)} + Middles(p, t[1..]);
    assert M + Middles(f.point, t) <= M2 + Middles(p, t[1..]);
  }

  /** A simple move sequence runs: the mover steps to the empty neighbour, crowned when the sequence says so. */
  lemma SimpleMoveRuns(b: SquareBoard, f: Figure, d: Direction, s: seq<MoveStep>)
    requires IsPlayer(f.side) && d != Directions.Nop
    requires InBounds(b.size, f.point) && Get(b, f.point) == f && IsStep(b, f, d, s)
    ensures Executable(b, f, s) && RanAsPlanned(b, f, s, {}, Run(b, f, s))
    ensures Middles(f.point, s) == {} && EndPoint(f.point, s) != f.point
  {
    var q := Apply(d, f.point, 1);
    assert q != f.point by {
      assert IsEmpty(b, q) && !IsEmpty(b, f.point);
    }
    WalkCells(b, f, q, q);
    WalkCells(b, f, q, f.point);
    var w := Walk(b, f, q);
    assert s[0] == MoveStep.Move(q) && Step(b, f, s[0]) == w;
    if |s| == 2 {
      CrownedWalkRuns(b, f, q, s);
    } else {
      assert s == [MoveStep.Move(q)] && s[1..] == [];
      assert Run(b, f, s) == w;
    }
  }

  /** The [Move(q), King] case of SimpleMoveRuns. */
  lemma CrownedWalkRuns(b: SquareBoard, f: Figure, q: Point, s: seq<MoveStep>)
    requires IsPlayer(f.side) && CanWalk(b, f, q) && q != f.point
    requires s == [MoveStep.Move(q), MoveStep.King()]
    ensures Executable(b, f, s) && RanAsPlanned(b, f, s, {}, Run(b, f, s))
    ensures Middles(f.point, s) == {} && EndPoint(f.point, s) != f.point
  {
    WalkCells(b, f, q, q);
    WalkCells(b, f, q, f.point);
    var w := Walk(b, f, q);
    PromoteCells(w.board, w.figure, f.point);
    PromoteCells(w.board, w.figure, q);
    var p := Promote(w.board, w.figure);
    assert s[1..] == [MoveStep.King()] && s[1..][1..] == [];
    assert Step(b, f, s[0]) == w;
    assert Step(w.board, w.figure, s[1..][0]) == p;
    assert Run(w.board, w.figure, s[1..]) == Run(p.board, p.figure, []) == p;
    assert EndPoint(f.point, s) == EndPoint(q, s[1..]) == EndPoint(q, []) == q;
    assert Middles(f.point, s) == Middles(q, s[1..]) == Middles(q, []) == {};
    assert Get(p.board, q) == w.figure.(isKing := true);
    assert IsEmpty(p.board, f.point);
  }

  /**
   * Every sequence GetMoves lists for a figure of the side can be executed by
   * MoveCommandChain, leaves the mover on its last target (crowned iff the
   * sequence has a King step or it was a king already), every jumped cell
   * empty, and the start cell empty once the figure has moved.
   */
  lemma ListedSequencesRun(b: SquareBoard, side: Side, e: Entry, s: seq<MoveStep>)
    requires Valid(b) && IsPlayer(side) && e in MovesOf(b, side) && s in e.sequences
    ensures var f := e.figure;
      && Executable(b, f, s)
      && var o := Run(b, f, s);
      && o.figure == Figure(EndPoint(f.point, s), f.side, f.isKing)
      && Get(o.board, o.figure.point) == o.figure.(isKing := f.isKing || MoveStep.King() in s)
      && (forall m :: m in Middles(f.point, s) ==> IsEmpty(o.board, m))
      && (EndPoint(f.point, s) != f.point ==> IsEmpty(o.board, f.point))
  {
    var f := e.figure;
    EntryOnBoard(b, side, e);
    ListedSequenceRuns(b, f, e.sequences, s);
    assert {} + Middles(f.point, s) == Middles(f.point, s);
  }

  /** An entry of GetMoves: its figure stands on the board and its list is the figure's jumps or simple moves. */
  lemma EntryOnBoard(b: SquareBoard, side: Side, e: Entry)
    requires Valid(b) && IsPlayer(side) && e in MovesOf(b, side)
    ensures IsPlayer(e.figure.side) && InBounds(b.size, e.figure.point) && Get(b, e.figure.point) == e.figure
    ensures e.sequences == JumpsOf(b, e.figure) || e.sequences == SimpleMoves(b, e.figure)
  {
    var figs := FiguresOf(b, side);
    JumpEntriesMembers(b, figs, e);
    SimpleEntriesMembers(b, figs, e);
    FiguresOfIsGet(b, side, e.figure);
  }

  /** ListedSequencesRun for one of the figure's own jump or simple-move sequences. */
  lemma ListedSequenceRuns(b: SquareBoard, f: Figure, ss: seq<seq<MoveStep>>, s: seq<MoveStep>)
    requires IsPlayer(f.side) && InBounds(b.size, f.point) && Get(b, f.point) == f
    requires (ss == JumpsOf(b, f) || ss == SimpleMoves(b, f)) && s in ss
    ensures Executable(b, f, s) && RanAsPlanned(b, f, s, {}, Run(b, f, s))
  {
    if ss == JumpsOf(b, f) {
      JumpsOfIsChains(b, f, s);
      ChainRuns(b, b, f, {}, s, {});
    } else {
      SimpleMovesAre(b, f, s);
      var i :| 0 <= i < |DirectionsOf(f)| && IsStep(b, f, DirectionsOf(f)[i], s);
      SimpleMoveRuns(b, f, DirectionsOf(f)[i], s);
    }
  }
}
