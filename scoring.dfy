/** Checkers.Core.Bot.TrivialBoardScoring: material count, simple = 1, king = 3. */
module Scoring {
  import opened Results
  import opened Sides
  import opened Figures
  import opened Boards
  import opened BoardLemmas

  /** The weight SideScore adds for one figure. */
  function Weight(f: Figure): (w: int)
    ensures w == 1 || w == 3
    ensures w == 3 <==> f.isKing
  {
    if f.isKing then 3 else 1
  }

  /** SideScore's total after the given figures. */
  function Score(figs: seq<Figure>): int
  {
    if figs == [] then 0 else Score(figs[..|figs| - 1]) + Weight(figs[|figs| - 1])
  }

  /** Every figure counts between 1 and 3; only kings count more than 1. */
  lemma {:induction false} ScoreBounds(figs: seq<Figure>)
    ensures |figs| <= Score(figs) <= 3 * |figs|
    ensures Score(figs) == |figs| <==> forall i :: 0 <= i < |figs| ==> !figs[i].isKing
  {
    if figs != [] {
      var init := figs[..|figs| - 1];
      ScoreBounds(init);
      assert forall i :: 0 <= i < |init| ==> init[i] == figs[i];
    }
  }

  /** The score of two lists of figures together is the sum of their scores. */
  lemma {:induction false} ScoreAppend(a: seq<Figure>, b: seq<Figure>)
    ensures Score(a + b) == Score(a) + Score(b)
    decreases |b|
  {
    if b == [] {
      assert a + b == a;
    } else {
      var init := b[..|b| - 1];
      ScoreAppend(a, init);
      assert (a + b)[..|a + b| - 1] == a + init;
    }
  }

  /** TrivialBoardScoring.SideScore. */
  method SideScore(figures: seq<Figure>) returns (score: int)
    ensures score == Score(figures)
  {
    score := 0;
    for i := 0 to |figures|
      invariant score == Score(figures[..i])
    {
      var figure := figures[i];
      assert figures[..i + 1][..i] == figures[..i];
      score := score + if figure.isKing then 3 else 1;
    }
    assert figures[..|figures|] == figures;
  }

  /** Evaluate's value: own material minus the opponent's; GetAll throws for a side that is not a player. */
  function Evaluation(b: SquareBoard, side: Side): (r: Result<int, BoardError>)
    ensures r.Err? <==> !IsPlayer(side)
  {
    if !IsPlayer(side) then Err(InvalidSide(side))
    else Ok(Score(FiguresOf(b, side)) - Score(FiguresOf(b, Opposite(side))))
  }

  /** TrivialBoardScoring.Evaluate. */
  method Evaluate(board: SquareBoard, side: Side) returns (r: Result<int, BoardError>)
    ensures r == Evaluation(board, side)
  {
    var enemySide := Opposite(side);
    var own := AllOf(board, side);
    if own.Err? {
      return Err(own.error);
    }
    var enemy := AllOf(board, enemySide);
    assert enemy.Ok?;
    var ownScore := SideScore(own.value);
    var enemyScore := SideScore(enemy.value);
    return Ok(ownScore - enemyScore);
  }

  /** The two players' evaluations of a board are opposite numbers. */
  lemma EvaluationAntisymmetric(b: SquareBoard)
    ensures Evaluation(b, Red).Ok? && Evaluation(b, Black).Ok?
    ensures Evaluation(b, Red).value == -Evaluation(b, Black).value
  {
  }

  /** A board without figures scores 0 for both players. */
  lemma EmptyBoardScoresZero(size: BoardSize)
    ensures Evaluation(New(size), Black) == Ok(0) && Evaluation(New(size), Red) == Ok(0)
  {
    NewBoardIsEmpty(size, Points.Nop);
    NoFiguresIffNoneListed(New(size), Black);
    NoFiguresIffNoneListed(New(size), Red);
  }

  /** The evaluation is bounded by the material on the board. */
  lemma EvaluationBounds(b: SquareBoard, side: Side)
    requires IsPlayer(side)
    ensures var own := FiguresOf(b, side);
      var enemy := FiguresOf(b, Opposite(side));
      |own| - 3 * |enemy| <= Evaluation(b, side).value <= 3 * |own| - |enemy|
  {
    ScoreBounds(FiguresOf(b, side));
    ScoreBounds(FiguresOf(b, Opposite(side)));
  }
}
