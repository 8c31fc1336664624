/** Checkers.Core.Rules.MoveStep: a tagged step with a target cell. */
module MoveSteps {
  import opened Points

  /** The three step kinds the steps are built with. */
  datatype MoveStepType = Move | Jump | PromoteKing

  /** Equality of this datatype is equality of type and target, as MoveStep.Equals is. */
  datatype MoveStep = MoveStep(stepType: MoveStepType, target: Point)
  {
    /** MoveStep.Jump(p). */
    static function Jump(p: Point): (s: MoveStep)
      ensures s.stepType == MoveStepType.Jump && s.target == p
    {
      MoveStep(MoveStepType.Jump, p)
    }

    /** MoveStep.Move(p). */
    static function Move(p: Point): (s: MoveStep)
      ensures s.stepType == MoveStepType.Move && s.target == p
    {
      MoveStep(MoveStepType.Move, p)
    }

    /** MoveStep.King(): a promotion, whose target is the sentinel point. */
    static function King(): (s: MoveStep)
      ensures s.stepType == PromoteKing && s.target == Points.Nop
    {
      MoveStep(PromoteKing, Points.Nop)
    }
  }

  /** Steps are equal iff type and target are: a jump and a move never coincide, all promotions do. */
  lemma StepEquality(p: Point, q: Point)
    ensures MoveStep.Jump(p) != MoveStep.Move(q)
    ensures MoveStep.Jump(p) == MoveStep.Jump(q) <==> p == q
    ensures MoveStep.Move(p) == MoveStep.Move(q) <==> p == q
    ensures MoveStep.King() == MoveStep.King() && MoveStep.King() != MoveStep.Jump(p)
  {
  }

  /** The targets of a step list: the contents of MoveSequence's hash set. */
  function Targets(steps: seq<MoveStep>): (t: set<Point>)
    ensures forall i :: 0 <= i < |steps| ==> steps[i].target in t
    ensures forall p :: p in t ==> exists i :: 0 <= i < |steps| && steps[i].target == p
  {
    set i | 0 <= i < |steps| :: steps[i].target
  }

  /** Appending a step adds exactly its target. */
  lemma TargetsAppend(steps: seq<MoveStep>, s: MoveStep)
    ensures Targets(steps + [s]) == Targets(steps) + {s.target}
  {
    var l := steps + [s];
    assert forall i :: 0 <= i < |steps| ==> l[i] == steps[i];
    assert l[|steps|] == s;
  }
}
