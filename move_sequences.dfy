/** Checkers.Core.Rules.MoveSequence: a linked list of steps plus the hash set of their targets. */
module MoveSequences {
  import opened Points
  import opened MoveSteps

  class MoveSequence {
    /** _sequence, in insertion order; enumerating the sequence yields exactly this list. */
    var steps: seq<MoveStep>
    /** _set. */
    var visited: set<Point>

    /** The set holds the targets of the listed steps. */
    ghost predicate Valid()
      reads this
    {
      visited == Targets(steps)
    }

    /** new MoveSequence(). */
    constructor ()
      ensures Valid() && steps == []
    {
      steps := [];
      visited := {};
    }

    /** new MoveSequence(step): a one-element sequence. */
    constructor Single(p: MoveStep)
      ensures Valid() && steps == [p]
    {
      steps := [];
      visited := {};
      new;
      Add(p);
    }

    /** The copy constructor clones both collections. */
    constructor Copy(other: MoveSequence)
      requires other.Valid()
      ensures Valid() && steps == other.steps
    {
      steps := other.steps;
      visited := other.visited;
    }

    /** Add: append the step and record its target. */
    method Add(p: MoveStep)
      requires Valid()
      modifies this
      ensures Valid() && steps == old(steps) + [p]
    {
      TargetsAppend(steps, p);
      steps := steps + [p];
      visited := visited + {p.target};
    }

    /** Contains(p): some added step had target p. */
    function Contains(p: Point): (r: bool)
      reads this
      ensures Valid() ==> (r <==> exists i :: 0 <= i < |steps| && steps[i].target == p)
    {
      p in visited
    }

    /** IsEmpty: nothing was added. */
    function IsEmpty(): (r: bool)
      reads this
      ensures r <==> |steps| == 0
    {
      |steps| == 0
    }
  }

  /** A copy is independent: adding to it leaves the original as it was. */
  method CopyIsIndependent(original: MoveSequence, step: MoveStep) returns (copy: MoveSequence)
    requires original.Valid()
    ensures fresh(copy) && copy.Valid()
    ensures copy.steps == original.steps + [step]
    ensures original.steps == old(original.steps) && original.visited == old(original.visited)
  {
    copy := new MoveSequence.Copy(original);
    copy.Add(step);
  }

  /** A promotion step makes the sentinel point "contained". */
  method ContainsNopAfterKing(s: MoveSequence) returns (r: bool)
    requires s.Valid()
    modifies s
    ensures r
  {
    s.Add(MoveStep.King());
    r := s.Contains(Points.Nop);
    assert s.steps[|s.steps| - 1].target == Points.Nop;
  }
}
