/** What the move generator promises: capture priority, legal and maximal jump chains, simple-move shape. */
module RulesLemmas {
  import opened Results
  import opened Points
  import opened Sides
  import opened Directions
  import opened Figures
  import opened Boards
  import opened BoardLemmas
  import opened MoveSteps
  import opened Rules

  /** Entries of the jump dictionary: exactly the listed figures that have jump sequences. */
  lemma {:induction false} JumpEntriesMembers(b: SquareBoard, figs: seq<Figure>, e: Entry)
    requires AllPlayers(figs)
    ensures e in JumpEntries(b, figs) <==> e.figure in figs && JumpsOf(b, e.figure) != [] && e.sequences == JumpsOf(b, e.figure)
  {
    if figs != [] {
      var init := figs[..|figs| - 1];
      JumpEntriesMembers(b, init, e);
      assert figs == init + [figs[|figs| - 1]];
    }
  }

  /** Entries of the simple dictionary: exactly the listed figures with simple moves and no jumps. */
  lemma {:induction false} SimpleEntriesMembers(b: SquareBoard, figs: seq<Figure>, e: Entry)
    requires AllPlayers(figs)
    ensures e in SimpleEntries(b, figs) <==>
      e.figure in figs && JumpsOf(b, e.figure) == [] && SimpleMoves(b, e.figure) != [] && e.sequences == SimpleMoves(b, e.figure)
  {
    if figs != [] {
      var init := figs[..|figs| - 1];
      SimpleEntriesMembers(b, init, e);
      assert figs == init + [figs[|figs| - 1]];
    }
  }

  /** The keys of a dictionary are in strict row-major order of their cells (hence distinct). */
  predicate KeysOrdered(es: seq<Entry>)
  {
    forall i, j :: 0 <= i < j < |es| ==> RowMajorBefore(es[i].figure.point, es[j].figure.point)
  }

  /** Appending at most one entry for a figure after all keys so far keeps the keys ordered. */
  lemma AppendKeepsOrder(es: seq<Entry>, tail: seq<Entry>, last: Figure)
    requires KeysOrdered(es)
    requires forall e :: e in es ==> RowMajorBefore(e.figure.point, last.point)
    requires |tail| <= 1 && forall e :: e in tail ==> e.figure == last
    ensures KeysOrdered(es + tail)
  {
    var all := es + tail;
    forall i, j | 0 <= i < j < |all|
      ensures RowMajorBefore(all[i].figure.point, all[j].figure.point)
    {
      assert all[i] == es[i] && es[i] in es;
      if j == |es| {
        assert all[j] in tail;
      } else {
        assert all[j] == es[j];
      }
    }
  }

  /** If the listed figures are in strict row-major order, so are the keys of the jump dictionary. */
  lemma {:induction false} JumpEntriesKeepOrder(b: SquareBoard, figs: seq<Figure>)
    requires AllPlayers(figs)
    requires forall i, j :: 0 <= i < j < |figs| ==> RowMajorBefore(figs[i].point, figs[j].point)
    ensures KeysOrdered(JumpEntries(b, figs))
  {
    if figs != [] {
      var init := figs[..|figs| - 1];
      var last := figs[|figs| - 1];
      JumpEntriesKeepOrder(b, init);
      var es := JumpEntries(b, init);
      forall e | e in es
        ensures RowMajorBefore(e.figure.point, last.point)
      {
        JumpEntriesMembers(b, init, e);
        var k :| 0 <= k < |init| && init[k] == e.figure;
        assert figs[k] == init[k];
      }
      var all := JumpEntries(b, figs);
      assert all == es + if JumpsOf(b, last) != [] then [Entry(last, JumpsOf(b, last))] else [];
      AppendKeepsOrder(es, all[|es|..], last);
      assert all == es + all[|es|..];
    }
  }

  /** If the listed figures are in strict row-major order, so are the keys of the simple dictionary. */
  lemma {:induction false} SimpleEntriesKeepOrder(b: SquareBoard, figs: seq<Figure>)
    requires AllPlayers(figs)
    requires forall i, j :: 0 <= i < j < |figs| ==> RowMajorBefore(figs[i].point, figs[j].point)
    ensures KeysOrdered(SimpleEntries(b, figs))
  {
    if figs != [] {
      var init := figs[..|figs| - 1];
      var last := figs[|figs| - 1];
      SimpleEntriesKeepOrder(b, init);
      var es := SimpleEntries(b, init);
      forall e | e in es
        ensures RowMajorBefore(e.figure.point, last.point)
      {
        SimpleEntriesMembers(b, init, e);
        var k :| 0 <= k < |init| && init[k] == e.figure;
        assert figs[k] == init[k];
      }
      var all := SimpleEntries(b, figs);
      assert all == es + if JumpsOf(b, last) == [] && SimpleMoves(b, last) != [] then [Entry(last, SimpleMoves(b, last))] else [];
      AppendKeepsOrder(es, all[|es|..], last);
      assert all == es + all[|es|..];
    }
  }

  /** The jump dictionary is empty iff no listed figure has a jump sequence. */
  lemma {:induction false} JumpEntriesEmpty(b: SquareBoard, figs: seq<Figure>)
    requires AllPlayers(figs)
    ensures JumpEntries(b, figs) == [] <==> forall i :: 0 <= i < |figs| ==> JumpsOf(b, figs[i]) == []
  {
    if figs != [] {
      var init, f := figs[..|figs| - 1], figs[|figs| - 1];
      var last := if JumpsOf(b, f) != [] then [Entry(f, JumpsOf(b, f))] else [];
      assert JumpEntries(b, figs) == JumpEntries(b, init) + last;
      JumpEntriesEmpty(b, init);
      assert forall i :: 0 <= i < |init| ==> init[i] == figs[i];
      assert last == [] <==> JumpsOf(b, f) == [];
    }
  }

  /**
   * Captures are compulsory board-wide: if some figure of the side can jump,
   * every entry is that figure's jump list; otherwise every entry is a
   * figure's simple-move list and no figure can jump.
   */
  lemma CaptureSuppressesSimpleMoves(b: SquareBoard, side: Side)
    requires IsPlayer(side)
    ensures var figs := FiguresOf(b, side);
      (exists i :: 0 <= i < |figs| && JumpsOf(b, figs[i]) != []) ==>
        forall e :: e in MovesOf(b, side) ==>
          IsPlayer(e.figure.side) && e.sequences == JumpsOf(b, e.figure) && e.sequences != []
    ensures var figs := FiguresOf(b, side);
      (forall i :: 0 <= i < |figs| ==> JumpsOf(b, figs[i]) == []) ==>
        forall e :: e in MovesOf(b, side) ==>
          IsPlayer(e.figure.side) && e.sequences == SimpleMoves(b, e.figure) && JumpsOf(b, e.figure) == []
  {
    var figs := FiguresOf(b, side);
    JumpEntriesEmpty(b, figs);
    forall e | e in JumpEntries(b, figs)
      ensures IsPlayer(e.figure.side) && e.sequences == JumpsOf(b, e.figure) && e.sequences != []
    {
      JumpEntriesMembers(b, figs, e);
    }
    forall e | e in SimpleEntries(b, figs)
      ensures IsPlayer(e.figure.side) && e.sequences == SimpleMoves(b, e.figure) && JumpsOf(b, e.figure) == []
    {
      SimpleEntriesMembers(b, figs, e);
    }
  }

  /**
   * Every key of GetMoves is a figure of the side standing on the board, its
   * sequence list is non-empty, and keys are distinct and in GetAll's
   * row-major order.
   */
  lemma MovesKeys(b: SquareBoard, side: Side)
    requires Valid(b) && IsPlayer(side)
    ensures var es := MovesOf(b, side);
      forall i :: 0 <= i < |es| ==>
        && es[i].figure in FiguresOf(b, side)
        && es[i].figure.side == side
        && Get(b, es[i].figure.point) == es[i].figure
        && es[i].sequences != []
    ensures KeysOrdered(MovesOf(b, side))
  {
    var figs := FiguresOf(b, side);
    FiguresOfRowMajor(b, side);
    var es := MovesOf(b, side);
    if |JumpEntries(b, figs)| > 0 {
      JumpEntriesKeepOrder(b, figs);
      assert es == JumpEntries(b, figs);
    } else {
      SimpleEntriesKeepOrder(b, figs);
      assert es == SimpleEntries(b, figs);
    }
    forall i | 0 <= i < |es|
      ensures es[i].figure in figs && es[i].figure.side == side && Get(b, es[i].figure.point) == es[i].figure
      ensures es[i].sequences != []
    {
      JumpEntriesMembers(b, figs, es[i]);
      SimpleEntriesMembers(b, figs, es[i]);
      FiguresOfIsGet(b, side, es[i].figure);
    }
  }

  /** Some direction of f gives a fresh jump landing on p. */
  predicate LandsOn(b: SquareBoard, f: Figure, visited: set<Point>, p: Point)
    requires IsPlayer(f.side)
  {
    exists i :: 0 <= i < |DirectionsOf(f)| && FreshJump(b, f, visited, DirectionsOf(f)[i]) && JumpPoint(b, f, DirectionsOf(f)[i]) == p
  }

  /**
   * A jump chain from f, given the cells already landed on: a figure on its
   * crowning row stops with King; otherwise the chain either ends where no
   * fresh jump remains, or jumps to a fresh landing cell and goes on from it.
   */
  predicate Chain(b: SquareBoard, f: Figure, visited: set<Point>, t: seq<MoveStep>)
    requires IsPlayer(f.side)
    decreases |t|
  {
    if ShouldPromoteKing(f, b.size) then t == [MoveStep.King()]
    else if t == [] then !AnyFreshJump(b, f, visited, |DirectionsOf(f)|)
    else
      && t[0] == MoveStep.Jump(t[0].target)
      && LandsOn(b, f, visited, t[0].target)
      && Chain(b, Figure(t[0].target, f.side, f.isKing), visited + {t[0].target}, t[1..])
  }

  /** AnyFreshJump is the existence of a fresh jump among the first n directions. */
  lemma {:induction false} AnyFreshJumpExists(b: SquareBoard, f: Figure, visited: set<Point>, n: nat)
    requires IsPlayer(f.side) && n <= |DirectionsOf(f)|
    ensures AnyFreshJump(b, f, visited, n) <==> exists i :: 0 <= i < n && FreshJump(b, f, visited, DirectionsOf(f)[i])
  {
    if n > 0 {
      AnyFreshJumpExists(b, f, visited, n - 1);
    }
  }

  /** Every sequence found by the first n directions comes from one fresh jump among them. */
  lemma {:induction false} BranchesFrom(b: SquareBoard, f: Figure, steps: seq<MoveStep>, n: nat, s: seq<MoveStep>)
    requires IsPlayer(f.side) && n <= |DirectionsOf(f)| && s in Branches(b, f, steps, n)
    ensures exists i :: 0 <= i < n && s in Follow(b, f, steps, DirectionsOf(f)[i])
  {
    if s !in Follow(b, f, steps, DirectionsOf(f)[n - 1]) {
      BranchesFrom(b, f, steps, n - 1, s);
    }
  }

  /** The search past each of the first n directions is part of what they find. */
  lemma {:induction false} BranchesContain(b: SquareBoard, f: Figure, steps: seq<MoveStep>, n: nat, i: nat, s: seq<MoveStep>)
    requires IsPlayer(f.side) && i < n <= |DirectionsOf(f)|
    requires s in Follow(b, f, steps, DirectionsOf(f)[i])
    ensures s in Branches(b, f, steps, n)
  {
    if i < n - 1 {
      BranchesContain(b, f, steps, n - 1, i, s);
    }
  }

  /** Soundness: every sequence found from `steps` extends it by a chain. */
  lemma {:induction false} JumpSequencesSound(b: SquareBoard, f: Figure, steps: seq<MoveStep>, s: seq<MoveStep>)
    requires IsPlayer(f.side) && s in JumpSequences(b, f, steps)
    ensures |steps| <= |s| && s[..|steps|] == steps && Chain(b, f, Targets(steps), s[|steps|..])
    decreases Unvisited(b.size, Targets(steps)), 1
  {
    if ShouldPromoteKing(f, b.size) {
      assert s == steps + [MoveStep.King()];
      assert s[|steps|..] == [MoveStep.King()];
    } else if s in Branches(b, f, steps, |DirectionsOf(f)|) {
      BranchesFrom(b, f, steps, |DirectionsOf(f)|, s);
      var i :| 0 <= i < |DirectionsOf(f)| && s in Follow(b, f, steps, DirectionsOf(f)[i]);
      FollowSound(b, f, steps, i, s);
      var t := s[|steps|..];
      assert t[0] == s[|steps|] && t[1..] == s[|steps| + 1..];
    } else {
      assert s == steps;
      assert s[|steps|..] == [];
    }
  }

  /** Soundness past one jump: the sequence starts with a fresh jump and goes on by a chain. */
  lemma {:induction false} FollowSound(b: SquareBoard, f: Figure, steps: seq<MoveStep>, i: nat, s: seq<MoveStep>)
    requires IsPlayer(f.side) && i < |DirectionsOf(f)| && s in Follow(b, f, steps, DirectionsOf(f)[i])
    ensures |steps| < |s| && s[..|steps|] == steps
    ensures var p := s[|steps|].target;
      && s[|steps|] == MoveStep.Jump(p)
      && LandsOn(b, f, Targets(steps), p)
      && Chain(b, Figure(p, f.side, f.isKing), Targets(steps) + {p}, s[|steps| + 1..])
    decreases Unvisited(b.size, Targets(steps)), 0
  {
    var p := FollowEnters(b, f, steps, i, s);
    var next := steps + [MoveStep.Jump(p)];
    JumpSequencesSound(b, Figure(p, f.side, f.isKing), next, s);
    assert s[..|steps|] == next[..|steps|];
    assert s[|steps|] == next[|steps|];
  }

  /** A sequence found past direction i lies past that direction's fresh jump, which lands on p. */
  lemma FollowEnters(b: SquareBoard, f: Figure, steps: seq<MoveStep>, i: nat, s: seq<MoveStep>) returns (p: Point)
    requires IsPlayer(f.side) && i < |DirectionsOf(f)| && s in Follow(b, f, steps, DirectionsOf(f)[i])
    ensures p == JumpPoint(b, f, DirectionsOf(f)[i]) && FreshJump(b, f, Targets(steps), DirectionsOf(f)[i])
    ensures LandsOn(b, f, Targets(steps), p)
    ensures Targets(steps + [MoveStep.Jump(p)]) == Targets(steps) + {p}
    ensures Unvisited(b.size, Targets(steps + [MoveStep.Jump(p)])) < Unvisited(b.size, Targets(steps))
    ensures s in JumpSequences(b, Figure(p, f.side, f.isKing), steps + [MoveStep.Jump(p)])
  {
    p := JumpPoint(b, f, DirectionsOf(f)[i]);
    TargetsAppend(steps, MoveStep.Jump(p));
    UnvisitedShrinks(b.size, Targets(steps), p);
  }

  /** The direction a LandsOn jump is taken in. */
  lemma LandsOnIndex(b: SquareBoard, f: Figure, visited: set<Point>, p: Point) returns (i: nat)
    requires IsPlayer(f.side) && LandsOn(b, f, visited, p)
    ensures i < |DirectionsOf(f)| && FreshJump(b, f, visited, DirectionsOf(f)[i]) && JumpPoint(b, f, DirectionsOf(f)[i]) == p
  {
    i :| 0 <= i < |DirectionsOf(f)| && FreshJump(b, f, visited, DirectionsOf(f)[i]) && JumpPoint(b, f, DirectionsOf(f)[i]) == p;
  }

  /** Completeness: every chain extending a non-empty result is found. */
  lemma {:induction false} JumpSequencesComplete(b: SquareBoard, f: Figure, steps: seq<MoveStep>, t: seq<MoveStep>)
    requires IsPlayer(f.side) && Chain(b, f, Targets(steps), t) && steps + t != []
    ensures steps + t in JumpSequences(b, f, steps)
    decreases |t|, 0
  {
    if ShouldPromoteKing(f, b.size) {
    } else if t == [] {
      assert steps + t == steps;
    } else {
      var p := t[0].target;
      var i := LandsOnIndex(b, f, Targets(steps), p);
      FollowComplete(b, f, steps, i, t[1..]);
      assert steps + t == steps + [MoveStep.Jump(p)] + t[1..] by {
        assert t == [MoveStep.Jump(p)] + t[1..];
      }
      BranchesContain(b, f, steps, |DirectionsOf(f)|, i, steps + t);
    }
  }

  /** Completeness past one fresh jump in the i-th direction. */
  lemma {:induction false} FollowComplete(b: SquareBoard, f: Figure, steps: seq<MoveStep>, i: nat, t: seq<MoveStep>)
    requires IsPlayer(f.side) && i < |DirectionsOf(f)| && FreshJump(b, f, Targets(steps), DirectionsOf(f)[i])
    requires var p := JumpPoint(b, f, DirectionsOf(f)[i]);
      Chain(b, Figure(p, f.side, f.isKing), Targets(steps) + {p}, t)
    ensures var p := JumpPoint(b, f, DirectionsOf(f)[i]);
      steps + [MoveStep.Jump(p)] + t in Follow(b, f, steps, DirectionsOf(f)[i])
    decreases |t|, 1
  {
    var p := JumpPoint(b, f, DirectionsOf(f)[i]);
    TargetsAppend(steps, MoveStep.Jump(p));
    JumpSequencesComplete(b, Figure(p, f.side, f.isKing), steps + [MoveStep.Jump(p)], t);
  }

  /**
   * The jump sequences of a figure are exactly the non-empty chains from it
   * with nothing landed on yet (the start cell itself is not recorded).
   */
  lemma JumpsOfIsChains(b: SquareBoard, f: Figure, s: seq<MoveStep>)
    requires IsPlayer(f.side)
    ensures s in JumpsOf(b, f) <==> s != [] && Chain(b, f, {}, s)
  {
    assert Targets([]) == {};
    if s in JumpsOf(b, f) {
      JumpSequencesSound(b, f, [], s);
      assert s[0..] == s;
      if s == [] {
        assert !ShouldPromoteKing(f, b.size);
        assert !AnyFreshJump(b, f, {}, |DirectionsOf(f)|);
        assert [] !in Branches(b, f, [], |DirectionsOf(f)|) by {
          if [] in Branches(b, f, [], |DirectionsOf(f)|) {
            NoEmptyBranch(b, f, [], |DirectionsOf(f)|);
          }
        }
      }
    }
    if s != [] && Chain(b, f, {}, s) {
      JumpSequencesComplete(b, f, [], s);
      assert [] + s == s;
    }
  }

  /** No search returns an empty sequence. */
  lemma {:induction false} NoEmptyBranch(b: SquareBoard, f: Figure, steps: seq<MoveStep>, n: nat)
    requires IsPlayer(f.side) && n <= |DirectionsOf(f)|
    ensures [] !in Branches(b, f, steps, n)
  {
    if [] in Branches(b, f, steps, n) {
      BranchesFrom(b, f, steps, n, []);
      var i :| 0 <= i < n && [] in Follow(b, f, steps, DirectionsOf(f)[i]);
      var d := DirectionsOf(f)[i];
      var p := JumpPoint(b, f, d);
      JumpSequencesSound(b, Figure(p, f.side, f.isKing), steps + [MoveStep.Jump(p)], []);
    }
  }

  /** The cell the k-th step of a sequence is taken from: the start, or the previous landing. */
  function StepFrom(start: Point, s: seq<MoveStep>, k: nat): Point
    requires k <= |s|
  {
    if k == 0 then start else s[k - 1].target
  }

  /** The index of the first direction in dirs whose two-step jump from `from` lands on p, or |dirs| if none does. */
  function DirectionRank(dirs: seq<Direction>, from: Point, p: Point): (r: nat)
    ensures r <= |dirs|
    ensures r < |dirs| ==> dirs[r] != Directions.Nop && Apply(dirs[r], from, 2) == p
    ensures forall x :: 0 <= x < r ==> dirs[x] == Directions.Nop || Apply(dirs[x], from, 2) != p
  {
    if dirs == [] then 0
    else if dirs[0] != Directions.Nop && Apply(dirs[0], from, 2) == p then 0
    else 1 + DirectionRank(dirs[1..], from, p)
  }

  /** The jump in the x-th direction of a figure has rank x among its directions. */
  lemma RankOfJump(b: SquareBoard, f: Figure, x: nat)
    requires IsPlayer(f.side) && x < |DirectionsOf(f)| && JumpPoint(b, f, DirectionsOf(f)[x]) != Points.Nop
    ensures DirectionRank(DirectionsOf(f), f.point, JumpPoint(b, f, DirectionsOf(f)[x])) == x
  {
    var dirs := DirectionsOf(f);
    var p := JumpPoint(b, f, dirs[x]);
    var r := DirectionRank(dirs, f.point, p);
    if r < x {
      ApplyInjective(dirs[r], dirs[x], f.point, 2);
    }
  }

  /**
   * s comes before t in direction order: they agree on every step before some
   * step k at or after lo, and there s jumps along an earlier direction than t.
   */
  ghost predicate DirectionOrdered(dirs: seq<Direction>, start: Point, lo: nat, s: seq<MoveStep>, t: seq<MoveStep>)
  {
    exists k :: lo <= k < |s| && k < |t| && s[..k] == t[..k] && s[k].stepType == Jump && t[k].stepType == Jump &&
      DirectionRank(dirs, StepFrom(start, s, k), s[k].target) < DirectionRank(dirs, StepFrom(start, s, k), t[k].target)
  }

  /** The search past direction i starts with that direction's jump. */
  lemma FollowFirstStep(b: SquareBoard, f: Figure, steps: seq<MoveStep>, i: nat, s: seq<MoveStep>)
    requires IsPlayer(f.side) && i < |DirectionsOf(f)| && s in Follow(b, f, steps, DirectionsOf(f)[i])
    ensures JumpPoint(b, f, DirectionsOf(f)[i]) != Points.Nop
    ensures |steps| < |s| && s[..|steps|] == steps && s[|steps|] == MoveStep.Jump(JumpPoint(b, f, DirectionsOf(f)[i]))
  {
    var p := FollowEnters(b, f, steps, i, s);
    var next := steps + [MoveStep.Jump(p)];
    JumpSequencesSound(b, Figure(p, f.side, f.isKing), next, s);
    assert s[..|steps|] == next[..|steps|];
    assert s[|steps|] == next[|steps|];
  }

  /** A node that records its own sequence (endOfSequence) has found no branch. */
  lemma NoFreshJumpNoBranches(b: SquareBoard, f: Figure, steps: seq<MoveStep>, n: nat)
    requires IsPlayer(f.side) && n <= |DirectionsOf(f)|
    ensures !AnyFreshJump(b, f, Targets(steps), n) ==> Branches(b, f, steps, n) == []
  {
    if Branches(b, f, steps, n) != [] {
      var s := Branches(b, f, steps, n)[0];
      BranchesFrom(b, f, steps, n, s);
      var i :| 0 <= i < n && s in Follow(b, f, steps, DirectionsOf(f)[i]);
      FollowFirstStep(b, f, steps, i, s);
      AnyFreshJumpExists(b, f, Targets(steps), n);
    }
  }

  /** What lies past one direction and what lies past an earlier one compare in direction order. */
  lemma OrderedAcross(b: SquareBoard, f: Figure, steps: seq<MoveStep>, start: Point, a: nat, c: nat,
                      s: seq<MoveStep>, t: seq<MoveStep>)
    requires IsPlayer(f.side) && f.point == StepFrom(start, steps, |steps|)
    requires a < c < |DirectionsOf(f)|
    requires s in Follow(b, f, steps, DirectionsOf(f)[a]) && t in Follow(b, f, steps, DirectionsOf(f)[c])
    ensures DirectionOrdered(DirectionsOf(f), start, |steps|, s, t)
  {
    var dirs := DirectionsOf(f);
    var k := |steps|;
    FollowFirstStep(b, f, steps, a, s);
    FollowFirstStep(b, f, steps, c, t);
    RankOfJump(b, f, a);
    RankOfJump(b, f, c);
    assert StepFrom(start, s, k) == f.point by {
      if k > 0 {
        assert s[k - 1] == s[..k][k - 1] == steps[k - 1];
      }
    }
    assert s[..k] == t[..k];
    assert DirectionRank(dirs, StepFrom(start, s, k), s[k].target) < DirectionRank(dirs, StepFrom(start, s, k), t[k].target);
  }

  /** Every sequence of L comes before every later one in direction order. */
  ghost predicate InDirectionOrder(dirs: seq<Direction>, start: Point, lo: nat, L: seq<seq<MoveStep>>)
  {
    forall i, j :: 0 <= i < j < |L| ==> DirectionOrdered(dirs, start, lo, L[i], L[j])
  }

  /** Two lists in direction order, all of the first before all of the second, concatenate in order. */
  lemma ConcatInDirectionOrder(dirs: seq<Direction>, start: Point, lo: nat, P: seq<seq<MoveStep>>, F: seq<seq<MoveStep>>)
    requires InDirectionOrder(dirs, start, lo, P) && InDirectionOrder(dirs, start, lo, F)
    requires forall s, t :: s in P && t in F ==> DirectionOrdered(dirs, start, lo, s, t)
    ensures InDirectionOrder(dirs, start, lo, P + F)
  {
    var L := P + F;
    forall i, j | 0 <= i < j < |L|
      ensures DirectionOrdered(dirs, start, lo, L[i], L[j])
    {
      if j < |P| {
        assert L[i] == P[i] && L[j] == P[j];
      } else if i < |P| {
        assert L[i] == P[i] && L[j] == F[j - |P|];
      } else {
        assert L[i] == F[i - |P|] && L[j] == F[j - |P|];
      }
    }
  }

  /** The sequences found past the first m directions come out in direction order. */
  lemma {:induction false} BranchesInOrder(b: SquareBoard, f: Figure, steps: seq<MoveStep>, start: Point, m: nat)
    requires IsPlayer(f.side) && f.point == StepFrom(start, steps, |steps|) && m <= |DirectionsOf(f)|
    ensures InDirectionOrder(DirectionsOf(f), start, |steps|, Branches(b, f, steps, m))
    decreases Unvisited(b.size, Targets(steps)), 0, m
  {
    if m > 0 {
      var prev := Branches(b, f, steps, m - 1);
      var follow := Follow(b, f, steps, DirectionsOf(f)[m - 1]);
      BranchesStep(b, f, steps, m - 1);
      BranchesInOrder(b, f, steps, start, m - 1);
      FollowInOrder(b, f, steps, start, m - 1);
      forall s, t | s in prev && t in follow
        ensures DirectionOrdered(DirectionsOf(f), start, |steps|, s, t)
      {
        OrderedBeforeNext(b, f, steps, start, m - 1, s, t);
      }
      ConcatInDirectionOrder(DirectionsOf(f), start, |steps|, prev, follow);
    }
  }

  /** What the first m directions find comes before what the next direction finds. */
  lemma OrderedBeforeNext(b: SquareBoard, f: Figure, steps: seq<MoveStep>, start: Point, m: nat,
                          s: seq<MoveStep>, t: seq<MoveStep>)
    requires IsPlayer(f.side) && f.point == StepFrom(start, steps, |steps|) && m < |DirectionsOf(f)|
    requires s in Branches(b, f, steps, m) && t in Follow(b, f, steps, DirectionsOf(f)[m])
    ensures DirectionOrdered(DirectionsOf(f), start, |steps|, s, t)
  {
    BranchesFrom(b, f, steps, m, s);
    var a :| 0 <= a < m && s in Follow(b, f, steps, DirectionsOf(f)[a]);
    OrderedAcross(b, f, steps, start, a, m, s, t);
  }

  /** What lies past one direction comes out in direction order, by the search from its landing cell. */
  lemma {:induction false} FollowInOrder(b: SquareBoard, f: Figure, steps: seq<MoveStep>, start: Point, x: nat)
    requires IsPlayer(f.side) && f.point == StepFrom(start, steps, |steps|) && x < |DirectionsOf(f)|
    ensures InDirectionOrder(DirectionsOf(f), start, |steps|, Follow(b, f, steps, DirectionsOf(f)[x]))
    decreases Unvisited(b.size, Targets(steps)), 0, 0
  {
    var follow := Follow(b, f, steps, DirectionsOf(f)[x]);
    if follow != [] {
      var p := FollowEnters(b, f, steps, x, follow[0]);
      var g := Figure(p, f.side, f.isKing);
      var next := steps + [MoveStep.Jump(p)];
      DirectionsIgnorePoint(f, p);
      assert follow == JumpSequences(b, g, next);
      JumpSequencesInOrder(b, g, next, start);
      forall i, j | 0 <= i < j < |follow|
        ensures DirectionOrdered(DirectionsOf(f), start, |steps|, follow[i], follow[j])
      {
        OrderedWeaken(DirectionsOf(f), start, |steps|, |next|, follow[i], follow[j]);
      }
    }
  }

  lemma OrderedWeaken(dirs: seq<Direction>, start: Point, lo: nat, hi: nat, s: seq<MoveStep>, t: seq<MoveStep>)
    requires lo <= hi && DirectionOrdered(dirs, start, hi, s, t)
    ensures DirectionOrdered(dirs, start, lo, s, t)
  {
  }

  /** The sequences found from `steps` come out in direction order. */
  lemma {:induction false} JumpSequencesInOrder(b: SquareBoard, f: Figure, steps: seq<MoveStep>, start: Point)
    requires IsPlayer(f.side) && f.point == StepFrom(start, steps, |steps|)
    ensures InDirectionOrder(DirectionsOf(f), start, |steps|, JumpSequences(b, f, steps))
    decreases Unvisited(b.size, Targets(steps)), 1, 0
  {
    var n := |DirectionsOf(f)|;
    if !ShouldPromoteKing(f, b.size) {
      NoFreshJumpNoBranches(b, f, steps, n);
      if AnyFreshJump(b, f, Targets(steps), n) || steps == [] {
        assert JumpSequences(b, f, steps) == Branches(b, f, steps, n);
        BranchesInOrder(b, f, steps, start, n);
      }
    }
  }

  /**
   * A figure's jump list is in direction order: where two listed sequences
   * first differ, the earlier one jumps along a direction that comes earlier
   * in the figure's direction array. Hence no sequence is listed twice.
   */
  lemma JumpsOfInDirectionOrder(b: SquareBoard, f: Figure, i: nat, j: nat)
    requires IsPlayer(f.side) && i < j < |JumpsOf(b, f)|
    ensures DirectionOrdered(DirectionsOf(f), f.point, 0, JumpsOf(b, f)[i], JumpsOf(b, f)[j])
    ensures JumpsOf(b, f)[i] != JumpsOf(b, f)[j]
  {
    var s, t := JumpsOf(b, f)[i], JumpsOf(b, f)[j];
    JumpSequencesInOrder(b, f, [], f.point);
    var k :| 0 <= k < |s| && k < |t| && s[..k] == t[..k] && s[k].stepType == Jump && t[k].stepType == Jump &&
      DirectionRank(DirectionsOf(f), StepFrom(f.point, s, k), s[k].target) < DirectionRank(DirectionsOf(f), StepFrom(f.point, s, k), t[k].target);
    assert s[k] != t[k];
  }

  /** Along a chain every jump lands on a fresh cell, no cell twice, and King can only come last. */
  lemma {:induction false} ChainLandsFresh(b: SquareBoard, f: Figure, visited: set<Point>, t: seq<MoveStep>)
    requires IsPlayer(f.side) && Chain(b, f, visited, t)
    ensures forall i :: 0 <= i < |t| && t[i].stepType == Jump ==> t[i].target !in visited && InBounds(b.size, t[i].target)
    ensures forall i, j :: 0 <= i < j < |t| && t[i].stepType == Jump && t[j].stepType == Jump ==> t[i].target != t[j].target
    ensures forall i :: 0 <= i < |t| && t[i].stepType == PromoteKing ==> i == |t| - 1
    ensures forall i :: 0 <= i < |t| ==> t[i].stepType != Move
    decreases |t|
  {
    if !ShouldPromoteKing(f, b.size) && t != [] {
      var p := t[0].target;
      var rest := t[1..];
      var i := LandsOnIndex(b, f, visited, p);
      ChainLandsFresh(b, Figure(p, f.side, f.isKing), visited + {p}, rest);
      forall k | 1 <= k < |t|
        ensures t[k] == rest[k - 1]
      {
      }
    }
  }

  /** Step s jumps from f in direction d over an opponent's figure onto the empty cell behind it. */
  predicate IsCapture(b: SquareBoard, f: Figure, d: Direction, s: MoveStep)
    requires d != Directions.Nop
  {
    && s == MoveStep.Jump(Apply(d, f.point, 2))
    && Get(b, Apply(d, f.point, 1)).side == Opposite(f.side)
    && IsEmpty(b, Apply(d, f.point, 2))
  }

  /** The simple move of f in direction d, as the source builds it when the neighbouring cell is empty. */
  predicate IsStep(b: SquareBoard, f: Figure, d: Direction, s: seq<MoveStep>)
    requires d != Directions.Nop
  {
    var q := Apply(d, f.point, 1);
    && IsEmpty(b, q)
    && s == [MoveStep.Move(q)] + (if !f.isKing && q.row == CrowningRow(f.side, b.size) then [MoveStep.King()] else [])
  }

  /**
   * Each jump of a chain jumps over an opponent's figure next to the jumping
   * figure onto the empty cell behind it, in one of the figure's directions.
   */
  lemma ChainStartsWithCapture(b: SquareBoard, f: Figure, visited: set<Point>, t: seq<MoveStep>)
    requires IsPlayer(f.side) && Chain(b, f, visited, t) && t != [] && !ShouldPromoteKing(f, b.size)
    ensures exists k :: 0 <= k < |DirectionsOf(f)| && IsCapture(b, f, DirectionsOf(f)[k], t[0])
  {
    var i := LandsOnIndex(b, f, visited, t[0].target);
  }

  /** The simple moves found by the first n directions are the simple moves in those directions. */
  lemma {:induction false} SimpleMovesUpToMembers(b: SquareBoard, f: Figure, n: nat, s: seq<MoveStep>)
    requires IsPlayer(f.side) && n <= |DirectionsOf(f)|
    ensures s in SimpleMovesUpTo(b, f, n) <==> exists i :: 0 <= i < n && SimpleMove(b, f, DirectionsOf(f)[i]) == Some(s)
  {
    if n > 0 {
      SimpleMovesUpToMembers(b, f, n - 1, s);
      SimpleMovesStep(b, f, n - 1);
    }
  }

  /**
   * A simple move in direction d exists iff the neighbouring cell is on the
   * board and empty; it moves there, and a simple figure reaching its
   * crowning row is crowned in the same sequence.
   */
  lemma SimpleMoveShape(b: SquareBoard, f: Figure, d: Direction)
    requires IsPlayer(f.side) && d != Directions.Nop
    ensures var q := Apply(d, f.point, 1);
      SimpleMove(b, f, d).Some? <==> IsEmpty(b, q)
    ensures var q := Apply(d, f.point, 1);
      SimpleMove(b, f, d).Some? ==>
        SimpleMove(b, f, d).value ==
          [MoveStep.Move(q)] + (if !f.isKing && q.row == CrowningRow(f.side, b.size) then [MoveStep.King()] else [])
  {
    PlayerOrdinal(f.side);
  }

  /** The simple moves of a figure: one per direction whose neighbouring cell is empty. */
  lemma SimpleMovesAre(b: SquareBoard, f: Figure, s: seq<MoveStep>)
    requires IsPlayer(f.side)
    ensures s in SimpleMoves(b, f) <==> exists i :: 0 <= i < |DirectionsOf(f)| && IsStep(b, f, DirectionsOf(f)[i], s)
  {
    SimpleMovesUpToMembers(b, f, |DirectionsOf(f)|, s);
    forall i | 0 <= i < |DirectionsOf(f)|
      ensures SimpleMove(b, f, DirectionsOf(f)[i]) == Some(s) <==> IsStep(b, f, DirectionsOf(f)[i], s)
    {
      SimpleMoveShape(b, f, DirectionsOf(f)[i]);
    }
  }

  /** The simple dictionary is empty iff no listed figure has simple moves and no jumps. */
  lemma {:induction false} SimpleEntriesEmpty(b: SquareBoard, figs: seq<Figure>)
    requires AllPlayers(figs)
    ensures SimpleEntries(b, figs) == [] <==>
      forall i :: 0 <= i < |figs| ==> JumpsOf(b, figs[i]) != [] || SimpleMoves(b, figs[i]) == []
  {
    if figs != [] {
      var init := figs[..|figs| - 1];
      SimpleEntriesEmpty(b, init);
      assert forall i :: 0 <= i < |init| ==> init[i] == figs[i];
    }
  }

  /** A side has no moves iff none of its figures can jump or move. */
  lemma NoMovesIff(b: SquareBoard, side: Side)
    requires IsPlayer(side)
    ensures var figs := FiguresOf(b, side);
      MovesOf(b, side) == [] <==> forall i :: 0 <= i < |figs| ==> JumpsOf(b, figs[i]) == [] && SimpleMoves(b, figs[i]) == []
  {
    JumpEntriesEmpty(b, FiguresOf(b, side));
    SimpleEntriesEmpty(b, FiguresOf(b, side));
  }

  /** A side without figures has no moves, so the game is over. */
  lemma NoFiguresEndsGame(b: SquareBoard, side: Side)
    requires Valid(b) && IsPlayer(side) && NoFigures(b, side)
    ensures MovesOf(b, side) == [] && GameIsOver(b)
  {
    NoFiguresIffNoneListed(b, side);
    NoMovesIff(b, side);
  }

  /**
   * A simple figure already standing on its crowning row (a position the
   * moves themselves never produce) reports the single sequence [King] as a
   * jump, so its side has only jump entries.
   */
  lemma CrownRowFigureJumps(b: SquareBoard, side: Side, f: Figure)
    requires IsPlayer(side) && f in FiguresOf(b, side) && ShouldPromoteKing(f, b.size)
    ensures JumpsOf(b, f) == [[MoveStep.King()]]
    ensures Entry(f, [[MoveStep.King()]]) in MovesOf(b, side)
    ensures MovesOf(b, side) == JumpEntries(b, FiguresOf(b, side))
  {
    var figs := FiguresOf(b, side);
    assert [] + [MoveStep.King()] == [MoveStep.King()];
    JumpEntriesMembers(b, figs, Entry(f, [[MoveStep.King()]]));
  }
}
