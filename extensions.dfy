/**
 * Checkers.Core.Extensions.RulesExtensions.Flatten: the moves dictionary
 * turned into one array, one element per (figure, sequence) pair, figures in
 * dictionary order and each figure's sequences in array order.
 */
module RulesExtensions {
  import opened Figures
  import opened MoveSteps
  import opened Rules

  /** The number of sequences in the dictionary, over all figures. */
  function Total(moves: seq<Entry>): nat
  {
    if moves == [] then 0 else Total(moves[..|moves| - 1]) + |moves[|moves| - 1].sequences|
  }

  /** The Select part for one dictionary entry. */
  function Row<T>(e: Entry, build: (Figure, seq<MoveStep>) -> T): (r: seq<T>)
    ensures |r| == |e.sequences|
    ensures forall i :: 0 <= i < |r| ==> r[i] == build(e.figure, e.sequences[i])
  {
    seq(|e.sequences|, i requires 0 <= i < |e.sequences| => build(e.figure, e.sequences[i]))
  }

  /** Flatten: the rows of the entries, concatenated in dictionary order. */
  function Flatten<T>(moves: seq<Entry>, build: (Figure, seq<MoveStep>) -> T): (r: seq<T>)
    ensures |r| == Total(moves)
    ensures moves == [] ==> r == []
  {
    if moves == [] then []
    else Flatten(moves[..|moves| - 1], build) + Row(moves[|moves| - 1], build)
  }

  /** The dictionaries' totals add up. */
  lemma {:induction false} TotalAppend(m1: seq<Entry>, m2: seq<Entry>)
    ensures Total(m1 + m2) == Total(m1) + Total(m2)
    decreases |m2|
  {
    if m2 == [] {
      assert m1 + m2 == m1;
    } else {
      var init := m2[..|m2| - 1];
      TotalAppend(m1, init);
      assert (m1 + m2)[..|m1 + m2| - 1] == m1 + init;
    }
  }

  /** Flattening two dictionaries one after the other is flattening their concatenation. */
  lemma {:induction false} FlattenAppend<T>(m1: seq<Entry>, m2: seq<Entry>, build: (Figure, seq<MoveStep>) -> T)
    ensures Flatten(m1 + m2, build) == Flatten(m1, build) + Flatten(m2, build)
    decreases |m2|
  {
    if m2 == [] {
      assert m1 + m2 == m1;
    } else {
      var init, last := m2[..|m2| - 1], m2[|m2| - 1];
      FlattenAppend(m1, init, build);
      assert (m1 + m2)[..|m1 + m2| - 1] == m1 + init;
      assert (m1 + m2)[|m1 + m2| - 1] == last;
      calc {
        Flatten(m1 + m2, build);
        Flatten(m1 + init, build) + Row(last, build);
        (Flatten(m1, build) + Flatten(init, build)) + Row(last, build);
        { AppendAssociative(Flatten(m1, build), Flatten(init, build), Row(last, build)); }
        Flatten(m1, build) + (Flatten(init, build) + Row(last, build));
        Flatten(m1, build) + Flatten(m2, build);
      }
    }
  }

  /**
   * The i-th sequence of the k-th figure sits at position Total(moves[..k]) + i:
   * a figure's elements are contiguous, in array order, after those of the
   * figures before it.
   */
  lemma FlattenAt<T>(moves: seq<Entry>, build: (Figure, seq<MoveStep>) -> T, k: nat, i: nat)
    requires k < |moves| && i < |moves[k].sequences|
    ensures Total(moves[..k]) + i < |Flatten(moves, build)|
    ensures Flatten(moves, build)[Total(moves[..k]) + i] == build(moves[k].figure, moves[k].sequences[i])
  {
    var before, after := moves[..k], moves[k + 1..];
    var upTo := before + [moves[k]];
    assert moves == upTo + after;
    FlattenAppend(upTo, after, build);
    assert upTo[..|upTo| - 1] == before;
    var f := Flatten(upTo, build);
    assert f == Flatten(before, build) + Row(moves[k], build);
    assert f[Total(before) + i] == Row(moves[k], build)[i];
  }

  /** Every element of the result was built from some figure of the dictionary and one of its sequences. */
  lemma {:induction false} FlattenFrom<T>(moves: seq<Entry>, build: (Figure, seq<MoveStep>) -> T, j: nat)
    requires j < |Flatten(moves, build)|
    ensures exists k, i ::
      && 0 <= k < |moves| && 0 <= i < |moves[k].sequences| && Total(moves[..k]) + i == j
      && Flatten(moves, build)[j] == build(moves[k].figure, moves[k].sequences[i])
    decreases |moves|
  {
    var n := |moves| - 1;
    var init := moves[..n];
    assert init == moves[..n][..n];
    if j < Total(init) {
      FlattenFrom(init, build, j);
      var k, i :| 0 <= k < |init| && 0 <= i < |init[k].sequences| &&
        Total(init[..k]) + i == j && Flatten(init, build)[j] == build(init[k].figure, init[k].sequences[i]);
      assert init[..k] == moves[..k];
    } else {
      var i := j - Total(init);
      assert Flatten(moves, build)[j] == Row(moves[n], build)[i];
      assert Total(moves[..n]) + i == j;
    }
  }
}
