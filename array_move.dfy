/** The `arrayMove(array, from, to)` helper of the drag-and-drop library:
    a copy of the array with the element at `from` removed and then
    inserted so that it ends up at index `to`. The dashboard calls it only
    with indices it has just found in the array, so both are in range. */
module Sortable {

  /** Remove the element at `from`, then insert it at index `to` of what is
      left. */
  function ArrayMove<T>(s: seq<T>, from: nat, to: nat): (r: seq<T>)
    requires from < |s| && to < |s|
  {
    var rest := s[..from] + s[from + 1..];
    rest[..to] + [s[from]] + rest[to..]
  }

  /** Where each element of the result comes from: the moved element lands
      at `to`, the elements strictly between the two indices shift one step
      towards `from`, and all others stay put. */
  function Origin(from: nat, to: nat, i: nat): nat {
    if i == to then from
    else if from < to && from <= i < to then i + 1
    else if to < from && to < i <= from then i - 1
    else i
  }

  lemma ArrayMoveAt<T>(s: seq<T>, from: nat, to: nat)
    requires from < |s| && to < |s|
    ensures |ArrayMove(s, from, to)| == |s|
    ensures forall i | 0 <= i < |s| :: Origin(from, to, i) < |s| && ArrayMove(s, from, to)[i] == s[Origin(from, to, i)]
  {
    var r := ArrayMove(s, from, to);
    var rest := s[..from] + s[from + 1..];
    assert |rest| == |s| - 1;
    forall i | 0 <= i < |s| ensures Origin(from, to, i) < |s| && r[i] == s[Origin(from, to, i)] {
      if i < to {
        assert r[i] == rest[i];
      } else if i > to {
        assert r[i] == rest[i - 1];
      }
    }
  }

  /** The result is a rearrangement of the input: same length, same
      elements with the same multiplicities. */
  lemma ArrayMovePermutes<T>(s: seq<T>, from: nat, to: nat)
    requires from < |s| && to < |s|
    ensures |ArrayMove(s, from, to)| == |s|
    ensures multiset(ArrayMove(s, from, to)) == multiset(s)
  {
    var rest := s[..from] + s[from + 1..];
    assert s == s[..from] + [s[from]] + s[from + 1..];
    assert multiset(s) == multiset(rest) + multiset{s[from]};
    assert rest == rest[..to] + rest[to..];
    assert multiset(rest) == multiset(rest[..to]) + multiset(rest[to..]);
  }

  /** Moving back from `to` to `from` undoes the move. */
  lemma ArrayMoveInverse<T>(s: seq<T>, from: nat, to: nat)
    requires from < |s| && to < |s|
    ensures ArrayMove(ArrayMove(s, from, to), to, from) == s
  {
    var r := ArrayMove(s, from, to);
    ArrayMoveAt(s, from, to);
    ArrayMoveAt(r, to, from);
    var back := ArrayMove(r, to, from);
    forall i | 0 <= i < |s| ensures back[i] == s[i] {
      assert back[i] == r[Origin(to, from, i)];
      assert Origin(from, to, Origin(to, from, i)) == i;
    }
  }

  /** The example of the drag-and-drop documentation: moving index 2 to 0
      in [A, B, C] gives [C, A, B]. */
  lemma ArrayMoveExample()
    ensures ArrayMove(['A', 'B', 'C'], 2, 0) == ['C', 'A', 'B']
    ensures ArrayMove(['A', 'B', 'C'], 0, 2) == ['B', 'C', 'A']
  {
    assert ['A', 'B', 'C'][..2] + ['A', 'B', 'C'][3..] == ['A', 'B'];
    assert ['A', 'B', 'C'][..0] + ['A', 'B', 'C'][1..] == ['B', 'C'];
  }
}
