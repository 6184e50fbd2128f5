/**
 * The two uses of `Array.prototype.splice` that the page makes on its list of
 * files: removing one element at an index and inserting one element at an index,
 * and the reorder built from them.
 */
module Splice {

  /** `s.splice(i, 1)`: the sequence without its element at index `i`. */
  function RemoveAt<T>(s: seq<T>, i: nat): (r: seq<T>)
    requires i < |s|
    ensures |r| == |s| - 1
    ensures forall k :: 0 <= k < i ==> r[k] == s[k]
    ensures forall k :: i <= k < |r| ==> r[k] == s[k + 1]
    ensures multiset(r) + multiset{s[i]} == multiset(s)
  {
    assert s == s[..i] + [s[i]] + s[i + 1..];
    s[..i] + s[i + 1..]
  }

  /** `s.splice(i, 0, x)` for an index within the sequence or just past its end. */
  function InsertAt<T>(s: seq<T>, i: nat, x: T): (r: seq<T>)
    requires i <= |s|
    ensures |r| == |s| + 1 && r[i] == x
    ensures forall k :: 0 <= k < i ==> r[k] == s[k]
    ensures forall k :: i < k < |r| ==> r[k] == s[k - 1]
    ensures multiset(r) == multiset(s) + multiset{x}
  {
    assert s == s[..i] + s[i..];
    s[..i] + [x] + s[i..]
  }

  /** Inserting at `i` and then removing at `i` gives back the sequence. */
  lemma RemoveInserted<T>(s: seq<T>, i: nat, x: T)
    requires i <= |s|
    ensures RemoveAt(InsertAt(s, i, x), i) == s
  {
    var r := RemoveAt(InsertAt(s, i, x), i);
    assert forall k :: 0 <= k < |s| ==> r[k] == s[k];
  }

  /** Removing at `i` and putting the same element back at `i` gives back the sequence. */
  lemma InsertRemoved<T>(s: seq<T>, i: nat)
    requires i < |s|
    ensures InsertAt(RemoveAt(s, i), i, s[i]) == s
  {
    var r := InsertAt(RemoveAt(s, i), i, s[i]);
    assert forall k :: 0 <= k < |s| ==> r[k] == s[k];
  }

  /** Sequences with the same multiset of elements have the same elements. */
  lemma SameElements<T>(a: seq<T>, b: seq<T>)
    requires multiset(a) == multiset(b)
    ensures forall x :: x in a <==> x in b
  {
    assert forall x :: x in a <==> x in multiset(a);
  }

  /** Every element left after a removal was in the sequence before. */
  lemma RemovedElements<T>(s: seq<T>, i: nat)
    requires i < |s|
    ensures forall x :: x in RemoveAt(s, i) ==> x in s
  {
    assert forall x :: x in RemoveAt(s, i) ==> x in multiset(RemoveAt(s, i));
  }

  /**
   * The reorder of the grid's drop handler: when the two indices differ, take the
   * element out at `from` and put it back in at `to` of what is left.
   */
  function Move<T>(s: seq<T>, from: nat, to: nat): seq<T>
    requires from < |s| && to < |s|
  {
    if from != to then InsertAt(RemoveAt(s, from), to, s[from]) else s
  }

  /**
   * What a move does: same length and the same elements, the moved element at
   * `to`, the other elements in their old relative order, and the elements outside
   * the range between the two indices where they were.
   */
  lemma MoveSpec<T>(s: seq<T>, from: nat, to: nat)
    requires from < |s| && to < |s|
    ensures from == to ==> Move(s, from, to) == s
    ensures |Move(s, from, to)| == |s|
    ensures multiset(Move(s, from, to)) == multiset(s)
    ensures Move(s, from, to)[to] == s[from]
    ensures RemoveAt(Move(s, from, to), to) == RemoveAt(s, from)
    ensures forall k :: 0 <= k < |s| && k < from && k < to ==> Move(s, from, to)[k] == s[k]
    ensures forall k :: 0 <= k < |s| && k > from && k > to ==> Move(s, from, to)[k] == s[k]
    ensures forall k :: from <= k < to ==> Move(s, from, to)[k] == s[k + 1]
    ensures forall k :: to < k <= from ==> Move(s, from, to)[k] == s[k - 1]
  {
    if from != to {
      var rest := RemoveAt(s, from);
      RemoveInserted(rest, to, s[from]);
      calc {
        multiset(Move(s, from, to));
        multiset(rest) + multiset{s[from]};
        multiset(s);
      }
    }
  }

  /** Moving an element back from `to` to `from` undoes the move. */
  lemma MoveUndo<T>(s: seq<T>, from: nat, to: nat)
    requires from < |s| && to < |s|
    ensures Move(Move(s, from, to), to, from) == s
  {
    if from != to {
      var r := Move(s, from, to);
      MoveSpec(s, from, to);
      InsertRemoved(s, from);
    }
  }
}
