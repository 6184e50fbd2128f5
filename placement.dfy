/**
 * Where the dragover handler of a grid item puts the dragged item: before the
 * first other item whose vertical midpoint is at or below the pointer, or at the
 * end. This rearranges the page's grid only, not the list of files.
 */
module Placement {
  import opened Splice

  /** The box of a grid item: its top edge and its height, in viewport coordinates. */
  datatype Box = Box(top: real, height: real)

  function Midpoint(b: Box): real {
    b.top + b.height / 2.0
  }

  /**
   * The position, among the other items `siblings` in grid order, before which
   * the dragged item goes; `|siblings|` means at the end.
   */
  function InsertionPoint(siblings: seq<Box>, y: real): (k: nat)
    ensures k <= |siblings|
    ensures forall j :: 0 <= j < k ==> Midpoint(siblings[j]) < y
    ensures k < |siblings| ==> y <= Midpoint(siblings[k])
    decreases |siblings|
  {
    if siblings == [] then 0
    else if y <= Midpoint(siblings[0]) then 0
    else 1 + InsertionPoint(siblings[1..], y)
  }

  /** A pointer further down never puts the dragged item earlier. */
  lemma {:induction false} InsertionPointMonotone(siblings: seq<Box>, y1: real, y2: real)
    requires y1 <= y2
    ensures InsertionPoint(siblings, y1) <= InsertionPoint(siblings, y2)
    decreases |siblings|
  {
    if siblings != [] && y1 > Midpoint(siblings[0]) {
      InsertionPointMonotone(siblings[1..], y1, y2);
    }
  }

  /** The grid order after the dragover: the other items with the dragged one inserted. */
  function DragOverOrder<T>(others: seq<T>, boxes: seq<Box>, dragged: T, y: real): seq<T>
    requires |boxes| == |others|
  {
    InsertAt(others, InsertionPoint(boxes, y), dragged)
  }

  /**
   * The dragover rearranges and loses nothing: the other items keep their order, and
   * the dragged item sits after every item whose midpoint is above the pointer and
   * before the first one whose midpoint is not.
   */
  lemma DragOverOrderSpec<T>(others: seq<T>, boxes: seq<Box>, dragged: T, y: real)
    requires |boxes| == |others|
    ensures var r, k := DragOverOrder(others, boxes, dragged, y), InsertionPoint(boxes, y);
      && multiset(r) == multiset(others) + multiset{dragged}
      && r[k] == dragged
      && RemoveAt(r, k) == others
      && (forall j :: 0 <= j < k ==> Midpoint(boxes[j]) < y && r[j] == others[j])
      && (k < |others| ==> y <= Midpoint(boxes[k]) && r[k + 1] == others[k])
  {
    RemoveInserted(others, InsertionPoint(boxes, y), dragged);
  }
}
