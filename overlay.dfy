/**
 * The container's drag overlay. A counter goes up on every `dragenter` and down
 * on every `dragleave` (they fire for the container and for each element inside
 * it), so that the overlay is shown once when a drag comes in and hidden when it
 * has left altogether; a drop resets it.
 */
module Overlay {

  /** The counter and whether the overlay (with the container's dragover look) is shown. */
  datatype State = State(counter: int, shown: bool)

  const Initial: State := State(0, false)

  /** A shown overlay always has a drag inside the container. */
  predicate Valid(st: State) {
    st.shown ==> st.counter >= 1
  }

  /** `dragenter`: count, and show the overlay if the list has files and this is the first enter. */
  function DragEnter(st: State, listNonEmpty: bool): State {
    var c := st.counter + 1;
    State(c, if listNonEmpty && c == 1 then true else st.shown)
  }

  /** `dragleave`: count down, and hide the overlay when the count reaches zero. */
  function DragLeave(st: State): State {
    var c := st.counter - 1;
    State(c, if c == 0 then false else st.shown)
  }

  /** `drop`: reset the count and hide the overlay. */
  function Drop(st: State): State {
    State(0, false)
  }

  datatype Event = Enter | Leave | Dropped

  function Step(st: State, e: Event, listNonEmpty: bool): State {
    match e
    case Enter => DragEnter(st, listNonEmpty)
    case Leave => DragLeave(st)
    case Dropped => Drop(st)
  }

  /**
   * The state after a series of container events. Whether the list has files does
   * not change along it: entering and leaving leave the list alone, and a drop adds
   * files only to a list that already has some.
   */
  function Run(st: State, events: seq<Event>, listNonEmpty: bool): State
    decreases |events|
  {
    if events == [] then st else Run(Step(st, events[0], listNonEmpty), events[1..], listNonEmpty)
  }

  function Occurrences(events: seq<Event>, e: Event): nat
    decreases |events|
  {
    if events == [] then 0 else (if events[0] == e then 1 else 0) + Occurrences(events[1..], e)
  }

  /** Every event keeps the overlay's invariant. */
  lemma {:induction false} RunKeepsValid(st: State, events: seq<Event>, listNonEmpty: bool)
    requires Valid(st)
    ensures Valid(Run(st, events, listNonEmpty))
    decreases |events|
  {
    if events != [] {
      RunKeepsValid(Step(st, events[0], listNonEmpty), events[1..], listNonEmpty);
    }
  }

  /** Without a drop, the counter moves by the number of enters minus the number of leaves. */
  lemma {:induction false} RunCounter(st: State, events: seq<Event>, listNonEmpty: bool)
    requires forall i :: 0 <= i < |events| ==> events[i] != Dropped
    ensures Run(st, events, listNonEmpty).counter
            == st.counter + Occurrences(events, Enter) - Occurrences(events, Leave)
    decreases |events|
  {
    if events != [] {
      assert forall i :: 0 <= i < |events[1..]| ==> events[1..][i] == events[i + 1];
      RunCounter(Step(st, events[0], listNonEmpty), events[1..], listNonEmpty);
    }
  }

  /** A drag that comes in and leaves as often as it enters leaves the overlay hidden. */
  lemma BalancedDragHides(events: seq<Event>, listNonEmpty: bool)
    requires forall i :: 0 <= i < |events| ==> events[i] != Dropped
    requires Occurrences(events, Enter) == Occurrences(events, Leave)
    ensures Run(Initial, events, listNonEmpty) == Initial
  {
    RunCounter(Initial, events, listNonEmpty);
    RunKeepsValid(Initial, events, listNonEmpty);
  }

  /** Over an empty list the overlay is never shown. */
  lemma {:induction false} EmptyListNeverShows(st: State, events: seq<Event>)
    requires !st.shown
    ensures !Run(st, events, false).shown
    decreases |events|
  {
    if events != [] {
      EmptyListNeverShows(Step(st, events[0], false), events[1..]);
    }
  }

  /** The count never drops below zero along the events. */
  predicate Nested(st: State, events: seq<Event>, listNonEmpty: bool)
    decreases |events|
  {
    events == [] ||
    (Step(st, events[0], listNonEmpty).counter >= 0 &&
     Nested(Step(st, events[0], listNonEmpty), events[1..], listNonEmpty))
  }

  /**
   * Over a list with files, as long as enters and leaves nest properly the overlay
   * is shown exactly while a drag is inside the container.
   */
  lemma {:induction false} OverlayTracksDrag(st: State, events: seq<Event>)
    requires st.counter >= 0 && (st.shown <==> st.counter >= 1)
    requires Nested(st, events, true)
    ensures Run(st, events, true).shown <==> Run(st, events, true).counter >= 1
    decreases |events|
  {
    if events != [] {
      OverlayTracksDrag(Step(st, events[0], true), events[1..]);
    }
  }
}
