/**
 * The carousel: `CarouselService` (drag tracking with an animation frame, a
 * "was dragged" flag kept briefly after release, an index clamped only to
 * `[0, 999]`) and `CarouselComponent` (keyboard and pointer navigation over
 * its items, emitting `indexChange` when the index moves). The pending
 * animation frame and the flag-clearing timeout are explicit events.
 */
module Carousel {
  import opened Wrappers
  import opened Numbers
  import opened SessionUtils
  import opened Swipe

  /** Movement in pixels from which a pointer gesture counts as a drag rather than a tap. */
  const DragThreshold := 8.0
  /** The service clamps indexes to `[0, MaxServiceIndex]` and leaves the rest to its caller. */
  const MaxServiceIndex := 999

  function Abs(x: real): (r: real)
    ensures r >= 0.0 && (r == x || r == -x)
  {
    if x < 0.0 then -x else x
  }

  class CarouselService {
    var currentIndex: int
    var isDragging: bool
    var startX: real
    var deltaX: real
    var containerWidth: real
    var slideWidth: real
    /** The scheduled animation frame, with the pointer position it will apply. */
    var pendingFrame: Option<real>
    var wasDragged: bool
    /** Whether the timeout that clears `wasDragged` is pending. */
    var dragClearPending: bool

    /**
     * The index stays in `[0, 999]`, a frame is pending only during a drag,
     * and the clearing timeout is pending only while the flag is set.
     */
    ghost predicate Valid()
      reads this
    {
      0 <= currentIndex <= MaxServiceIndex
      && (pendingFrame.Some? ==> isDragging)
      && (dragClearPending ==> wasDragged)
    }

    constructor ()
      ensures Valid()
      ensures currentIndex == 0 && !isDragging && startX == 0.0 && deltaX == 0.0
      ensures containerWidth == 0.0 && slideWidth == 0.0
      ensures pendingFrame.None? && !wasDragged && !dragClearPending
    {
      currentIndex := 0;
      isDragging := false;
      startX := 0.0;
      deltaX := 0.0;
      containerWidth := 0.0;
      slideWidth := 0.0;
      pendingFrame := None;
      wasDragged := false;
      dragClearPending := false;
    }

    /** The widths the `measure` closure records. */
    method Measured(container: real, slide: real)
      requires Valid()
      modifies this
      ensures Valid()
      ensures containerWidth == container && slideWidth == slide
      ensures unchanged(this`currentIndex, this`isDragging, this`startX, this`deltaX)
      ensures unchanged(this`pendingFrame, this`wasDragged, this`dragClearPending)
    {
      containerWidth := container;
      slideWidth := slide;
    }

    /**
     * `onPointerDown`: ignored on a slider, button or input; otherwise a drag
     * starts at `clientX` and the drag flag and its clearing timeout are dropped.
     */
    method OnPointerDown(clientX: real, onControl: bool)
      requires Valid()
      modifies this
      ensures Valid()
      ensures onControl ==> unchanged(this)
      ensures !onControl ==>
        isDragging && startX == clientX && deltaX == 0.0 && !wasDragged && !dragClearPending
        && currentIndex == old(currentIndex) && pendingFrame == old(pendingFrame)
      ensures unchanged(this`containerWidth, this`slideWidth)
    {
      if onControl {
        return;
      }
      wasDragged := false;
      dragClearPending := false;
      isDragging := true;
      startX := clientX;
      deltaX := 0.0;
    }

    /** `onPointerMove`: during a drag, replaces any pending frame by one for `clientX`. */
    method OnPointerMove(clientX: real)
      requires Valid()
      modifies this
      ensures Valid()
      ensures !old(isDragging) ==> unchanged(this)
      ensures old(isDragging) ==> pendingFrame == Some(clientX)
      ensures unchanged(this`currentIndex, this`isDragging, this`startX, this`deltaX, this`containerWidth, this`slideWidth)
      ensures unchanged(this`wasDragged, this`dragClearPending)
    {
      if !isDragging {
        return;
      }
      pendingFrame := Some(clientX);
    }

    /** The pending frame runs: the offset from the drag start is shown, and a move of 8 pixels or more marks a drag. */
    method AnimationFrame()
      requires Valid() && pendingFrame.Some?
      modifies this
      ensures Valid()
      ensures deltaX == old(pendingFrame).value - startX
      ensures wasDragged == (old(wasDragged) || Abs(deltaX) >= DragThreshold)
      ensures pendingFrame.None?
      ensures unchanged(this`currentIndex, this`isDragging, this`startX, this`containerWidth, this`slideWidth, this`dragClearPending)
    {
      var dx := pendingFrame.value - startX;
      deltaX := dx;
      if Abs(dx) >= DragThreshold {
        wasDragged := true;
      }
      pendingFrame := None;
    }

    /**
     * `onPointerUp`: outside a drag, returns the index and changes nothing.
     * Otherwise it ends the drag, applies the swipe rule clamped to
     * `[0, maxIndex]`, resets the offset, keeps a set drag flag until its
     * clearing timeout, and returns the target.
     */
    method OnPointerUp(maxIndex: int) returns (next: int)
      requires Valid()
      modifies this
      ensures Valid()
      ensures !old(isDragging) ==> next == currentIndex && unchanged(this)
      ensures old(isDragging) ==>
        next == SwipeTarget(old(currentIndex), old(deltaX), SwipeWidth(slideWidth, containerWidth), maxIndex)
        && currentIndex == Clamp(next, 0, MaxServiceIndex)
        && !isDragging && deltaX == 0.0 && pendingFrame.None?
        && wasDragged == old(wasDragged)
        && dragClearPending == (old(dragClearPending) || old(wasDragged))
      ensures maxIndex <= MaxServiceIndex ==> next == currentIndex
      ensures unchanged(this`startX, this`containerWidth, this`slideWidth)
    {
      if !isDragging {
        return currentIndex;
      }
      pendingFrame := None;
      isDragging := false;
      var dx := deltaX;
      var w := SwipeWidth(slideWidth, containerWidth);
      next := SwipeTarget(currentIndex, dx, w, maxIndex);
      deltaX := 0.0;
      SetIndex(next);
      if wasDragged {
        dragClearPending := true;
      }
    }

    /** The clearing timeout fires. */
    method ClearDragFlag()
      requires Valid() && dragClearPending
      modifies this
      ensures Valid() && !wasDragged && !dragClearPending
      ensures unchanged(this`currentIndex, this`isDragging, this`startX, this`deltaX, this`containerWidth, this`slideWidth, this`pendingFrame)
    {
      wasDragged := false;
      dragClearPending := false;
    }

    /** `setIndex`: clamps to `[0, 999]` only. */
    method SetIndex(idx: int)
      requires pendingFrame.Some? ==> isDragging
      requires dragClearPending ==> wasDragged
      modifies this
      ensures Valid()
      ensures currentIndex == Clamp(idx, 0, MaxServiceIndex)
      ensures 0 <= idx <= MaxServiceIndex ==> currentIndex == idx
      ensures unchanged(this`isDragging, this`startX, this`deltaX, this`containerWidth, this`slideWidth)
      ensures unchanged(this`pendingFrame, this`wasDragged, this`dragClearPending)
    {
      currentIndex := Max(0, Min(idx, MaxServiceIndex));
    }

    function CurrentSlide(items: seq<SessionItem>): (r: int)
      reads this
      ensures 0 <= r <= |items|
      ensures 1 <= currentIndex <= |items| ==> r == currentIndex
    {
      Swipe.CurrentSlide(currentIndex, |items|)
    }

    function Progress(items: seq<SessionItem>): (p: real)
      reads this
      ensures 0.0 <= p <= 100.0
      ensures |items| == 0 || currentIndex < 1 ==> p == 0.0
    {
      ProgressPercent(currentIndex, |items|)
    }

    /** `destroy`: cancels the pending frame. */
    method Destroy()
      requires Valid()
      modifies this
      ensures Valid() && pendingFrame.None?
      ensures unchanged(this`currentIndex, this`isDragging, this`startX, this`deltaX, this`containerWidth, this`slideWidth)
      ensures unchanged(this`wasDragged, this`dragClearPending)
    {
      pendingFrame := None;
    }
  }

  /**
   * `CarouselComponent`: navigation over `items`, slide 0 being the settings
   * slide. `emitted` is the sequence of values sent on `indexChange`.
   */
  class CarouselComponent {
    var items: seq<SessionItem>
    var currentIndex: int
    var isDragging: bool
    var startX: real
    var deltaX: real
    var containerWidth: real
    var slideWidth: real
    var emitted: seq<int>

    constructor (initialItems: seq<SessionItem>)
      ensures items == initialItems && currentIndex == 0 && !isDragging
      ensures startX == 0.0 && deltaX == 0.0 && containerWidth == 0.0 && slideWidth == 0.0
      ensures emitted == []
    {
      items := initialItems;
      currentIndex := 0;
      isDragging := false;
      startX := 0.0;
      deltaX := 0.0;
      containerWidth := 0.0;
      slideWidth := 0.0;
      emitted := [];
    }

    /**
     * The state `setIndex(idx)` leaves from index `oldIndex` and emissions
     * `oldEmitted`: the index clamped to `[0, |items|]`, emitted only when it moved.
     */
    ghost predicate MovedTo(idx: int, oldIndex: int, oldEmitted: seq<int>)
      reads this
    {
      var c := Clamp(idx, 0, |items|);
      if c == oldIndex then currentIndex == oldIndex && emitted == oldEmitted
      else currentIndex == c && emitted == oldEmitted + [c]
    }

    /** A new `items` input. */
    method SetItems(newItems: seq<SessionItem>)
      modifies this
      ensures items == newItems
      ensures unchanged(this`currentIndex, this`isDragging, this`startX, this`deltaX, this`containerWidth, this`slideWidth, this`emitted)
    {
      items := newItems;
    }

    /** A new `currentIndex` input from the parent: taken as given, without clamping or emitting. */
    method SetCurrentIndex(idx: int)
      modifies this
      ensures currentIndex == idx
      ensures unchanged(this`items, this`isDragging, this`startX, this`deltaX, this`containerWidth, this`slideWidth, this`emitted)
    {
      currentIndex := idx;
    }

    /** The widths the `measure` closure records. */
    method Measured(container: real, slide: real)
      modifies this
      ensures containerWidth == container && slideWidth == slide
      ensures unchanged(this`items, this`currentIndex, this`isDragging, this`startX, this`deltaX, this`emitted)
    {
      containerWidth := container;
      slideWidth := slide;
    }

    /** `setIndex`: clamps to `[0, |items|]` and emits only when the index changes. */
    method SetIndex(idx: int)
      modifies this
      ensures MovedTo(idx, old(currentIndex), old(emitted))
      ensures 0 <= currentIndex <= |items|  || currentIndex == old(currentIndex)
      ensures unchanged(this`items, this`isDragging, this`startX, this`deltaX, this`containerWidth, this`slideWidth)
    {
      var clamped := Max(0, Min(idx, |items|));
      if clamped == currentIndex {
        return;
      }
      currentIndex := clamped;
      emitted := emitted + [clamped];
    }

    /** `onKeyDown`: the arrow keys step back and forward; other keys do nothing. Returns whether the default was prevented. */
    method OnKeyDown(key: string) returns (prevented: bool)
      modifies this
      ensures prevented <==> key == "ArrowLeft" || key == "ArrowRight"
      ensures key == "ArrowLeft" ==> MovedTo(old(currentIndex) - 1, old(currentIndex), old(emitted))
      ensures key == "ArrowRight" ==> MovedTo(old(currentIndex) + 1, old(currentIndex), old(emitted))
      ensures !prevented ==> unchanged(this)
      ensures unchanged(this`items, this`isDragging, this`startX, this`deltaX, this`containerWidth, this`slideWidth)
    {
      prevented := false;
      if key == "ArrowLeft" {
        SetIndex(currentIndex - 1);
        prevented := true;
      } else if key == "ArrowRight" {
        SetIndex(currentIndex + 1);
        prevented := true;
      }
    }

    /** `onPointerDown`: no drag starts on a slider, button or input. */
    method OnPointerDown(clientX: real, onControl: bool)
      modifies this
      ensures onControl ==> unchanged(this)
      ensures !onControl ==> isDragging && startX == clientX && deltaX == 0.0
      ensures unchanged(this`items, this`currentIndex, this`containerWidth, this`slideWidth, this`emitted)
    {
      if onControl {
        return;
      }
      isDragging := true;
      startX := clientX;
      deltaX := 0.0;
    }

    /** `onPointerMove`: the offset follows the pointer only during a drag. */
    method OnPointerMove(clientX: real)
      modifies this
      ensures old(isDragging) ==> deltaX == clientX - startX
      ensures !old(isDragging) ==> deltaX == old(deltaX)
      ensures unchanged(this`items, this`currentIndex, this`isDragging, this`startX, this`containerWidth, this`slideWidth, this`emitted)
    {
      if !isDragging {
        return;
      }
      deltaX := clientX - startX;
    }

    /** `onPointerUp`: ends a drag, moves by the swipe rule within `[0, |items|]` and resets the offset. */
    method OnPointerUp()
      modifies this
      ensures !old(isDragging) ==> unchanged(this)
      ensures old(isDragging) ==>
        !isDragging && deltaX == 0.0
        && MovedTo(SwipeTarget(old(currentIndex), old(deltaX), SwipeWidth(slideWidth, containerWidth), |items|),
                   old(currentIndex), old(emitted))
      ensures unchanged(this`items, this`startX, this`containerWidth, this`slideWidth)
    {
      if !isDragging {
        return;
      }
      isDragging := false;
      var dx := deltaX;
      var w := SwipeWidth(slideWidth, containerWidth);
      var next := SwipeTarget(currentIndex, dx, w, |items|);
      deltaX := 0.0;
      SetIndex(next);
    }

    function Slide(): (r: int)
      reads this
      ensures 0 <= r <= |items|
      ensures currentIndex < 1 ==> r == 0
    {
      CurrentSlide(currentIndex, |items|)
    }
  }

  /** Every index the component emits lies in `[0, |items|]` and differs from the index it replaces. */
  lemma EmittedInRange(c: CarouselComponent, idx: int, oldIndex: int, oldEmitted: seq<int>)
    requires c.MovedTo(idx, oldIndex, oldEmitted)
    ensures |c.emitted| == |oldEmitted| + 1 ==> 0 <= c.emitted[|c.emitted| - 1] <= |c.items| && c.emitted[|c.emitted| - 1] != oldIndex
    ensures |c.emitted| == |oldEmitted| <==> c.currentIndex == oldIndex
  {
  }
}
