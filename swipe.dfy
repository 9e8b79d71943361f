/**
 * The swipe rule shared by the carousel service, the carousel component and
 * the two session components, and the slide-position read-outs. Pixel
 * quantities are exact reals.
 */
module Swipe {
  import opened Numbers

  /** `slideWidth || containerWidth || 1`: a zero width is falsy and falls through. */
  function SwipeWidth(slideWidth: real, containerWidth: real): (w: real)
    ensures slideWidth != 0.0 ==> w == slideWidth
    ensures slideWidth == 0.0 && containerWidth != 0.0 ==> w == containerWidth
    ensures slideWidth == 0.0 && containerWidth == 0.0 ==> w == 1.0
  {
    if slideWidth != 0.0 then slideWidth else if containerWidth != 0.0 then containerWidth else 1.0
  }

  /** `Math.max(60, w * 0.15)`: the drag distance that turns a slide. */
  function Threshold(w: real): (t: real)
    ensures t >= 60.0 && t >= w * 0.15
    ensures t == 60.0 || t == w * 0.15
  {
    MaxReal(60.0, w * 0.15)
  }

  /**
   * `onPointerUp`'s target: one slide forward for a drag left by at least the
   * threshold, one back for a drag right by at least the threshold, then
   * clamped to `[0, max]`.
   */
  function SwipeTarget(cur: int, dx: real, w: real, max: int): (next: int)
    ensures max >= 0 ==> 0 <= next <= max
    ensures max < 0 ==> next == 0
    ensures 0 <= cur <= max && dx <= -Threshold(w) ==> next == Min(cur + 1, max)
    ensures 0 <= cur <= max && dx >= Threshold(w) ==> next == Max(cur - 1, 0)
    ensures 0 <= cur <= max && -Threshold(w) < dx < Threshold(w) ==> next == cur
  {
    var t := Threshold(w);
    var moved := if dx <= -t then cur + 1 else if dx >= t then cur - 1 else cur;
    Max(0, Min(moved, max))
  }

  /** From a slide in range, a swipe moves at most one slide. */
  lemma SwipeMovesAtMostOne(cur: int, dx: real, w: real, max: int)
    requires 0 <= cur <= max
    ensures -1 <= SwipeTarget(cur, dx, w, max) - cur <= 1
  {
  }

  /** A drag shorter than 60 pixels never changes the slide, whatever the width. */
  lemma ShortDragStays(cur: int, dx: real, w: real, max: int)
    requires 0 <= cur <= max
    requires -60.0 < dx < 60.0
    ensures SwipeTarget(cur, dx, w, max) == cur
  {
  }

  /** Away from the last slide, a full swipe forward and a full swipe back return to the start. */
  lemma SwipeThereAndBack(cur: int, d: real, w: real, max: int)
    requires 0 <= cur < max
    requires d >= Threshold(w)
    ensures SwipeTarget(SwipeTarget(cur, -d, w, max), d, w, max) == cur
  {
  }

  /** `currentSlide`: 0 on the settings slide, else the index capped at the number of items. */
  function CurrentSlide(idx: int, total: int): (r: int)
    ensures idx < 1 ==> r == 0
    ensures 1 <= idx <= total ==> r == idx
    ensures total >= 0 ==> 0 <= r <= total
  {
    if idx < 1 then 0 else Min(idx, total)
  }

  /** `progressPercent`: the share of the items reached, in percent. */
  function ProgressPercent(idx: int, total: int): (p: real)
    ensures 0.0 <= p <= 100.0
    ensures total <= 0 || idx < 1 ==> p == 0.0
    ensures total > 0 && idx >= total ==> p == 100.0
  {
    if total <= 0 then 0.0
    else if idx < 1 then 0.0
    else
      var ratio := idx as real / total as real;
      RatioBounds(idx as real, total as real);
      MinReal(100.0, MaxReal(0.0, ratio * 100.0))
  }

  /** Moving forward never lowers the progress. */
  lemma ProgressMonotone(i: int, j: int, total: int)
    requires i <= j
    ensures ProgressPercent(i, total) <= ProgressPercent(j, total)
  {
    if total > 0 && i >= 1 {
      var t := total as real;
      assert j as real / t - i as real / t == (j - i) as real / t;
      assert (j - i) as real / t >= 0.0;
    }
  }
}
