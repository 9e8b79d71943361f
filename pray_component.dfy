/**
 * `PrayComponent`: the legacy prayer screen. Its pool is recomputed, and in
 * shuffle mode reshuffled, on every store change (`LegacyItems` with the draws
 * `draws` of the latest recomputation). The selection is a plain prefix, the
 * time slider runs to 121 (unlimited), the countdown restarts whenever slide 1
 * is reached, and the dwell timer registers each request at most once, answered
 * or not.
 */
module PrayComponent {
  import opened Wrappers
  import opened Numbers
  import opened Text
  import opened Collections
  import opened Store
  import opened SessionUtils
  import opened Session
  import opened Swipe
  import opened Timing
  import SessionComponent

  /** Top of the time slider: 121 means unlimited, below it the value is minutes. */
  const PrayTimeCap := 120

  /** The fields the index effect moves on this page: the slide index, the pending dwell timer and the countdown. */
  datatype SlideState = SlideState(index: int, viewTimer: Option<ViewWatch>, seconds: int, active: bool)

  /**
   * The state `setIndex(idx)` leaves from `s` over the selection `sel`: the
   * index clamped to `[0, |sel|]`; nothing changes when it stays. Otherwise
   * the countdown restarts (unless unlimited) whenever slide 1 is reached,
   * and the dwell timer is rescheduled for the new slide, answered cards included.
   */
  function AfterSetIndex(s: SlideState, idx: int, sel: seq<SessionItem>, counted: set<int>,
                         minutes: int, unlimited: bool): (r: SlideState)
    ensures r == s || (0 <= r.index <= |sel| && r.index != s.index)
    ensures r.seconds != s.seconds || r.active != s.active ==> r.index == 1 && !unlimited && r.seconds == minutes * 60 && r.active
    ensures r != s && r.viewTimer.Some? ==> r.viewTimer.value.startIndex == r.index && r.viewTimer.value.startId !in counted
  {
    var c := Clamp(idx, 0, |sel|);
    if c == s.index then s
    else
      var restarts := c == 1 && !unlimited;
      SlideState(c, ScheduledWatch(c, sel, counted, false),
                 if restarts then minutes * 60 else s.seconds,
                 restarts || s.active)
  }

  /** The counted ids are the registrations, each made once; a pending timeout is for an uncounted id. */
  ghost predicate PrayInvariant(viewTimer: Option<ViewWatch>, counted: set<int>, registered: seq<int>)
  {
    (viewTimer.Some? ==> viewTimer.value.startId !in counted)
    && Distinct(registered) && Elements(registered) == counted
  }

  class PrayComponent {
    var st: AppState
    var listId: Option<int>
    var shuffle: bool
    /** The `Math.random` draws of the latest recomputation of `items`. */
    var draws: nat -> nat
    /** The `items` signal: the pool as computed at the latest store change. */
    var items: seq<SessionItem>
    var selectCount: int
    var timeValue: int
    var currentIndex: int
    var isDragging: bool
    var startX: real
    var deltaX: real
    var containerWidth: real
    var slideWidth: real
    var countdownSeconds: int
    var countdownActive: bool
    var sessionCounted: set<int>
    var viewTimer: Option<ViewWatch>
    /** The registrations made, in order. */
    ghost var registered: seq<int>

    ghost predicate Valid()
      reads this`viewTimer, this`sessionCounted, this`registered
    {
      PrayInvariant(viewTimer, sessionCounted, registered)
    }

    /** `selectedItems`: the first `selectCount` items. */
    /** The fields `setIndex` may move, as one value. */
    function SlideView(): SlideState
      reads this`currentIndex, this`viewTimer, this`countdownSeconds, this`countdownActive
    {
      SlideState(currentIndex, viewTimer, countdownSeconds, countdownActive)
    }

    function Selected(): seq<SessionItem>
      reads this`items, this`selectCount
    {
      RegularSelection(items, selectCount)
    }

    predicate Unlimited()
      reads this`timeValue
    {
      timeValue >= PrayTimeCap + 1
    }

    function TimeMinutes(): int
      reads this`timeValue
    {
      Min(timeValue, PrayTimeCap)
    }

    /**
     * The settings read at construction: the saved select count, or the pool
     * size (a saved 0 also falls back); the saved time, or 60.
     */
    constructor (store: AppState, lid: Option<int>, shuffleSetting: bool, savedSelectCount: Option<int>,
                 savedTime: Option<int>, initialDraws: nat -> nat)
      ensures Valid()
      ensures st == store && listId == lid && shuffle == shuffleSetting && draws == initialDraws
      ensures items == LegacyItems(lid, store, shuffleSetting, initialDraws)
      ensures selectCount == NumberOr(savedSelectCount, |items|)
      ensures timeValue == GetOr(savedTime, 60)
      ensures currentIndex == 0 && !isDragging && deltaX == 0.0
      ensures countdownSeconds == 0 && !countdownActive
      ensures sessionCounted == {} && viewTimer.None? && registered == []
    {
      st := store;
      listId := lid;
      shuffle := shuffleSetting;
      draws := initialDraws;
      var pool := LegacyItems(lid, store, shuffleSetting, initialDraws);
      items := pool;
      selectCount := NumberOr(savedSelectCount, |pool|);
      timeValue := GetOr(savedTime, 60);
      currentIndex := 0;
      isDragging := false;
      startX := 0.0;
      deltaX := 0.0;
      containerWidth := 0.0;
      slideWidth := 0.0;
      countdownSeconds := 0;
      countdownActive := false;
      sessionCounted := {};
      viewTimer := None;
      registered := [];
    }

    /** The store emits new contents; `items` is recomputed with the draws `redraw`. */
    method StoreChanged(store: AppState, redraw: nat -> nat)
      requires Valid()
      modifies this`st, this`draws, this`items
      ensures Valid()
      ensures st == store && draws == redraw && items == LegacyItems(listId, store, shuffle, redraw)
    {
      st := store;
      Recompute(redraw);
    }

    /** The `items` computation runs again on the current store, with the draws `redraw`. */
    method Recompute(redraw: nat -> nat)
      modifies this`draws, this`items
      ensures draws == redraw && items == LegacyItems(listId, st, shuffle, redraw)
    {
      draws := redraw;
      items := LegacyItems(listId, st, shuffle, redraw);
    }

    /** `syncEffect`: 0 for an empty pool, the pool size for a count outside `[1, size]`. */
    method SyncSelectCount()
      requires Valid()
      modifies this`selectCount
      ensures Valid()
      ensures selectCount == SyncedCount(|items|, old(selectCount))
    {
      var max := |items|;
      var cur := selectCount;
      if max <= 0 {
        if cur != 0 {
          selectCount := 0;
        }
        return;
      }
      if cur < 1 || cur > max {
        selectCount := max;
      }
    }

    /**
     * `setIndex`: clamps to `[0, |selected|]` and does nothing when the index
     * stays. Otherwise, on reaching slide 1 the countdown restarts (unless
     * unlimited), and the dwell timer is rescheduled for the new slide.
     */
    method SetIndex(idx: int)
      requires Valid()
      modifies this`currentIndex, this`viewTimer, this`countdownSeconds, this`countdownActive
      ensures Valid()
      ensures SlideView() == AfterSetIndex(old(SlideView()), idx, old(Selected()), sessionCounted, old(TimeMinutes()), old(Unlimited()))
    {
      var sel := Selected();
      var clamped := Max(0, Min(idx, |sel|));
      if clamped == currentIndex {
        return;
      }
      currentIndex := clamped;
      if clamped == 1 {
        StartCountdownIfNeeded();
      }
      HandleViewTimer(sel);
    }

    /** `startCountdownIfNeeded`: nothing when unlimited, else a fresh countdown of `timeMinutes * 60` seconds. */
    method StartCountdownIfNeeded()
      modifies this`countdownSeconds, this`countdownActive
      ensures Unlimited() ==> unchanged(this`countdownSeconds, this`countdownActive)
      ensures !Unlimited() ==> countdownSeconds == TimeMinutes() * 60 && countdownActive
    {
      if Unlimited() {
        return;
      }
      countdownSeconds := TimeMinutes() * 60;
      countdownActive := true;
    }

    /**
     * `handleViewTimer` on the selection `sel` the caller computed: clears the
     * pending timeout and schedules one for an uncounted request card, answered
     * or not.
     */
    method HandleViewTimer(sel: seq<SessionItem>)
      requires Valid()
      modifies this`viewTimer
      ensures Valid()
      ensures viewTimer == ScheduledWatch(currentIndex, sel, sessionCounted, false)
    {
      viewTimer := None;
      var idx := currentIndex;
      var w := WatchedCard(idx, sel, false);
      if w.None? {
        return;
      }
      if w.value.id in sessionCounted {
        return;
      }
      viewTimer := Some(ViewWatch(w.value.id, idx));
    }

    /**
     * The dwell timeout fires. If the same request is still shown on the same
     * slide, its id is counted and its count plus one is dispatched. The store
     * then emits its new contents, which is `StoreChanged`.
     */
    method FireViewTimer() returns (registeredId: Option<int>)
      requires Valid() && viewTimer.Some?
      modifies this`viewTimer, this`sessionCounted, this`registered, this`st
      ensures Valid() && viewTimer.None?
      ensures var w := old(viewTimer).value;
        var sel := old(Selected());
        (StillOnCard(w, currentIndex, sel) ==>
           registeredId == Some(w.startId) && w.startId !in old(sessionCounted)
           && sessionCounted == old(sessionCounted) + {w.startId}
           && registered == old(registered) + [w.startId]
           && st == Dispatch(old(st), SessionComponent.PrayerCountUpdate(w.startId, RegisteredCount(sel[currentIndex - 1])), ""))
        && (!StillOnCard(w, currentIndex, sel) ==>
              registeredId.None? && sessionCounted == old(sessionCounted) && registered == old(registered)
              && st == old(st))
    {
      var sel := Selected();
      var w := viewTimer.value;
      viewTimer := None;
      registeredId := None;
      if StillOnCard(w, currentIndex, sel) {
        Register(w.startId, RegisteredCount(sel[currentIndex - 1]));
        registeredId := Some(w.startId);
      }
    }

    /** A registration: the id joins the counted set and the count update is dispatched. */
    method Register(id: int, count: int)
      requires Valid() && viewTimer.None? && id !in sessionCounted
      modifies this`sessionCounted, this`registered, this`st
      ensures Valid()
      ensures sessionCounted == old(sessionCounted) + {id} && registered == old(registered) + [id]
      ensures st == Dispatch(old(st), SessionComponent.PrayerCountUpdate(id, count), "")
    {
      DistinctSnoc(registered, id);
      ElementsSnoc(registered, id);
      sessionCounted := sessionCounted + {id};
      registered := registered + [id];
      // An update does not read the clock.
      st := Dispatch(st, SessionComponent.PrayerCountUpdate(id, count), "");
    }

    /** One firing of the countdown interval. */
    method Tick()
      requires Valid() && countdownActive
      modifies this`countdownSeconds, this`countdownActive
      ensures Valid()
      ensures countdownSeconds == CountdownTick(old(countdownSeconds))
      ensures countdownActive == KeepsTicking(old(countdownSeconds))
    {
      var next := countdownSeconds - 1;
      countdownSeconds := Max(0, next);
      if next <= 0 {
        countdownActive := false;
      }
    }

    /** `onSelectCountChange`: `max(1, min(v, #items))`, then the index is pulled back inside the selection. */
    method OnSelectCountChange(v: int)
      requires Valid()
      modifies this`selectCount, this`currentIndex, this`viewTimer, this`countdownSeconds, this`countdownActive
      ensures Valid()
      ensures selectCount == SelectCountAfterChange(v, |items|)
      ensures old(currentIndex) > |Selected()| ==> currentIndex == |Selected()|
      ensures SlideView() ==
        if old(currentIndex) > |Selected()|
        then AfterSetIndex(old(SlideView()), |Selected()|, Selected(), sessionCounted, TimeMinutes(), Unlimited())
        else old(SlideView())
    {
      var max := |items|;
      selectCount := Max(1, Min(v, max));
      var sel := Selected();
      var maxIndex := |sel|;
      if currentIndex > maxIndex {
        assert Clamp(maxIndex, 0, |sel|) == maxIndex;
        SetIndex(maxIndex);
        assert Selected() == sel;
      }
    }

    /** `onTimeChange`: clamped to `[1, 121]`. */
    method OnTimeChange(v: int)
      requires Valid()
      modifies this`timeValue
      ensures Valid()
      ensures timeValue == TimeSliderValue(v, PrayTimeCap)
    {
      timeValue := Max(1, Min(v, PrayTimeCap + 1));
    }

    /** `onPointerDown`: no drag starts on a slider. */
    method OnPointerDown(clientX: real, onSlider: bool)
      requires Valid()
      modifies this`isDragging, this`startX, this`deltaX
      ensures Valid()
      ensures onSlider ==> unchanged(this`isDragging, this`startX, this`deltaX)
      ensures !onSlider ==> isDragging && startX == clientX && deltaX == 0.0
    {
      if onSlider {
        return;
      }
      isDragging := true;
      startX := clientX;
      deltaX := 0.0;
    }

    method OnPointerMove(clientX: real)
      requires Valid()
      modifies this`deltaX
      ensures Valid()
      ensures isDragging ==> deltaX == clientX - startX
      ensures !isDragging ==> deltaX == old(deltaX)
    {
      if !isDragging {
        return;
      }
      deltaX := clientX - startX;
    }

    /** `onPointerUp`: ends a drag and moves to the swipe target within `[0, |selected|]`. */
    method OnPointerUp()
      requires Valid()
      modifies this`isDragging, this`deltaX, this`currentIndex, this`viewTimer, this`countdownSeconds, this`countdownActive
      ensures Valid()
      ensures !old(isDragging) ==> unchanged(this`isDragging, this`deltaX) && SlideView() == old(SlideView())
      ensures old(isDragging) ==>
        (!isDragging && deltaX == 0.0
         && var target := old(SwipeTarget(currentIndex, deltaX, SwipeWidth(slideWidth, containerWidth), |Selected()|));
            currentIndex == target
            && SlideView() == AfterSetIndex(old(SlideView()), target, old(Selected()), sessionCounted, old(TimeMinutes()), old(Unlimited())))
    {
      if !isDragging {
        return;
      }
      var sel := Selected();
      var w := SwipeWidth(slideWidth, containerWidth);
      var next := SwipeTarget(currentIndex, deltaX, w, |sel|);
      // `setIndex` reads neither drag field, so it may run first.
      SetIndex(next);
      isDragging := false;
      deltaX := 0.0;
    }

    /** `formatRemaining`. */
    function Remaining(): (s: string)
      reads this`timeValue, this`countdownSeconds
      ensures Unlimited() ==> s == "Unlimited"
      ensures !Unlimited() ==> s == FormatRemaining(countdownSeconds)
    {
      if Unlimited() then "Unlimited" else FormatRemaining(countdownSeconds)
    }

    /** `progressPercent`. */
    function Progress(): (p: real)
      reads this`items, this`selectCount, this`currentIndex
      ensures 0.0 <= p <= 100.0
      ensures currentIndex >= |Selected()| > 0 ==> p == 100.0
    {
      ProgressPercent(currentIndex, |Selected()|)
    }

    /** `currentSlide`. */
    function Slide(): (r: int)
      reads this`items, this`selectCount, this`currentIndex
      ensures 0 <= r <= |Selected()|
      ensures 1 <= currentIndex <= |Selected()| ==> r == currentIndex
    {
      CurrentSlide(currentIndex, |Selected()|)
    }

    /** `ngOnDestroy`: the interval and the timeout are cleared. */
    method Destroy()
      requires Valid()
      modifies this`countdownActive, this`viewTimer
      ensures Valid() && !countdownActive && viewTimer.None?
    {
      countdownActive := false;
      viewTimer := None;
    }
  }
}
