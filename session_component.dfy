/**
 * `PrayerSessionComponent`: the current session screen. It keeps its own
 * frozen pool (the same computation as `PrayerSessionService`), the
 * selection sliders, the carousel index and drag state, a countdown that
 * starts once per session, and the inline dwell timer that registers each
 * request at most once by dispatching a prayer-count update.
 *
 * Signals and effects are explicit: `st` is what the store selectors return,
 * `UpdateShuffled` and `SyncSelectCount` are the two effects, and
 * `answeredDraws` stands for the `Math.random` draws of the answered sample's
 * sort. New draws arrive with a store change and with a changed slider value;
 * the two effects keep the current draws, which are one of the outcomes the
 * source's re-sort can give.
 */
module SessionComponent {
  import opened Wrappers
  import opened Numbers
  import opened Collections
  import opened Store
  import opened SessionUtils
  import opened Session
  import opened Swipe
  import opened Timing
  import Scope

  /** Top of the time slider: 61 means unlimited, below it the value is minutes. */
  const SessionTimeCap := 60

  /** The prayer-count update a registration dispatches. */
  function PrayerCountUpdate(id: int, count: int): (a: Action)
    ensures a.UpdateRequest? && a.id == id && a.requestChanges.prayerCount == Some(count)
    ensures a.requestChanges == NoRequestChanges.(prayerCount := Some(count))
  {
    UpdateRequest(id, NoRequestChanges.(prayerCount := Some(count)))
  }

  /**
   * A registration raises the stored count of the request by one when the
   * card carries the store's count, and changes nothing else in the store.
   */
  lemma RegistrationAddsOne(st: AppState, i: int, card: SessionItem)
    requires 0 <= i < |st.requests|
    requires card.RequestItem? && card.id == st.requests[i].id && card.prayerCount == Some(st.requests[i].prayerCount)
    ensures var st' := Dispatch(st, PrayerCountUpdate(card.id, RegisteredCount(card)), "");
      st'.lists == st.lists && st'.topics == st.topics
      && |st'.requests| == |st.requests|
      && st'.requests[i] == st.requests[i].(prayerCount := st.requests[i].prayerCount + 1)
      && (forall k :: 0 <= k < |st.requests| && st.requests[k].id != card.id ==> st'.requests[k] == st.requests[k])
  {
    UpdateRequestTouchesOnlyTarget(st.requests, card.id, NoRequestChanges.(prayerCount := Some(RegisteredCount(card))), "");
  }

  /** `onRequestAnswered`: the update that stamps the answer date (`nowIso`) and stores the answer text. */
  function AnswerUpdate(id: int, answerDescription: string, nowIso: string): (a: Action)
    ensures a.UpdateRequest? && a.id == id
    ensures a.requestChanges.answeredDate == Some(Some(nowIso))
    ensures a.requestChanges.answerDescription == Some(Some(answerDescription))
  {
    UpdateRequest(id, NoRequestChanges.(answeredDate := Some(Some(nowIso)), answerDescription := Some(Some(answerDescription))))
  }

  /**
   * Answering a stored request marks it answered with the text, keeps its
   * description, count and priority, and leaves every other entity alone.
   */
  lemma AnsweringMarksRequest(st: AppState, i: int, answerDescription: string, nowIso: string)
    requires 0 <= i < |st.requests|
    requires nowIso != ""
    ensures var st' := Dispatch(st, AnswerUpdate(st.requests[i].id, answerDescription, nowIso), "");
      var r := st.requests[i];
      st'.lists == st.lists && st'.topics == st.topics
      && |st'.requests| == |st.requests|
      && st'.requests[i] == r.(answeredDate := Some(nowIso), answerDescription := Some(answerDescription))
      && Scope.IsAnswered(st'.requests[i])
      && (forall k :: 0 <= k < |st.requests| && st.requests[k].id != r.id ==> st'.requests[k] == st.requests[k])
  {
    var r := st.requests[i];
    UpdateRequestTouchesOnlyTarget(st.requests, r.id, AnswerUpdate(r.id, answerDescription, nowIso).requestChanges, "");
  }

  /**
   * The fields the index effect moves: the slide index, the two started
   * flags, the pending dwell timer, and the countdown with the (ghost) number
   * of times it was started.
   */
  datatype IndexState = IndexState(index: int, sessionStarted: bool, countdownStarted: bool,
                                   viewTimer: Option<ViewWatch>, seconds: int, initialSeconds: int,
                                   active: bool, runs: nat)

  /**
   * The state `setIndex(idx)` leaves from `s` over the selection `sel`: the
   * index clamped to `[0, |sel|]`; nothing changes when it stays. Otherwise
   * the session counts as started from slide 1 on, the countdown starts
   * (unless unlimited) the first time slide 1 is reached, and the dwell timer
   * is rescheduled for the new slide.
   */
  function AfterSetIndex(s: IndexState, idx: int, sel: seq<SessionItem>, counted: set<int>,
                         minutes: int, unlimited: bool): (r: IndexState)
    ensures r == s || (0 <= r.index <= |sel| && r.index != s.index)
    ensures s.sessionStarted ==> r.sessionStarted
    ensures r.index >= 1 && r != s ==> r.sessionStarted
    ensures r.runs <= s.runs + 1
    ensures r.runs == s.runs + 1 ==> r.index == 1 && !s.countdownStarted && !unlimited
  {
    var c := Clamp(idx, 0, |sel|);
    if c == s.index then s
    else
      var starts := c == 1 && !s.countdownStarted && !unlimited;
      IndexState(c, s.sessionStarted || c >= 1, s.countdownStarted || c == 1,
                 ScheduledWatch(c, sel, counted, true),
                 if starts then minutes * 60 else s.seconds,
                 if starts then minutes * 60 else s.initialSeconds,
                 starts || s.active,
                 if starts then s.runs + 1 else s.runs)
  }

  /**
   * A pending timeout is for an uncounted id; the counted ids are the
   * registrations, each made once; the countdown has run at most once, and
   * only after the session started, which it has once an item was shown.
   */
  ghost predicate SessionInvariant(viewTimer: Option<ViewWatch>, counted: set<int>, registered: seq<int>,
                                   countdownRuns: nat, countdownStarted: bool, sessionStarted: bool, currentIndex: int)
  {
    (viewTimer.Some? ==> viewTimer.value.startId !in counted)
    && Distinct(registered) && Elements(registered) == counted
    && countdownRuns <= 1
    && (countdownRuns == 1 ==> countdownStarted)
    && (countdownStarted ==> sessionStarted)
    && (currentIndex >= 1 ==> sessionStarted)
  }

  class PrayerSessionComponent {
    var st: AppState
    var listId: Option<int>
    var shuffle: bool
    var shuffledItems: seq<SessionItem>
    var lastIds: multiset<int>
    var lastShuffle: bool
    var sessionStarted: bool
    var answeredDraws: nat -> nat
    var selectCount: int
    var timeValue: int
    var answeredValue: int
    var currentIndex: int
    var isDragging: bool
    var startX: real
    var deltaX: real
    var containerWidth: real
    var slideWidth: real
    var countdownSeconds: int
    var initialCountdownSeconds: int
    var countdownStarted: bool
    var countdownActive: bool
    var sessionCounted: set<int>
    var viewTimer: Option<ViewWatch>
    /** The registrations made, in order. */
    ghost var registered: seq<int>
    /** How many times a countdown was actually started. */
    ghost var countdownRuns: nat

    ghost predicate Valid()
      reads this`viewTimer, this`sessionCounted, this`registered, this`countdownRuns, this`countdownStarted, this`sessionStarted,
            this`currentIndex
    {
      SessionInvariant(viewTimer, sessionCounted, registered, countdownRuns, countdownStarted, sessionStarted, currentIndex)
    }

    /** The fields `setIndex` may move, as one value. */
    ghost function IndexView(): IndexState
      reads this`currentIndex, this`sessionStarted, this`countdownStarted, this`viewTimer,
            this`countdownSeconds, this`initialCountdownSeconds, this`countdownActive, this`countdownRuns
    {
      IndexState(currentIndex, sessionStarted, countdownStarted, viewTimer,
                 countdownSeconds, initialCountdownSeconds, countdownActive, countdownRuns)
    }

    /** `items`: the frozen pool with live prayer counts. */
    function Items(): seq<SessionItem>
      reads this`shuffledItems, this`st
    {
      RefreshCounts(shuffledItems, st.requests)
    }

    function Selected(): seq<SessionItem>
      reads this`shuffledItems, this`st, this`selectCount, this`answeredValue, this`answeredDraws
    {
      SelectedItems(Items(), selectCount, answeredValue, AnsweredRequests(st.requests), answeredDraws, st.topics, st.lists)
    }

    predicate Unlimited()
      reads this`timeValue
    {
      timeValue >= SessionTimeCap + 1
    }

    function TimeMinutes(): int
      reads this`timeValue
    {
      Min(timeValue, SessionTimeCap)
    }

    /**
     * The settings read at construction: the saved select count, or 0 (the
     * pool is still empty); the saved time, or 60; the saved answered count, or 0.
     */
    constructor (store: AppState, lid: Option<int>, shuffleSetting: bool, savedSelectCount: Option<int>,
                 savedTime: Option<int>, savedAnswered: Option<int>, draws: nat -> nat)
      ensures Valid()
      ensures st == store && listId == lid && shuffle == shuffleSetting
      ensures shuffledItems == [] && lastIds == multiset{} && !lastShuffle && !sessionStarted
      ensures selectCount == NumberOr(savedSelectCount, 0)
      ensures timeValue == GetOr(savedTime, 60) && answeredValue == GetOr(savedAnswered, 0)
      ensures currentIndex == 0 && !isDragging && deltaX == 0.0
      ensures countdownSeconds == 0 && initialCountdownSeconds == 0 && !countdownStarted && !countdownActive
      ensures sessionCounted == {} && viewTimer.None? && registered == [] && countdownRuns == 0
    {
      st := store;
      listId := lid;
      shuffle := shuffleSetting;
      shuffledItems := [];
      lastIds := multiset{};
      lastShuffle := false;
      sessionStarted := false;
      answeredDraws := draws;
      selectCount := NumberOr(savedSelectCount, |RefreshCounts([], store.requests)|);
      timeValue := GetOr(savedTime, 60);
      answeredValue := GetOr(savedAnswered, 0);
      currentIndex := 0;
      isDragging := false;
      startX := 0.0;
      deltaX := 0.0;
      containerWidth := 0.0;
      slideWidth := 0.0;
      countdownSeconds := 0;
      initialCountdownSeconds := 0;
      countdownStarted := false;
      countdownActive := false;
      sessionCounted := {};
      viewTimer := None;
      registered := [];
      countdownRuns := 0;
    }

    /** The store emits new contents; the selection is recomputed with fresh draws. */
    method StoreChanged(store: AppState, draws: nat -> nat)
      requires Valid()
      modifies this`st, this`answeredDraws
      ensures Valid()
      ensures st == store && answeredDraws == draws
    {
      st := store;
      answeredDraws := draws;
    }

    /**
     * `updateShuffledEffect`: the pool is recomputed (and the countdown flag
     * reset) only when its signature or the shuffle flag changed and the
     * session has not started.
     */
    method UpdateShuffled(rand: nat -> nat)
      requires Valid()
      modifies this`lastIds, this`lastShuffle, this`countdownStarted, this`shuffledItems
      ensures Valid()
      ensures old((lastIds != PoolSignature(listId, st) || lastShuffle != shuffle) && !sessionStarted) ==>
        lastIds == old(PoolSignature(listId, st)) && lastShuffle == old(shuffle) && !countdownStarted
        && shuffledItems == old(SessionPool(listId, st, shuffle, rand))
      ensures !old((lastIds != PoolSignature(listId, st) || lastShuffle != shuffle) && !sessionStarted) ==>
        unchanged(this`lastIds, this`lastShuffle, this`countdownStarted, this`shuffledItems)
    {
      var recompute, ids, pool := PoolEffect(listId, st, shuffle, rand, lastIds, lastShuffle, sessionStarted);
      if recompute {
        Freeze(ids, pool);
      }
    }

    /** The assignments of a recomputation, made before the session starts. */
    method Freeze(ids: multiset<int>, pool: seq<SessionItem>)
      requires Valid() && !sessionStarted
      modifies this`lastIds, this`lastShuffle, this`countdownStarted, this`shuffledItems
      ensures Valid()
      ensures lastIds == ids && lastShuffle == shuffle && !countdownStarted && shuffledItems == pool
    {
      lastIds := ids;
      lastShuffle := shuffle;
      countdownStarted := false;
      shuffledItems := pool;
    }

    /** `syncEffect`. */
    method SyncSelectCount()
      requires Valid()
      modifies this`selectCount
      ensures Valid()
      ensures selectCount == SyncedCount(|shuffledItems|, old(selectCount))
    {
      var max := |Items()|;
      var cur := selectCount;
      if max <= 0 {
        if cur != 0 {
          selectCount := 0;
        }
        return;
      }
      if cur < 1 || cur > max {
        selectCount := max;
      }
    }

    /**
     * `setIndex`: clamps to `[0, |selected|]` and does nothing when the index
     * stays. Otherwise the session counts as started from slide 1 on, the
     * countdown starts on reaching slide 1 if it has not started yet, and the
     * dwell timer is rescheduled for the new slide.
     */
    method SetIndex(idx: int)
      requires Valid()
      modifies this`currentIndex, this`sessionStarted, this`countdownStarted, this`viewTimer,
               this`countdownSeconds, this`initialCountdownSeconds, this`countdownActive, this`countdownRuns
      ensures Valid()
      ensures IndexView() == AfterSetIndex(old(IndexView()), idx, old(Selected()), sessionCounted, old(TimeMinutes()), old(Unlimited()))
    {
      var sel := Selected();
      var clamped := Max(0, Min(idx, |sel|));
      if clamped == currentIndex {
        return;
      }
      currentIndex := clamped;
      if clamped >= 1 && !sessionStarted {
        sessionStarted := true;
      }
      if clamped == 1 && !countdownStarted {
        StartCountdownIfNeeded();
        countdownStarted := true;
      }

      HandleViewTimer(sel);
    }

    /** `startCountdownIfNeeded`: nothing when unlimited, else a fresh countdown of `timeMinutes * 60` seconds. */
    method StartCountdownIfNeeded()
      requires Valid() && !countdownStarted && sessionStarted
      modifies this`countdownSeconds, this`initialCountdownSeconds, this`countdownActive, this`countdownRuns
      ensures Unlimited() ==> unchanged(this`countdownSeconds, this`initialCountdownSeconds, this`countdownActive, this`countdownRuns)
      ensures !Unlimited() ==>
        countdownSeconds == TimeMinutes() * 60 && initialCountdownSeconds == TimeMinutes() * 60
        && countdownActive && countdownRuns == old(countdownRuns) + 1 == 1
    {
      if Unlimited() {
        return;
      }
      var total := TimeMinutes() * 60;
      countdownSeconds := total;
      initialCountdownSeconds := total;
      countdownActive := true;
      countdownRuns := countdownRuns + 1;
    }

    /**
     * `handleViewTimer` on the selection `sel` the caller computed: clears the
     * pending timeout and schedules one for an unanswered, uncounted request card.
     */
    method HandleViewTimer(sel: seq<SessionItem>)
      requires Valid()
      modifies this`viewTimer
      ensures Valid()
      ensures viewTimer == ScheduledWatch(currentIndex, sel, sessionCounted, true)
    {
      viewTimer := None;
      var idx := currentIndex;
      var w := WatchedCard(idx, sel, true);
      if w.None? {
        return;
      }
      if w.value.id in sessionCounted {
        return;
      }
      viewTimer := Some(ViewWatch(w.value.id, idx));
    }

    /**
     * The dwell timeout fires. If the same request is still shown on the same
     * slide, its id is counted and its count plus one is dispatched. The store
     * then emits its new contents, which is `StoreChanged`.
     */
    method FireViewTimer() returns (registeredId: Option<int>)
      requires Valid() && viewTimer.Some?
      modifies this`viewTimer, this`sessionCounted, this`registered, this`st
      ensures Valid() && viewTimer.None?
      ensures var w := old(viewTimer).value;
        var sel := old(Selected());
        (StillOnCard(w, currentIndex, sel) ==>
           registeredId == Some(w.startId) && w.startId !in old(sessionCounted)
           && sessionCounted == old(sessionCounted) + {w.startId}
           && registered == old(registered) + [w.startId]
           && st == Dispatch(old(st), PrayerCountUpdate(w.startId, RegisteredCount(sel[currentIndex - 1])), ""))
        && (!StillOnCard(w, currentIndex, sel) ==>
              registeredId.None? && sessionCounted == old(sessionCounted) && registered == old(registered)
              && st == old(st))
    {
      var sel := Selected();
      var w := viewTimer.value;
      viewTimer := None;
      registeredId := None;
      if StillOnCard(w, currentIndex, sel) {
        Register(w.startId, RegisteredCount(sel[currentIndex - 1]));
        registeredId := Some(w.startId);
      }
    }

    /**
     * A registration: the id joins the counted set and the count update is
     * dispatched.
     */
    method Register(id: int, count: int)
      requires Valid() && viewTimer.None? && id !in sessionCounted
      modifies this`sessionCounted, this`registered, this`st
      ensures Valid()
      ensures sessionCounted == old(sessionCounted) + {id} && registered == old(registered) + [id]
      ensures st == Dispatch(old(st), PrayerCountUpdate(id, count), "")
    {
      DistinctSnoc(registered, id);
      ElementsSnoc(registered, id);
      sessionCounted := sessionCounted + {id};
      registered := registered + [id];
      // An update does not read the clock.
      st := Dispatch(st, PrayerCountUpdate(id, count), "");
    }

    /** One firing of the countdown interval. */
    method Tick()
      requires Valid() && countdownActive
      modifies this`countdownSeconds, this`countdownActive
      ensures Valid()
      ensures countdownSeconds == CountdownTick(old(countdownSeconds))
      ensures countdownActive == KeepsTicking(old(countdownSeconds))
    {
      var next := countdownSeconds - 1;
      countdownSeconds := Max(0, next);
      if next <= 0 {
        countdownActive := false;
      }
    }

    /** `onSelectCountChange`: `max(1, min(v, #items))`, then the index is pulled back inside the selection. */
    method OnSelectCountChange(v: int, draws: nat -> nat)
      requires Valid()
      modifies this`selectCount, this`currentIndex, this`sessionStarted, this`countdownStarted, this`viewTimer,
               this`countdownSeconds, this`initialCountdownSeconds, this`countdownActive, this`countdownRuns,
               this`answeredDraws
      ensures Valid()
      ensures selectCount == SelectCountAfterChange(v, |shuffledItems|)
      ensures answeredDraws == if selectCount != old(selectCount) then draws else old(answeredDraws)
      ensures old(currentIndex) > |Selected()| ==> currentIndex == |Selected()|
      ensures IndexView() ==
        if old(currentIndex) > |Selected()|
        then AfterSetIndex(old(IndexView()), |Selected()|, Selected(), sessionCounted, TimeMinutes(), Unlimited())
        else old(IndexView())
    {
      var max := |Items()|;
      var val := Max(1, Min(v, max));
      StoreSelectCount(val, draws);
      PullIndexBack();
    }

    /** Pulls an index past the end of the selection back to its last card. */
    method PullIndexBack()
      requires Valid()
      modifies this`currentIndex, this`sessionStarted, this`countdownStarted, this`viewTimer,
               this`countdownSeconds, this`initialCountdownSeconds, this`countdownActive, this`countdownRuns
      ensures Valid()
      ensures old(currentIndex) > |Selected()| ==> currentIndex == |Selected()|
      ensures IndexView() ==
        if old(currentIndex) > |Selected()|
        then AfterSetIndex(old(IndexView()), |Selected()|, Selected(), sessionCounted, TimeMinutes(), Unlimited())
        else old(IndexView())
    {
      var maxIndex := |Selected()|;
      if currentIndex > maxIndex {
        SetIndex(maxIndex);
      }
    }

    /** The slider's new count; a changed count makes `selectedItems` re-run its `Math.random` sort. */
    method StoreSelectCount(val: int, draws: nat -> nat)
      modifies this`selectCount, this`answeredDraws
      ensures selectCount == val
      ensures answeredDraws == if val != old(selectCount) then draws else old(answeredDraws)
    {
      if val != selectCount {
        answeredDraws := draws;
      }
      selectCount := val;
    }

    /** `onTimeChange`: clamped to `[1, 61]`. */
    method OnTimeChange(v: int)
      requires Valid()
      modifies this`timeValue
      ensures Valid()
      ensures timeValue == TimeSliderValue(v, SessionTimeCap)
    {
      timeValue := Max(1, Min(v, SessionTimeCap + 1));
    }

    /** `onAnsweredChange`: clamped to `[0, #answered]`. */
    method OnAnsweredChange(v: int, draws: nat -> nat)
      requires Valid()
      modifies this`answeredValue, this`answeredDraws
      ensures Valid()
      ensures 0 <= answeredValue <= |AnsweredRequests(st.requests)|
      ensures 0 <= v <= |AnsweredRequests(st.requests)| ==> answeredValue == v
      ensures answeredValue == Clamp(v, 0, |AnsweredRequests(st.requests)|)
      ensures answeredDraws == if answeredValue != old(answeredValue) then draws else old(answeredDraws)
    {
      var max := |AnsweredRequests(st.requests)|;
      var val := Max(0, Min(v, max));
      if val != answeredValue {
        // a changed count makes `selectedItems` re-run its `Math.random` sort
        answeredDraws := draws;
      }
      answeredValue := val;
    }

    /** `onPointerDown`: no drag starts on a slider. */
    method OnPointerDown(clientX: real, onSlider: bool)
      requires Valid()
      modifies this`isDragging, this`startX, this`deltaX
      ensures Valid()
      ensures onSlider ==> unchanged(this`isDragging, this`startX, this`deltaX)
      ensures !onSlider ==> isDragging && startX == clientX && deltaX == 0.0
    {
      if onSlider {
        return;
      }
      isDragging := true;
      startX := clientX;
      deltaX := 0.0;
    }

    method OnPointerMove(clientX: real)
      requires Valid()
      modifies this`deltaX
      ensures Valid()
      ensures isDragging ==> deltaX == clientX - startX
      ensures !isDragging ==> deltaX == old(deltaX)
    {
      if !isDragging {
        return;
      }
      deltaX := clientX - startX;
    }

    /** `onPointerUp`: ends a drag and moves to the swipe target within `[0, |selected|]`. */
    method OnPointerUp()
      requires Valid()
      modifies this`isDragging, this`deltaX, this`currentIndex, this`sessionStarted, this`countdownStarted, this`viewTimer,
               this`countdownSeconds, this`initialCountdownSeconds, this`countdownActive, this`countdownRuns
      ensures Valid()
      ensures !old(isDragging) ==> unchanged(this`isDragging, this`deltaX) && IndexView() == old(IndexView())
      ensures old(isDragging) ==>
        (!isDragging && deltaX == 0.0
         && var target := old(SwipeTarget(currentIndex, deltaX, SwipeWidth(slideWidth, containerWidth), |Selected()|));
            currentIndex == target
            && IndexView() == AfterSetIndex(old(IndexView()), target, old(Selected()), sessionCounted, old(TimeMinutes()), old(Unlimited())))
    {
      if !isDragging {
        return;
      }
      var sel := Selected();
      var w := SwipeWidth(slideWidth, containerWidth);
      var next := SwipeTarget(currentIndex, deltaX, w, |sel|);
      // `setIndex` reads neither drag field, so it may run first.
      SetIndex(next);
      isDragging := false;
      deltaX := 0.0;
    }

    /** `formatRemaining`. */
    function Remaining(): (s: string)
      reads this
      ensures Unlimited() ==> s == "Unlimited"
      ensures !Unlimited() ==> s == FormatRemaining(countdownSeconds)
    {
      if Unlimited() then "Unlimited" else FormatRemaining(countdownSeconds)
    }

    /** `timeProgressPercent`: 0 when unlimited. */
    function TimeProgress(): (p: real)
      reads this
      ensures 0.0 <= p <= 100.0
      ensures Unlimited() ==> p == 0.0
    {
      if Unlimited() then 0.0 else TimeProgressPercent(initialCountdownSeconds, countdownSeconds)
    }

    function Progress(): (p: real)
      reads this
      ensures 0.0 <= p <= 100.0
    {
      ProgressPercent(currentIndex, |Selected()|)
    }

    function Slide(): (r: int)
      reads this
      ensures 0 <= r <= |Selected()|
    {
      CurrentSlide(currentIndex, |Selected()|)
    }

    /** `onRequestAnswered`: the answer form's submission, dispatched to the store. */
    method OnRequestAnswered(requestId: int, answerDescription: string, nowIso: string)
      requires Valid()
      modifies this`st
      ensures Valid()
      ensures st == Dispatch(old(st), AnswerUpdate(requestId, answerDescription, nowIso), "")
    {
      st := Dispatch(st, AnswerUpdate(requestId, answerDescription, nowIso), "");
    }

    /** `ngOnDestroy`: the interval and the timeout are cleared. */
    method Destroy()
      requires Valid()
      modifies this`countdownActive, this`viewTimer
      ensures Valid() && !countdownActive && viewTimer.None?
    {
      countdownActive := false;
      viewTimer := None;
    }
  }
}
