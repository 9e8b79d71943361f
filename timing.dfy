/**
 * Session timing: the one-second countdown, its labels and progress, the
 * time-slider settings, and the dwell ("view") timer that registers a prayer
 * after a request card has been shown for a while. Intervals and timeouts
 * are explicit events: `Tick` is one firing of the countdown interval and
 * `FireViewTimer` the firing of the pending timeout.
 */
module Timing {
  import opened Wrappers
  import opened Numbers
  import opened Text
  import opened Collections
  import opened SessionUtils

  // ---------------------------------------------------------------------------
  // Countdown

  /** One interval firing: `Math.max(0, countdown - 1)`. */
  function CountdownTick(c: int): (next: int)
    ensures next >= 0
    ensures c >= 1 ==> next == c - 1
    ensures c <= 1 ==> next == 0
  {
    Max(0, c - 1)
  }

  /** The interval survives a firing from `c` unless `c - 1 <= 0`, when it clears itself. */
  predicate KeepsTicking(c: int)
  {
    c - 1 > 0
  }

  /** The countdown after `k` firings from `c`. */
  function Ticks(c: int, k: nat): int
    decreases k
  {
    if k == 0 then c else Ticks(CountdownTick(c), k - 1)
  }

  /** The interval is still set after `k` firings from `c`. */
  predicate RunningAfter(c: int, k: nat)
  {
    forall j :: 0 <= j < k ==> KeepsTicking(Ticks(c, j))
  }

  /** From `n` seconds, `k <= n` firings leave `n - k`; from then on the countdown stays at 0. */
  lemma {:induction false} TicksCountDown(n: nat, k: nat)
    ensures k <= n ==> Ticks(n, k) == n - k
    ensures k >= n ==> Ticks(n, k) == 0
    decreases k
  {
    if k > 0 {
      TicksCountDown(CountdownTick(n), k - 1);
    }
  }

  /** The interval keeps running for the first `n - 1` firings and clears itself at the `n`-th (at the first when `n = 0`). */
  lemma {:induction false} RunningUntilZero(n: nat, k: nat)
    ensures RunningAfter(n, k) <==> k == 0 || k < n
  {
    forall j | 0 <= j < k ensures Ticks(n, j) == if j <= n then n - j else 0 {
      TicksCountDown(n, j);
    }
    if k > 0 && k >= n {
      var j := if n == 0 then 0 else n - 1;
      assert 0 <= j < k && !KeepsTicking(Ticks(n, j));
    }
  }

  /** `formatRemaining`: whole minutes rounded up from one minute on, else seconds. */
  function FormatRemaining(total: int): (s: string)
    ensures |s| > 4
    ensures total >= 60 ==> s[|s| - 4..] == " min"
    ensures total < 60 ==> s[|s| - 4..] == " sec"
  {
    if total >= 60 then IntToString(CeilDiv(total, 60)) + " min"
    else IntToString(total) + " sec"
  }

  /** A minutes label shows the number of started minutes left: `m` with `60(m - 1) < total <= 60m`. */
  lemma FormatRemainingMinutes(total: int)
    requires total >= 60
    ensures var s := FormatRemaining(total);
      AllDigits(s[..|s| - 4])
      && var m := ParseNat(s[..|s| - 4]);
      m >= 1 && 60 * (m - 1) < total <= 60 * m
  {
    var s := FormatRemaining(total);
    var m := CeilDiv(total, 60);
    assert s[..|s| - 4] == NatToString(m);
    ParseNatToString(m);
  }

  /** Under a minute, the label shows the exact number of seconds. */
  lemma FormatRemainingSeconds(total: int)
    requires 0 <= total < 60
    ensures var s := FormatRemaining(total);
      AllDigits(s[..|s| - 4]) && ParseNat(s[..|s| - 4]) == total
  {
    var s := FormatRemaining(total);
    assert s[..|s| - 4] == NatToString(total);
    ParseNatToString(total);
  }

  /** `getTimeProgressPercent`: the elapsed share of the countdown, in percent, clamped to `[0, 100]`. */
  function TimeProgressPercent(initial: int, current: int): (p: real)
    ensures 0.0 <= p <= 100.0
    ensures initial <= 0 ==> p == 0.0
    ensures initial > 0 && current >= initial ==> p == 0.0
    ensures initial > 0 && current <= 0 ==> p == 100.0
  {
    if initial <= 0 then 0.0
    else
      var elapsed := (initial - current) as real;
      var ratio := elapsed / initial as real;
      RatioBounds(elapsed, initial as real);
      MinReal(100.0, MaxReal(0.0, ratio * 100.0))
  }

  /** Progress never goes back as the countdown runs down. */
  lemma ProgressMonotone(initial: int, c1: int, c2: int)
    requires c2 <= c1
    ensures TimeProgressPercent(initial, c2) >= TimeProgressPercent(initial, c1)
  {
    if initial > 0 {
      var i := initial as real;
      var e1 := (initial - c1) as real;
      var e2 := (initial - c2) as real;
      assert e2 / i - e1 / i == (e2 - e1) / i;
      assert (e2 - e1) / i >= 0.0;
    }
  }

  /** A tick never lowers the progress. */
  lemma TickAdvancesProgress(initial: int, c: int)
    ensures TimeProgressPercent(initial, CountdownTick(c)) >= TimeProgressPercent(initial, c)
  {
    if CountdownTick(c) <= c {
      ProgressMonotone(initial, c, CountdownTick(c));
    } else {
      assert c < 0 && CountdownTick(c) == 0;
      assert TimeProgressPercent(initial, c) == 100.0 || initial <= 0;
    }
  }

  // ---------------------------------------------------------------------------
  // Time settings

  /**
   * The countdown a time-slider value asks for, where `cap + 1` means
   * unlimited: `None` for unlimited, otherwise `min(value, cap) * 60` seconds.
   */
  function CountdownTotal(timeValue: int, cap: int): (r: Option<int>)
    ensures r.None? <==> timeValue >= cap + 1
    ensures r.Some? ==> r.value == timeValue * 60
  {
    if timeValue >= cap + 1 then None else Some(Min(timeValue, cap) * 60)
  }

  /** `onTimeChange`: the time slider is clamped to `[1, cap + 1]`. */
  function TimeSliderValue(v: int, cap: int): (r: int)
    requires cap >= 1
    ensures 1 <= r <= cap + 1
    ensures 1 <= v <= cap + 1 ==> r == v
  {
    Clamp(v, 1, cap + 1)
  }

  /**
   * After a slider change the countdown is unlimited exactly at the top of the
   * slider, and otherwise lasts between one minute and `cap` minutes.
   */
  lemma SliderCountdown(v: int, cap: int)
    requires cap >= 1
    ensures var t := CountdownTotal(TimeSliderValue(v, cap), cap);
      (t.None? <==> v >= cap + 1)
      && (t.Some? ==> 60 <= t.value <= 60 * cap && t.value % 60 == 0)
  {
  }

  // ---------------------------------------------------------------------------
  // Slider labels

  /** `formatCountLabel`: 'All items' once the count covers the pool, else the count. */
  function CountLabel(count: int, max: int): (s: string)
    ensures count >= max ==> s == "All items"
    ensures count < max ==> s == IntToString(count)
  {
    if count >= max then "All items" else IntToString(count)
  }

  /** `formatTimeLabel`: 'Unlimited' at the top of the slider (`cap + 1`), else the minutes. */
  function TimeLabel(timeValue: int, cap: int): (s: string)
    ensures timeValue >= cap + 1 ==> s == "Unlimited"
    ensures timeValue < cap + 1 ==> s == IntToString(Min(timeValue, cap)) + " min"
  {
    if timeValue >= cap + 1 then "Unlimited" else IntToString(Min(timeValue, cap)) + " min"
  }

  /** Below the top of the slider the label reads back the minutes it shows. */
  lemma TimeLabelMinutes(timeValue: int, cap: int)
    requires 1 <= timeValue <= cap
    ensures var s := TimeLabel(timeValue, cap);
      |s| > 4 && s[|s| - 4..] == " min" && ParseNat(s[..|s| - 4]) == timeValue
  {
    var s := TimeLabel(timeValue, cap);
    assert s[..|s| - 4] == NatToString(timeValue);
    ParseNatToString(timeValue);
  }

  /** `formatAnsweredLabel`: 'None' for no answered requests, else the number. */
  function AnsweredLabel(v: int): (s: string)
    ensures v == 0 ==> s == "None"
    ensures v != 0 ==> s == IntToString(v)
  {
    if v == 0 then "None" else IntToString(v)
  }

  /** A positive answered count is shown as digits that read back the count. */
  lemma AnsweredLabelReadsBack(v: int)
    requires v >= 1
    ensures AllDigits(AnsweredLabel(v)) && ParseNat(AnsweredLabel(v)) == v
  {
    ParseNatToString(v);
  }

  /** `getTimeMinutes`: at most 60. */
  function TimerMinutes(timeMinutes: int): (m: int)
    ensures m <= 60
    ensures timeMinutes <= 60 ==> m == timeMinutes
    ensures timeMinutes > 60 ==> m == 60
  {
    Min(timeMinutes, 60)
  }

  // ---------------------------------------------------------------------------
  // Dwell timer

  /**
   * The card the dwell timer would watch at slide `idx` (slide 0 is the
   * settings slide): the item at `idx - 1` when it exists, is a request card
   * and, if `skipAnswered`, is not marked answered.
   */
  function WatchedCard(idx: int, items: seq<SessionItem>, skipAnswered: bool): (r: Option<SessionItem>)
    ensures r.Some? <==> 1 <= idx <= |items| && items[idx - 1].RequestItem?
                          && !(skipAnswered && items[idx - 1].isAnswered == Some(true))
    ensures r.Some? ==> r.value == items[idx - 1]
  {
    if idx < 1 || idx > |items| then None
    else
      var item := items[idx - 1];
      if !item.RequestItem? || (skipAnswered && item.isAnswered == Some(true)) then None
      else Some(item)
  }

  /**
   * `handleViewTimer` in the session components: the timeout scheduled at
   * slide `idx`, if any: for the watched card's request id, when that id has
   * not been counted in this session.
   */
  function ScheduledWatch(idx: int, items: seq<SessionItem>, counted: set<int>, skipAnswered: bool): (r: Option<ViewWatch>)
    ensures r.Some? <==> WatchedCard(idx, items, skipAnswered).Some? && items[idx - 1].id !in counted
    ensures r.Some? ==> r.value.startIndex == idx && r.value.startId == items[idx - 1].id && r.value.startId !in counted
  {
    var w := WatchedCard(idx, items, skipAnswered);
    if w.None? || w.value.id in counted then None else Some(ViewWatch(w.value.id, idx))
  }

  /** A component's pending dwell timeout: the request id and the slide it was scheduled on. */
  datatype ViewWatch = ViewWatch(startId: int, startIndex: int)

  /** When a component's timeout fires, it registers only if the same request is still shown on the same slide. */
  predicate StillOnCard(w: ViewWatch, idx: int, items: seq<SessionItem>)
  {
    idx == w.startIndex && 1 <= idx <= |items| && items[idx - 1].RequestItem? && items[idx - 1].id == w.startId
  }

  /** `(curItem.prayerCount || 0) + 1`: the count a registration stores. */
  function RegisteredCount(card: SessionItem): (n: int)
    requires card.RequestItem?
    ensures card.prayerCount.Some? ==> n == card.prayerCount.value + 1
    ensures card.prayerCount.None? ==> n == 1
  {
    NumberOr(card.prayerCount, 0) + 1
  }

  /** A scheduled registration: the id to register and the request card watched. */
  datatype PendingView = PendingView(startId: int, watched: SessionItem)

  /**
   * `TimerService`: a countdown with its interval handle, and a dwell timer
   * with its timeout handle and the ids counted in this session.
   * `registered` records the registrations of the session in order.
   */
  class TimerService {
    var countdownSeconds: int
    var initialCountdownSeconds: int
    var countdownStarted: bool
    var countdownActive: bool
    var viewTimer: Option<PendingView>
    var sessionCounted: set<int>
    ghost var registered: seq<int>

    /**
     * A pending registration is for a request card whose id is not yet
     * counted, and the counted ids are the registrations, each made once.
     */
    ghost predicate Valid()
      reads this
    {
      (viewTimer.Some? ==> viewTimer.value.startId !in sessionCounted && viewTimer.value.watched.RequestItem?)
      && Distinct(registered)
      && Elements(registered) == sessionCounted
    }

    constructor ()
      ensures Valid()
      ensures countdownSeconds == 0 && initialCountdownSeconds == 0 && !countdownStarted && !countdownActive
      ensures viewTimer.None? && sessionCounted == {} && registered == []
    {
      countdownSeconds := 0;
      initialCountdownSeconds := 0;
      countdownStarted := false;
      countdownActive := false;
      viewTimer := None;
      sessionCounted := {};
      registered := [];
    }

    /** `startCountdown`: nothing when unlimited; otherwise a fresh countdown of `timeMinutes * 60` (not capped here). */
    method StartCountdown(timeMinutes: int, unlimited: bool)
      requires Valid()
      modifies this
      ensures Valid()
      ensures unlimited ==> unchanged(this)
      ensures !unlimited ==>
        countdownSeconds == timeMinutes * 60 && initialCountdownSeconds == timeMinutes * 60
        && countdownStarted && countdownActive
      ensures unchanged(this`viewTimer, this`sessionCounted, this`registered)
    {
      if unlimited {
        return;
      }
      var total := timeMinutes * 60;
      countdownSeconds := total;
      initialCountdownSeconds := total;
      countdownStarted := true;
      countdownActive := true;
    }

    /** One firing of the countdown interval. */
    method Tick()
      requires Valid() && countdownActive
      modifies this
      ensures Valid()
      ensures countdownSeconds == CountdownTick(old(countdownSeconds))
      ensures countdownActive == KeepsTicking(old(countdownSeconds))
      ensures unchanged(this`initialCountdownSeconds, this`countdownStarted, this`viewTimer, this`sessionCounted, this`registered)
    {
      var next := countdownSeconds - 1;
      countdownSeconds := Max(0, next);
      if next <= 0 {
        countdownActive := false;
      }
    }

    /**
     * `startViewTimer`: always clears the pending timeout, then schedules one
     * only for an unanswered request card at `currentIndex` whose `itemId` has
     * not been counted in this session.
     */
    method StartViewTimer(itemId: int, currentIndex: int, selectedItems: seq<SessionItem>)
      requires Valid()
      modifies this
      ensures Valid()
      ensures var w := WatchedCard(currentIndex, selectedItems, true);
        viewTimer == if w.Some? && itemId !in sessionCounted then Some(PendingView(itemId, w.value)) else None
      ensures unchanged(this`countdownSeconds, this`initialCountdownSeconds, this`countdownStarted, this`countdownActive)
      ensures unchanged(this`sessionCounted, this`registered)
    {
      viewTimer := None;
      var w := WatchedCard(currentIndex, selectedItems, true);
      if w.None? {
        return;
      }
      if itemId in sessionCounted {
        return;
      }
      viewTimer := Some(PendingView(itemId, w.value));
    }

    /**
     * The pending timeout fires: if the watched card is the one for `startId`,
     * the id is counted and returned for the caller's `onRegister`.
     */
    method FireViewTimer() returns (reg: Option<int>)
      requires Valid() && viewTimer.Some?
      modifies this
      ensures Valid()
      ensures viewTimer.None?
      ensures var p := old(viewTimer).value;
        reg == (if p.watched.id == p.startId then Some(p.startId) else None)
      ensures reg.Some? ==> reg.value !in old(sessionCounted)
                            && sessionCounted == old(sessionCounted) + {reg.value}
                            && registered == old(registered) + [reg.value]
      ensures reg.None? ==> sessionCounted == old(sessionCounted) && registered == old(registered)
      ensures unchanged(this`countdownSeconds, this`initialCountdownSeconds, this`countdownStarted, this`countdownActive)
    {
      var p := viewTimer.value;
      viewTimer := None;
      reg := None;
      if p.watched.id == p.startId {
        DistinctSnoc(registered, p.startId);
        sessionCounted := sessionCounted + {p.startId};
        registered := registered + [p.startId];
        reg := Some(p.startId);
      }
    }

    /** `stopViewTimer`: drops the pending timeout, if any. */
    method StopViewTimer()
      requires Valid()
      modifies this
      ensures Valid() && viewTimer.None?
      ensures unchanged(this`countdownSeconds, this`initialCountdownSeconds, this`countdownStarted, this`countdownActive)
      ensures unchanged(this`sessionCounted, this`registered)
    {
      viewTimer := None;
    }

    /** `resetSessionCounted`: starts a new session of registrations. */
    method ResetSessionCounted()
      requires Valid()
      modifies this
      ensures Valid() && sessionCounted == {} && registered == []
      ensures unchanged(this`countdownSeconds, this`initialCountdownSeconds, this`countdownStarted, this`countdownActive, this`viewTimer)
    {
      sessionCounted := {};
      registered := [];
    }

    /** `getSessionPrayerCount`: the number of registrations made in this session. */
    function SessionPrayerCount(): (n: nat)
      reads this
      requires Valid()
      ensures n == |registered|
    {
      DistinctCardinality(registered);
      |sessionCounted|
    }

    function ProgressPercent(): (p: real)
      reads this
      ensures 0.0 <= p <= 100.0
      ensures initialCountdownSeconds <= 0 ==> p == 0.0
    {
      TimeProgressPercent(initialCountdownSeconds, countdownSeconds)
    }

    function Remaining(): (s: string)
      reads this
      ensures |s| > 4
    {
      FormatRemaining(countdownSeconds)
    }

    /** `destroy`: both handles are cleared; the counters stay. */
    method Destroy()
      requires Valid()
      modifies this
      ensures Valid() && !countdownActive && viewTimer.None?
      ensures unchanged(this`countdownSeconds, this`initialCountdownSeconds, this`countdownStarted)
      ensures unchanged(this`sessionCounted, this`registered)
    {
      countdownActive := false;
      viewTimer := None;
    }
  }
}
