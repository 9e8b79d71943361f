/**
 * `PrayerStats`: the cumulative prayer statistics (time prayed, requests
 * prayed and answered, number of sessions, first and last session). Dates are
 * millisecond timestamps; `None` is a null, missing or empty date.
 */
module Stats {
  import opened Wrappers
  import opened Numbers

  /** The six values the service keeps. */
  datatype StatsRecord = StatsRecord(
    totalTimePrayed: int,        // seconds
    totalRequestsPrayed: int,
    totalRequestsAnswered: int,
    totalSessions: int,
    firstSessionDate: Option<int>,
    lastSessionDate: Option<int>)

  /** A stats object from storage or an import: every field may be missing. */
  datatype StatsInput = StatsInput(
    totalTimePrayed: Option<int>,
    totalRequestsPrayed: Option<int>,
    totalRequestsAnswered: Option<int>,
    totalSessions: Option<int>,
    firstSessionDate: Option<int>,
    lastSessionDate: Option<int>)

  const ZeroStats := StatsRecord(0, 0, 0, 0, None, None)

  const MillisPerDay := 86400000

  /** `setAllStats` (and the storage load): each field, or 0 / null when it is missing or falsy. */
  function FromInput(i: StatsInput): (s: StatsRecord)
    ensures s.totalTimePrayed == NumberOr(i.totalTimePrayed, 0)
    ensures s.totalRequestsPrayed == NumberOr(i.totalRequestsPrayed, 0)
    ensures s.totalRequestsAnswered == NumberOr(i.totalRequestsAnswered, 0)
    ensures s.totalSessions == NumberOr(i.totalSessions, 0)
    ensures s.firstSessionDate == i.firstSessionDate && s.lastSessionDate == i.lastSessionDate
    ensures i == StatsInput(None, None, None, None, None, None) ==> s == ZeroStats
  {
    StatsRecord(
      NumberOr(i.totalTimePrayed, 0),
      NumberOr(i.totalRequestsPrayed, 0),
      NumberOr(i.totalRequestsAnswered, 0),
      NumberOr(i.totalSessions, 0),
      i.firstSessionDate,
      i.lastSessionDate)
  }

  /** The stats object the getters expose, as the export writes it. */
  function ToInput(s: StatsRecord): (i: StatsInput)
    ensures i.totalSessions == Some(s.totalSessions)
    ensures i.firstSessionDate == s.firstSessionDate && i.lastSessionDate == s.lastSessionDate
  {
    StatsInput(Some(s.totalTimePrayed), Some(s.totalRequestsPrayed), Some(s.totalRequestsAnswered),
               Some(s.totalSessions), s.firstSessionDate, s.lastSessionDate)
  }

  /** Exporting the stats and setting them back gives the same stats. */
  lemma ExportThenSetAll(s: StatsRecord)
    ensures FromInput(ToInput(s)) == s
  {
  }

  /** `addSession` at time `now`: one more session; the first date is set only if unset, the last always. */
  function AfterSession(s: StatsRecord, now: int): (r: StatsRecord)
    ensures r.totalSessions == s.totalSessions + 1
    ensures r.firstSessionDate.Some? && r.lastSessionDate == Some(now)
    ensures s.firstSessionDate.Some? ==> r.firstSessionDate == s.firstSessionDate
    ensures s.firstSessionDate.None? ==> r.firstSessionDate == Some(now)
    ensures r.totalTimePrayed == s.totalTimePrayed && r.totalRequestsPrayed == s.totalRequestsPrayed
      && r.totalRequestsAnswered == s.totalRequestsAnswered
  {
    s.(totalSessions := s.totalSessions + 1,
       firstSessionDate := if s.firstSessionDate.None? then Some(now) else s.firstSessionDate,
       lastSessionDate := Some(now))
  }

  /** Sessions recorded in clock order keep the first date at or before the last. */
  lemma AfterSessionKeepsDatesOrdered(s: StatsRecord, now: int)
    requires s.firstSessionDate.Some? ==> s.lastSessionDate.Some? && s.firstSessionDate.value <= s.lastSessionDate.value
    requires s.lastSessionDate.Some? ==> s.lastSessionDate.value <= now
    ensures var r := AfterSession(s, now); r.firstSessionDate.value <= r.lastSessionDate.value
  {
  }

  /** A second session never moves the first date. */
  lemma FirstDateFixedAfterFirstSession(s: StatsRecord, t1: int, t2: int)
    ensures AfterSession(AfterSession(s, t1), t2).firstSessionDate == AfterSession(s, t1).firstSessionDate
    ensures AfterSession(AfterSession(s, t1), t2).totalSessions == s.totalSessions + 2
  {
  }

  /** `a / d` lies in `[0, a]` for `a >= 0` and `d >= 1`. */
  lemma QuotientAtMost(a: real, d: real)
    requires a >= 0.0 && d >= 1.0
    ensures 0.0 <= a / d <= a
  {
    var q := a / d;
    assert q * d == a;
    assert q >= 0.0;
    assert a - q == q * (d - 1.0);
  }

  /**
   * `getSessionsPerWeek`: the session count itself when a date is missing or
   * there is at most one session; otherwise the count divided by the weeks
   * between the two dates, at least one week.
   */
  function SessionsPerWeek(s: StatsRecord): (r: real)
    ensures s.firstSessionDate.None? || s.lastSessionDate.None? || s.totalSessions <= 1 ==> r == s.totalSessions as real
    ensures s.firstSessionDate.Some? && s.lastSessionDate.Some? && s.totalSessions > 1 ==>
      0.0 < r <= s.totalSessions as real
  {
    if s.firstSessionDate.None? || s.lastSessionDate.None? || s.totalSessions <= 1 then
      s.totalSessions as real
    else
      var daysDiff := (s.lastSessionDate.value - s.firstSessionDate.value) as real / MillisPerDay as real;
      var weeks := MaxReal(daysDiff / 7.0, 1.0);
      QuotientAtMost(s.totalSessions as real, weeks);
      var r := s.totalSessions as real / weeks;
      assert r * weeks == s.totalSessions as real;
      r
  }

  /** Sessions within one week of each other: the rate is the session count. */
  lemma SessionsWithinAWeek(s: StatsRecord)
    requires s.firstSessionDate.Some? && s.lastSessionDate.Some? && s.totalSessions > 1
    requires s.lastSessionDate.value - s.firstSessionDate.value <= 7 * MillisPerDay
    ensures SessionsPerWeek(s) == s.totalSessions as real
  {
    var daysDiff := (s.lastSessionDate.value - s.firstSessionDate.value) as real / MillisPerDay as real;
    assert daysDiff <= 7.0;
    assert daysDiff / 7.0 <= 1.0;
  }

  class PrayerStats {
    var totalTimePrayed: int
    var totalRequestsPrayed: int
    var totalRequestsAnswered: int
    var totalSessions: int
    var firstSessionDate: Option<int>
    var lastSessionDate: Option<int>

    /** The getters, together. */
    function Snapshot(): StatsRecord
      reads this
    {
      StatsRecord(totalTimePrayed, totalRequestsPrayed, totalRequestsAnswered, totalSessions,
                  firstSessionDate, lastSessionDate)
    }

    /** Construction loads the stored object, if there is one. */
    constructor (stored: Option<StatsInput>)
      ensures stored.None? ==> Snapshot() == ZeroStats
      ensures stored.Some? ==> Snapshot() == FromInput(stored.value)
    {
      var s := if stored.Some? then FromInput(stored.value) else ZeroStats;
      totalTimePrayed := s.totalTimePrayed;
      totalRequestsPrayed := s.totalRequestsPrayed;
      totalRequestsAnswered := s.totalRequestsAnswered;
      totalSessions := s.totalSessions;
      firstSessionDate := s.firstSessionDate;
      lastSessionDate := s.lastSessionDate;
    }

    method AddSessionTime(seconds: int)
      modifies this`totalTimePrayed
      ensures Snapshot() == old(Snapshot()).(totalTimePrayed := old(totalTimePrayed) + seconds)
    {
      totalTimePrayed := totalTimePrayed + seconds;
    }

    method AddSessionRequestsPrayed(count: int)
      modifies this`totalRequestsPrayed
      ensures Snapshot() == old(Snapshot()).(totalRequestsPrayed := old(totalRequestsPrayed) + count)
    {
      totalRequestsPrayed := totalRequestsPrayed + count;
    }

    method AddRequestsAnswered(count: int)
      modifies this`totalRequestsAnswered
      ensures Snapshot() == old(Snapshot()).(totalRequestsAnswered := old(totalRequestsAnswered) + count)
    {
      totalRequestsAnswered := totalRequestsAnswered + count;
    }

    /** `addSession`; `now` is the clock reading. */
    method AddSession(now: int)
      modifies this`totalSessions, this`firstSessionDate, this`lastSessionDate
      ensures Snapshot() == AfterSession(old(Snapshot()), now)
    {
      totalSessions := totalSessions + 1;
      if firstSessionDate.None? {
        firstSessionDate := Some(now);
      }
      lastSessionDate := Some(now);
    }

    method ResetStats()
      modifies this
      ensures Snapshot() == ZeroStats
    {
      totalTimePrayed := 0;
      totalRequestsPrayed := 0;
      totalRequestsAnswered := 0;
      totalSessions := 0;
      firstSessionDate := None;
      lastSessionDate := None;
    }

    method SetAllStats(stats: StatsInput)
      modifies this
      ensures Snapshot() == FromInput(stats)
    {
      totalTimePrayed := NumberOr(stats.totalTimePrayed, 0);
      totalRequestsPrayed := NumberOr(stats.totalRequestsPrayed, 0);
      totalRequestsAnswered := NumberOr(stats.totalRequestsAnswered, 0);
      totalSessions := NumberOr(stats.totalSessions, 0);
      firstSessionDate := stats.firstSessionDate;
      lastSessionDate := stats.lastSessionDate;
    }

    function GetSessionsPerWeek(): (r: real)
      reads this
      ensures firstSessionDate.None? || lastSessionDate.None? || totalSessions <= 1 ==> r == totalSessions as real
      ensures r <= Max(totalSessions, 0) as real
    {
      SessionsPerWeek(Snapshot())
    }
  }
}
