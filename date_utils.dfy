/**
 * `DateUtilsService`: the time span between a request's creation and its
 * answer, and the two answered-request captions. A date is its millisecond
 * timestamp together with the calendar year and month (0 to 11) that
 * `getFullYear`/`getMonth` report for it.
 */
module DateUtils {
  import opened Wrappers
  import opened Text

  datatype Instant = Instant(millis: int, year: int, month: int)

  const MillisPerDay := 1000 * 60 * 60 * 24

  /** `diffDays`: whole days between the two instants, rounded down. */
  function DiffDays(start: Instant, end: Instant): (d: int)
    ensures d * MillisPerDay <= end.millis - start.millis < (d + 1) * MillisPerDay
  {
    (end.millis - start.millis) / MillisPerDay
  }

  /** `diffMonths`: the calendar month difference, ignoring the day of the month. */
  function DiffMonths(start: Instant, end: Instant): (m: int)
    ensures end.year == start.year ==> m == end.month - start.month
  {
    (end.year - start.year) * 12 + (end.month - start.month)
  }

  /** `diffYears`: whole 365-day years, rounded down. */
  function DiffYears(start: Instant, end: Instant): (y: int)
    ensures y * 365 <= DiffDays(start, end) < (y + 1) * 365
  {
    DiffDays(start, end) / 365
  }

  /** `n unit` with the singular form for exactly one. */
  function Counted(n: int, unit: string): (s: string)
    ensures n == 1 ==> s == "1 " + unit
    ensures n != 1 ==> s == IntToString(n) + " " + unit + "s"
    ensures IsDigit(s[0]) || s[0] == '-'
  {
    if n == 1 then "1 " + unit else IntToString(n) + " " + unit + "s"
  }

  /** `getTimeSpan`: years if any, else calendar months if any, else days if any, else 'less than a day'. */
  function TimeSpan(start: Instant, end: Instant): (s: string)
    ensures DiffYears(start, end) > 0 ==> s == Counted(DiffYears(start, end), "year")
    ensures DiffYears(start, end) <= 0 && DiffMonths(start, end) > 0 ==> s == Counted(DiffMonths(start, end), "month")
    ensures DiffYears(start, end) <= 0 && DiffMonths(start, end) <= 0 && DiffDays(start, end) > 0 ==>
      s == Counted(DiffDays(start, end), "day")
    ensures s == "less than a day" <==>
      DiffYears(start, end) <= 0 && DiffMonths(start, end) <= 0 && DiffDays(start, end) <= 0
  {
    var days := DiffDays(start, end);
    var months := DiffMonths(start, end);
    var years := DiffYears(start, end);
    if years > 0 then Counted(years, "year")
    else if months > 0 then Counted(months, "month")
    else if days > 0 then Counted(days, "day")
    else "less than a day"
  }

  /** Within one calendar month, a span of at least a day is counted in days. */
  lemma SameMonthCountsDays(start: Instant, end: Instant)
    requires start.year == end.year && start.month == end.month
    requires MillisPerDay <= end.millis - start.millis < 365 * MillisPerDay
    ensures TimeSpan(start, end) == Counted(DiffDays(start, end), "day")
  {
    var d := DiffDays(start, end);
    assert 1 <= d < 365;
  }

  /** The four cases of the prayer card's tests. */
  lemma TimeSpanExamples()
    // 2020-01-01 to 2022-01-01: 731 days
    ensures TimeSpan(Instant(1577836800000, 2020, 0), Instant(1640995200000, 2022, 0)) == "2 years"
    // 1 January to 1 March 2025: 59 days over two calendar months
    ensures TimeSpan(Instant(1735689600000, 2025, 0), Instant(1740787200000, 2025, 2)) == "2 months"
    // 1 January to 5 January 2025
    ensures TimeSpan(Instant(1735689600000, 2025, 0), Instant(1736035200000, 2025, 0)) == "4 days"
    // 10:00 to 15:00 on 1 January 2025
    ensures TimeSpan(Instant(1735725600000, 2025, 0), Instant(1735743600000, 2025, 0)) == "less than a day"
  {
    assert DiffDays(Instant(1577836800000, 2020, 0), Instant(1640995200000, 2022, 0)) == 731;
    assert IntToString(2) == "2";
    assert DiffDays(Instant(1735689600000, 2025, 0), Instant(1740787200000, 2025, 2)) == 59;
    assert DiffDays(Instant(1735689600000, 2025, 0), Instant(1736035200000, 2025, 0)) == 4;
    assert IntToString(4) == "4";
    assert DiffDays(Instant(1735725600000, 2025, 0), Instant(1735743600000, 2025, 0)) == 0;
  }

  /**
   * `formatAnsweredSummary`: '' when the count is missing or 0 or either date
   * is missing; otherwise how often and over how long the request was prayed.
   */
  function AnsweredSummary(prayerCount: Option<int>, created: Option<Instant>, answered: Option<Instant>): (s: string)
    ensures prayerCount.None? || prayerCount == Some(0) || created.None? || answered.None? ==> s == ""
    ensures prayerCount.Some? && prayerCount.value != 0 && created.Some? && answered.Some? ==>
      s == "Prayed " + Counted(prayerCount.value, "time") + " over " + TimeSpan(created.value, answered.value)
  {
    if prayerCount.None? || prayerCount.value == 0 || created.None? || answered.None? then ""
    else "Prayed " + Counted(prayerCount.value, "time") + " over " + TimeSpan(created.value, answered.value)
  }

  /** A summary is produced exactly when all three inputs are present and the count is non-zero. */
  lemma AnsweredSummaryPresent(prayerCount: Option<int>, created: Option<Instant>, answered: Option<Instant>)
    ensures AnsweredSummary(prayerCount, created, answered) != "" <==>
      prayerCount.Some? && prayerCount.value != 0 && created.Some? && answered.Some?
    ensures AnsweredSummary(Some(1), created, answered) != "" ==>
      AnsweredSummary(Some(1), created, answered)[..13] == "Prayed 1 time"
  {
    var s := AnsweredSummary(prayerCount, created, answered);
    if prayerCount.Some? && prayerCount.value != 0 && created.Some? && answered.Some? {
      assert s[0] == 'P';
    }
  }

  /**
   * `formatAnsweredDateText`: '' unless the request is answered and has a
   * (non-empty) date; `render` is `toLocaleDateString` of that date.
   */
  function AnsweredDateText(isAnswered: bool, answeredDate: Option<string>, render: string -> string): (s: string)
    ensures !isAnswered || answeredDate.None? || answeredDate == Some("") ==> s == ""
    ensures isAnswered && answeredDate.Some? && answeredDate.value != "" ==>
      |s| >= 9 && s[..9] == "Answered " && s[9..] == render(answeredDate.value)
  {
    if !isAnswered || answeredDate.None? || answeredDate.value == "" then ""
    else "Answered " + render(answeredDate.value)
  }
}
