/**
 * The stats card shown at the end of a session: averages, the prayer rate,
 * the session milestone and the duration label. All inputs are whole numbers;
 * divisions are exact before `Math.round`.
 */
module StatsCard {
  import opened Numbers
  import opened Text

  /**
   * The rounded average both getters compute: `averageTimePerPrayer` is
   * `Average(sessionDuration, prayerCount)` and `averageSessionLength` is
   * `Average(totalTimePrayed, totalSessions)`; 0 when there is nothing to
   * divide by.
   */
  function Average(total: int, count: int): (r: int)
    ensures count == 0 ==> r == 0
    ensures count != 0 ==>
      var q := total as real / count as real; r as real - 0.5 <= q < r as real + 0.5
  {
    if count == 0 then 0 else Round(total as real / count as real)
  }

  /** An exact multiple averages to its factor: `k * n` seconds over `n` prayers (or sessions) is `k` each. */
  lemma AverageOfExactMultiple(k: int, n: int)
    requires n != 0
    ensures Average(k * n, n) == k
  {
    assert (k * n) as real / n as real == k as real;
  }

  /** Averages of non-negative totals are non-negative. */
  lemma AverageNonNegative(total: int, n: int)
    requires total >= 0 && n > 0
    ensures Average(total, n) >= 0
  {
    RatioBounds(total as real, n as real);
    if total > 0 {
      assert total as real / n as real > 0.0;
    }
  }

  /** `prayerStreak`: the weekly session rate scaled to days, rounded. */
  function PrayerStreak(sessionsPerWeek: real): (r: int)
    ensures r as real - 0.5 <= sessionsPerWeek * 7.0 < r as real + 0.5
  {
    Round(sessionsPerWeek * 7.0)
  }

  /** A whole number of sessions a week gives seven times that streak, and a higher rate never a lower one. */
  lemma StreakOfRate(n: int, a: real, b: real)
    requires a <= b
    ensures PrayerStreak(n as real) == 7 * n
    ensures PrayerStreak(a) <= PrayerStreak(b)
  {
    assert (n as real) * 7.0 == (7 * n) as real;
  }

  /**
   * `prayerEfficiency` as written: 0 with no time prayed, else
   * `round(prayed / time * 60)`. The time is in seconds, so this is requests
   * per minute, not per hour.
   */
  function PrayerEfficiency(totalRequestsPrayed: int, totalTimePrayed: int): (r: int)
    ensures totalTimePrayed == 0 ==> r == 0
    ensures totalTimePrayed != 0 ==>
      var q := totalRequestsPrayed as real * 60.0 / totalTimePrayed as real; r as real - 0.5 <= q < r as real + 0.5
  {
    if totalTimePrayed == 0 then 0
    else
      assert (totalRequestsPrayed as real / totalTimePrayed as real) * 60.0
        == totalRequestsPrayed as real * 60.0 / totalTimePrayed as real;
      Round((totalRequestsPrayed as real / totalTimePrayed as real) * 60.0)
  }

  /** Sixty requests prayed over one hour (3600 seconds) rate 1, where the label promises 60 per hour. */
  lemma EfficiencyIsPerMinute()
    ensures PrayerEfficiency(60, 3600) == 1
    ensures PrayerEfficiencyPerHour(60, 3600) == 60
  {
    assert (60 as real / 3600 as real) * 60.0 == 1.0;
  }

  /** The rate the card labels: requests per hour, the time being in seconds. */
  function PrayerEfficiencyPerHour(totalRequestsPrayed: int, totalTimePrayed: int): (r: int)
    ensures totalTimePrayed == 0 ==> r == 0
    ensures totalTimePrayed != 0 ==>
      var q := totalRequestsPrayed as real * 3600.0 / totalTimePrayed as real; r as real - 0.5 <= q < r as real + 0.5
  {
    if totalTimePrayed == 0 then 0
    else Round(totalRequestsPrayed as real * 3600.0 / totalTimePrayed as real)
  }

  /** `k * h` requests over `h` whole hours rate `k` per hour. */
  lemma PerHourOfWholeHours(k: int, h: int)
    requires h > 0
    ensures PrayerEfficiencyPerHour(k * h, h * 3600) == k
  {
    assert (k * h) as real * 3600.0 / (h * 3600) as real == k as real;
  }

  /** How many of the thresholds 1, 10, 25, 50 and 100 the session count reaches. */
  function MilestoneLevel(totalSessions: int): (level: nat)
    ensures level <= 5
    ensures level == 0 <==> totalSessions < 1
    ensures level == 5 <==> totalSessions >= 100
  {
    if totalSessions >= 100 then 5
    else if totalSessions >= 50 then 4
    else if totalSessions >= 25 then 3
    else if totalSessions >= 10 then 2
    else if totalSessions >= 1 then 1
    else 0
  }

  const MilestoneLabels: seq<string> :=
    ["", "First Prayer!", "Bronze Prayer!", "Silver Prayer!", "Golden Prayer!", "Century of Prayer!"]

  /** `milestone`: the label of the highest threshold reached, '' below one session. */
  function Milestone(totalSessions: int): (s: string)
    ensures s == MilestoneLabels[MilestoneLevel(totalSessions)]
    ensures s == "" <==> totalSessions < 1
  {
    if totalSessions >= 100 then "Century of Prayer!"
    else if totalSessions >= 50 then "Golden Prayer!"
    else if totalSessions >= 25 then "Silver Prayer!"
    else if totalSessions >= 10 then "Bronze Prayer!"
    else if totalSessions >= 1 then "First Prayer!"
    else ""
  }

  /** More sessions never lower the milestone. */
  lemma MilestoneMonotone(a: int, b: int)
    requires a <= b
    ensures MilestoneLevel(a) <= MilestoneLevel(b)
  {
  }

  /** The five labels are distinct, so the label tells the level. */
  lemma MilestoneLabelsDistinct(a: int, b: int)
    requires Milestone(a) == Milestone(b)
    ensures MilestoneLevel(a) == MilestoneLevel(b)
  {
    assert |MilestoneLabels[0]| == 0 && |MilestoneLabels[1]| == 13 && |MilestoneLabels[5]| == 18;
    assert MilestoneLabels[2][0] == 'B' && MilestoneLabels[3][0] == 'S' && MilestoneLabels[4][0] == 'G';
  }

  /** `Math.floor(s / 60)` and JavaScript's `s % 60`. */
  function DurationParts(seconds: int): (r: (int, int))
    ensures seconds >= 0 ==> r.0 >= 0 && 0 <= r.1 < 60 && r.0 * 60 + r.1 == seconds
    ensures seconds < 0 ==> r.0 < 0 && -60 < r.1 <= 0
  {
    (seconds / 60, JsRem(seconds, 60))
  }

  /** `formatDuration`: 'Xm Ys' from a minute on, else 'Ys'. */
  function FormatDuration(seconds: int): (s: string)
    ensures |s| >= 2 && s[|s| - 1] == 's'
    ensures 'm' in s <==> seconds >= 60
  {
    var (mins, secs) := DurationParts(seconds);
    NoLetterInNumber(mins, 'm');
    NoLetterInNumber(secs, 'm');
    if mins > 0 then IntToString(mins) + "m " + IntToString(secs) + "s" else IntToString(secs) + "s"
  }

  /** A rendered number holds digits and possibly a minus sign, no letters. */
  lemma NoLetterInNumber(i: int, c: char)
    requires !IsDigit(c) && c != '-'
    ensures c !in IntToString(i)
  {
    var s := IntToString(i);
    forall k | 0 <= k < |s|
      ensures s[k] != c
    {
      if i < 0 && k > 0 {
        assert s[k] == s[1..][k - 1];
      }
    }
  }

  /** Under a minute the label is the seconds alone; from a minute on it splits off the whole minutes. */
  lemma FormatDurationSplits(seconds: int)
    requires seconds >= 0
    ensures seconds < 60 ==> FormatDuration(seconds) == IntToString(seconds) + "s"
    ensures seconds >= 60 ==>
      (FormatDuration(seconds) == IntToString(seconds / 60) + "m " + IntToString(seconds - 60 * (seconds / 60)) + "s")
  {
  }
}
