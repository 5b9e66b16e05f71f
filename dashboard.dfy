/**
 * The "Recent Activity" list of the OpsEase dashboard: how long ago each
 * submission was made, in the coarsest unit that fits, and its status badge.
 */
module Dashboard {
  import opened Text

  /** A submission's `createdAt` as `getTimeAgo` sees it: absent, not a valid date, or made `ms` milliseconds before now. */
  datatype Stamp = Missing | Invalid | Elapsed(ms: int)

  /** The phrase chosen; `CalendarDate` is the date itself, printed as month and day. */
  datatype Ago =
    | Unknown
    | JustNow
    | MinutesAgo(n: nat)
    | HoursAgo(n: nat)
    | DaysAgo(n: nat)
    | WeeksAgo(n: nat)
    | CalendarDate

  const MinuteMs: int := 60_000
  const HourMs: int := 3_600_000
  const DayMs: int := 86_400_000
  const WeekMs: int := 604_800_000

  /**
   * `getTimeAgo`. Every `Math.floor` of a division by a positive constant is
   * Dafny's `/`. A date that does not parse makes every comparison with NaN
   * false, so it falls through to the calendar date.
   */
  function TimeAgo(stamp: Stamp): (a: Ago)
    ensures stamp.Missing? <==> a.Unknown?
    ensures stamp.Invalid? ==> a.CalendarDate?
  {
    match stamp
    case Missing => Unknown
    case Invalid => CalendarDate
    case Elapsed(ms) =>
      var minutes := ms / MinuteMs;
      var hours := ms / HourMs;
      var days := hours / 24;
      if minutes < 1 then JustNow
      else if minutes < 60 then MinutesAgo(minutes)
      else if hours < 24 then HoursAgo(hours)
      else if days < 7 then DaysAgo(days)
      else
        var weeks := days / 7;
        if weeks < 4 then WeeksAgo(weeks) else CalendarDate
  }

  /**
   * The phrase for an elapsed time names the unit whose band holds it and
   * the whole number of those units: under a minute (a date in the future
   * included) is "Just now", and four weeks or more is the calendar date.
   */
  lemma TimeAgoBands(ms: int)
    ensures TimeAgo(Elapsed(ms)) == JustNow <==> ms < MinuteMs
    ensures TimeAgo(Elapsed(ms)).MinutesAgo? <==> MinuteMs <= ms < HourMs
    ensures TimeAgo(Elapsed(ms)).HoursAgo? <==> HourMs <= ms < DayMs
    ensures TimeAgo(Elapsed(ms)).DaysAgo? <==> DayMs <= ms < WeekMs
    ensures TimeAgo(Elapsed(ms)).WeeksAgo? <==> WeekMs <= ms < 4 * WeekMs
    ensures TimeAgo(Elapsed(ms)) == CalendarDate <==> 4 * WeekMs <= ms
  {
    DaysOfHours(ms);
  }

  /** The number in a phrase is the elapsed time in whole units, at least 1 and below the next unit. */
  lemma TimeAgoCounts(ms: int)
    ensures var a := TimeAgo(Elapsed(ms));
      && (a.MinutesAgo? ==> 1 <= a.n < 60 && a.n * MinuteMs <= ms < (a.n + 1) * MinuteMs)
      && (a.HoursAgo? ==> 1 <= a.n < 24 && a.n * HourMs <= ms < (a.n + 1) * HourMs)
      && (a.DaysAgo? ==> 1 <= a.n < 7 && a.n * DayMs <= ms < (a.n + 1) * DayMs)
      && (a.WeeksAgo? ==> 1 <= a.n < 4 && a.n * WeekMs <= ms < (a.n + 1) * WeekMs)
  {
    DaysOfHours(ms);
  }

  /** Flooring to hours and then to days is flooring to days; likewise days to weeks. */
  lemma DaysOfHours(ms: int)
    ensures (ms / HourMs) / 24 == ms / DayMs
    ensures ((ms / HourMs) / 24) / 7 == ms / WeekMs
  {
  }

  /** The bands in order, coarsest last. */
  function Rank(a: Ago): nat {
    match a
    case Unknown => 0
    case JustNow => 1
    case MinutesAgo(_) => 2
    case HoursAgo(_) => 3
    case DaysAgo(_) => 4
    case WeeksAgo(_) => 5
    case CalendarDate => 6
  }

  /** An older submission never gets a finer phrase, nor a smaller number in the same unit. */
  lemma TimeAgoMonotone(ms1: int, ms2: int)
    requires ms1 <= ms2
    ensures Rank(TimeAgo(Elapsed(ms1))) <= Rank(TimeAgo(Elapsed(ms2)))
    ensures var a1 := TimeAgo(Elapsed(ms1)); var a2 := TimeAgo(Elapsed(ms2));
      Rank(a1) == Rank(a2) && (a1.MinutesAgo? || a1.HoursAgo? || a1.DaysAgo? || a1.WeeksAgo?) ==> a1.n <= a2.n
  {
    TimeAgoBands(ms1);
    TimeAgoBands(ms2);
    DaysOfHours(ms1);
    DaysOfHours(ms2);
  }

  /** `${n} unit${n > 1 ? 's' : ''} ago` */
  function Phrase(n: nat, unit: string): string {
    NatToString(n) + " " + unit + (if n > 1 then "s" else "") + " ago"
  }

  /** The text shown; `calendarText` is what `toLocaleDateString` prints for the date. */
  function Render(a: Ago, calendarText: string): (r: string)
    ensures a.Unknown? ==> r == "Unknown"
    ensures a.JustNow? ==> r == "Just now"
    ensures a.CalendarDate? ==> r == calendarText
    ensures a.MinutesAgo? || a.HoursAgo? || a.DaysAgo? || a.WeeksAgo? ==>
      && NatToString(a.n) + " " <= r
      && |r| >= 5 && r[|r| - 4..] == " ago"
      && (r[|r| - 5] == 's' <==> a.n > 1)
  {
    match a
    case Unknown => "Unknown"
    case JustNow => "Just now"
    case MinutesAgo(n) => Phrase(n, "minute")
    case HoursAgo(n) => Phrase(n, "hour")
    case DaysAgo(n) => Phrase(n, "day")
    case WeeksAgo(n) => Phrase(n, "week")
    case CalendarDate => calendarText
  }

  /** The unit is singular for exactly one and plural otherwise. */
  lemma PhrasePlural(n: nat, unit: string)
    ensures n == 1 ==> Phrase(n, unit) == "1 " + unit + " ago"
    ensures n > 1 ==> Phrase(n, unit) == NatToString(n) + " " + unit + "s ago"
  {
    if n == 1 {
      assert NatToString(1) == "1";
    }
  }

  /** Ninety seconds is "1 minute ago" and three hours is "3 hours ago". */
  lemma SampleTexts()
    ensures Render(TimeAgo(Elapsed(90_000)), "") == "1 minute ago"
    ensures Render(TimeAgo(Elapsed(3 * HourMs)), "") == "3 hours ago"
  {
    assert TimeAgo(Elapsed(90_000)) == MinutesAgo(1);
    PhrasePlural(1, "minute");
    assert "1 " + "minute" + " ago" == "1 minute ago";
    assert TimeAgo(Elapsed(3 * HourMs)) == HoursAgo(3);
    PhrasePlural(3, "hour");
    assert NatToString(3) == "3";
    assert "3" + " " + "hour" + "s ago" == "3 hours ago";
  }
}
