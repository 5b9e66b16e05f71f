/**
 * The OpsEase submission-trend chart: the number of submissions made on each
 * of the last seven calendar days, oldest first, ending with today.
 */
module Charts {
  import opened Wrappers
  import opened Submissions

  /** One point of the chart: a local calendar day, numbered consecutively, and its count. */
  datatype DayCount = DayCount(day: int, count: nat)

  /**
   * The local calendar day a submission was made on: None when `createdAt` is
   * absent or empty, or when `midnightOf` (the local midnight of a date text,
   * as a day number) finds no valid date, since NaN equals no day.
   */
  function CreatedDay(s: Submission, midnightOf: string -> Option<int>): Option<int> {
    if s.createdAt.Some? && s.createdAt.value != "" then midnightOf(s.createdAt.value) else None
  }

  /** The number of submissions made on `day`. */
  function CountOn(subs: seq<Submission>, midnightOf: string -> Option<int>, day: int): (n: nat)
    ensures n <= |subs|
    decreases |subs|
  {
    if subs == [] then 0
    else CountOn(subs[..|subs| - 1], midnightOf, day) + (if CreatedDay(subs[|subs| - 1], midnightOf) == Some(day) then 1 else 0)
  }

  /** The chart the component draws: seven consecutive days ending with `today`, each with its count. */
  function Histogram(today: int, subs: seq<Submission>, midnightOf: string -> Option<int>): (chart: seq<DayCount>)
    ensures |chart| == 7 && chart[6].day == today
    ensures forall k :: 0 <= k < 6 ==> chart[k + 1].day == chart[k].day + 1
  {
    seq(7, k requires 0 <= k < 7 => DayCount(today - 6 + k, CountOn(subs, midnightOf, today - 6 + k)))
  }

  /**
   * `groupSubmissionsByDate`: builds the seven days with a count of 0, then
   * for each dated submission finds its day, if it is one of the seven, and
   * increments that day's count in place.
   */
  method GroupSubmissionsByDate(today: int, subs: seq<Submission>, midnightOf: string -> Option<int>)
    returns (chart: seq<DayCount>)
    ensures chart == Histogram(today, subs, midnightOf)
  {
    var last7Days := new DayCount[7];
    var i := 6;
    while i >= 0
      invariant -1 <= i <= 6
      invariant forall k :: 0 <= k < 6 - i ==> last7Days[k] == DayCount(today - 6 + k, 0)
    {
      last7Days[6 - i] := DayCount(today - i, 0);
      i := i - 1;
    }
    var j := 0;
    while j < |subs|
      invariant 0 <= j <= |subs|
      invariant forall k :: 0 <= k < 7 ==>
        last7Days[k] == DayCount(today - 6 + k, CountOn(subs[..j], midnightOf, today - 6 + k))
    {
      assert subs[..j + 1][..j] == subs[..j];
      AddToDay(last7Days, CreatedDay(subs[j], midnightOf));
      j := j + 1;
    }
    assert subs[..|subs|] == subs;
    chart := last7Days[..];
  }

  /**
   * The `forEach` callback: finds the entry of the submission's day, if it is
   * one of the entries, and increments its count. The days are distinct, so at
   * most one entry changes.
   */
  method AddToDay(last7Days: array<DayCount>, day: Option<int>)
    requires forall m, n :: 0 <= m < n < last7Days.Length ==> last7Days[m].day != last7Days[n].day
    modifies last7Days
    ensures forall k :: 0 <= k < last7Days.Length ==>
      last7Days[k] == old(last7Days[k]).(count := old(last7Days[k]).count + (if day == Some(old(last7Days[k]).day) then 1 else 0))
  {
    if day.Some? {
      var k := 0;
      while k < last7Days.Length && last7Days[k].day != day.value
        invariant 0 <= k <= last7Days.Length
        invariant forall m :: 0 <= m < k ==> last7Days[m].day != day.value
      {
        k := k + 1;
      }
      if k < last7Days.Length {
        last7Days[k] := last7Days[k].(count := last7Days[k].count + 1);
      }
    }
  }

  /** Whether the submission was made on one of the seven days ending with `today`. */
  predicate InWindow(s: Submission, midnightOf: string -> Option<int>, today: int) {
    var d := CreatedDay(s, midnightOf);
    d.Some? && today - 6 <= d.value <= today
  }

  /** `chartData.some(day => day.count > 0)` */
  predicate HasData(chart: seq<DayCount>) {
    exists k :: 0 <= k < |chart| && chart[k].count > 0
  }

  /** The chart has data exactly when some submission was made in the last seven days. */
  lemma HasDataIffRecent(today: int, subs: seq<Submission>, midnightOf: string -> Option<int>)
    ensures HasData(Histogram(today, subs, midnightOf)) <==>
      exists i :: 0 <= i < |subs| && InWindow(subs[i], midnightOf, today)
  {
    var chart := Histogram(today, subs, midnightOf);
    if HasData(chart) {
      var k :| 0 <= k < 7 && chart[k].count > 0;
      var i := CountedWitness(subs, midnightOf, today - 6 + k);
      assert InWindow(subs[i], midnightOf, today);
    }
    if exists i :: 0 <= i < |subs| && InWindow(subs[i], midnightOf, today) {
      var i :| 0 <= i < |subs| && InWindow(subs[i], midnightOf, today);
      var d := CreatedDay(subs[i], midnightOf).value;
      CountedPositive(subs, midnightOf, i);
      assert chart[d - (today - 6)].count > 0;
    }
  }

  /** A day with a positive count has a submission made on it. */
  lemma {:induction false} CountedWitness(subs: seq<Submission>, midnightOf: string -> Option<int>, day: int) returns (i: nat)
    requires CountOn(subs, midnightOf, day) > 0
    ensures i < |subs| && CreatedDay(subs[i], midnightOf) == Some(day)
    decreases |subs|
  {
    var n := |subs| - 1;
    if CreatedDay(subs[n], midnightOf) == Some(day) {
      i := n;
    } else {
      i := CountedWitness(subs[..n], midnightOf, day);
      assert subs[..n][i] == subs[i];
    }
  }

  /** A submission made on a day makes that day's count positive. */
  lemma {:induction false} CountedPositive(subs: seq<Submission>, midnightOf: string -> Option<int>, i: nat)
    requires i < |subs| && CreatedDay(subs[i], midnightOf).Some?
    ensures CountOn(subs, midnightOf, CreatedDay(subs[i], midnightOf).value) > 0
    decreases |subs|
  {
    var n := |subs| - 1;
    if i < n {
      assert subs[..n][i] == subs[i];
      CountedPositive(subs[..n], midnightOf, i);
    }
  }

  /** The "No data available" placeholder is shown exactly when there are no submissions at all. */
  lemma PlaceholderIffNoSubmissions(today: int, subs: seq<Submission>, midnightOf: string -> Option<int>)
    ensures (!HasData(Histogram(today, subs, midnightOf)) && |subs| == 0) <==> subs == []
  {
    if subs == [] {
      var chart := Histogram(today, subs, midnightOf);
      forall k | 0 <= k < 7
        ensures chart[k].count == 0
      {
        assert chart[k] == DayCount(today - 6 + k, CountOn(subs, midnightOf, today - 6 + k));
      }
    }
  }

  /** The sum of the counts of the first `n` days starting at `first`. */
  function SumCounts(subs: seq<Submission>, midnightOf: string -> Option<int>, first: int, n: nat): nat
    decreases n
  {
    if n == 0 then 0 else SumCounts(subs, midnightOf, first, n - 1) + CountOn(subs, midnightOf, first + n - 1)
  }

  /** The number of submissions made on one of the `n` days starting at `first`. */
  function CountInRange(subs: seq<Submission>, midnightOf: string -> Option<int>, first: int, n: nat): (c: nat)
    ensures c <= |subs|
    decreases |subs|
  {
    if subs == [] then 0
    else
      var d := CreatedDay(subs[|subs| - 1], midnightOf);
      CountInRange(subs[..|subs| - 1], midnightOf, first, n) + (if d.Some? && first <= d.value < first + n then 1 else 0)
  }

  /** Adding up the days counts every dated submission of the range once, since no submission is on two days. */
  lemma {:induction false} SumCountsInRange(subs: seq<Submission>, midnightOf: string -> Option<int>, first: int, n: nat)
    ensures SumCounts(subs, midnightOf, first, n) == CountInRange(subs, midnightOf, first, n)
    decreases |subs|
  {
    if subs == [] {
      SumCountsNoSubmissions(subs, midnightOf, first, n);
    } else {
      var init := subs[..|subs| - 1];
      SumCountsInRange(init, midnightOf, first, n);
      SumCountsSnoc(subs, midnightOf, first, n);
    }
  }

  lemma {:induction false} SumCountsNoSubmissions(subs: seq<Submission>, midnightOf: string -> Option<int>, first: int, n: nat)
    requires subs == []
    ensures SumCounts(subs, midnightOf, first, n) == 0
    decreases n
  {
    if n > 0 {
      SumCountsNoSubmissions(subs, midnightOf, first, n - 1);
    }
  }

  lemma {:induction false} SumCountsSnoc(subs: seq<Submission>, midnightOf: string -> Option<int>, first: int, n: nat)
    requires subs != []
    ensures var d := CreatedDay(subs[|subs| - 1], midnightOf);
      SumCounts(subs, midnightOf, first, n) ==
        SumCounts(subs[..|subs| - 1], midnightOf, first, n) + (if d.Some? && first <= d.value < first + n then 1 else 0)
    decreases n
  {
    if n > 0 {
      SumCountsSnoc(subs, midnightOf, first, n - 1);
    }
  }

  /** The chart's counts add up to the number of submissions of the last seven days, so never to more than were given. */
  lemma ChartTotal(today: int, subs: seq<Submission>, midnightOf: string -> Option<int>)
    ensures var chart := Histogram(today, subs, midnightOf);
      var total := chart[0].count + chart[1].count + chart[2].count + chart[3].count
        + chart[4].count + chart[5].count + chart[6].count;
      total == CountInRange(subs, midnightOf, today - 6, 7) && total <= |subs|
  {
    SumCountsInRange(subs, midnightOf, today - 6, 7);
  }
}
