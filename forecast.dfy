/**
 * The client-side forecast summariser `getThreeDayForecast`
 * (public/script.js): 3-hourly samples are grouped into buckets by
 * day-of-month, today's bucket is skipped, and the first three remaining
 * buckets, in ascending day-of-month order, are summarised by a weekday name,
 * a rounded mean temperature and the modal icon and condition label.
 *
 * The local clock is a parameter: each sample carries its local
 * day-of-month, and the caller supplies today's day-of-month and weekday.
 */
module Forecast {
  import Mode

  type DayOfMonth = d: int | 1 <= d <= 31 witness 1
  /** 0 is Sunday, as `Date.prototype.getDay` counts. */
  type WeekdayIndex = w: int | 0 <= w < 7 witness 0

  /** One 3-hourly forecast entry: its local day-of-month, `main.temp`,
      `weather[0].icon` and `weather[0].main`. */
  datatype Sample = Sample(day: DayOfMonth, temp: real, icon: string, weather: string)

  /** The per-day lists the summariser builds up with `push`. */
  datatype Bucket = Bucket(temps: seq<real>, icons: seq<string>, weathers: seq<string>)

  /** One entry of the result: weekday name, rounded mean temperature,
      modal icon and modal condition label. */
  datatype DaySummary = DaySummary(day: string, temp: int, icon: string, weather: string)

  const DayNames: seq<string> := ["Sun", "Mon", "Tue", "Wed", "Thu", "Fri", "Sat"]

  // ---------------------------------------------------------------- grouping

  /** The samples of day `d`, in input order. */
  function SamplesOn(samples: seq<Sample>, d: int): seq<Sample>
  {
    if samples == [] then []
    else
      var last := samples[|samples| - 1];
      SamplesOn(samples[..|samples| - 1], d) + (if last.day == d then [last] else [])
  }

  function Temps(ss: seq<Sample>): seq<real>
  {
    seq(|ss|, k requires 0 <= k < |ss| => ss[k].temp)
  }

  function Icons(ss: seq<Sample>): seq<string>
  {
    seq(|ss|, k requires 0 <= k < |ss| => ss[k].icon)
  }

  function Weathers(ss: seq<Sample>): seq<string>
  {
    seq(|ss|, k requires 0 <= k < |ss| => ss[k].weather)
  }

  /** The bucket of day `d`: one entry per sample of that day in each list. */
  function BucketOf(samples: seq<Sample>, d: int): (b: Bucket)
    ensures |b.temps| == |b.icons| == |b.weathers| == |SamplesOn(samples, d)|
    ensures forall k :: 0 <= k < |b.temps| ==>
      var x := SamplesOn(samples, d)[k];
      b.temps[k] == x.temp && b.icons[k] == x.icon && b.weathers[k] == x.weather
  {
    var ss := SamplesOn(samples, d);
    Bucket(Temps(ss), Icons(ss), Weathers(ss))
  }

  /** A sample lands in the bucket of day `d` exactly when it is an input
      sample of that day. */
  lemma {:induction false} SamplesOnMembership(samples: seq<Sample>, d: int, x: Sample)
    ensures x in SamplesOn(samples, d) <==> x in samples && x.day == d
  {
    if samples != [] {
      var init := samples[..|samples| - 1];
      SamplesOnMembership(init, d, x);
      assert samples == init + [samples[|samples| - 1]];
    }
  }

  /** Grouping keeps input order: the bucket of a concatenation is the
      bucket of the first part followed by that of the second. */
  lemma {:induction false} SamplesOnAppend(s1: seq<Sample>, s2: seq<Sample>, d: int)
    ensures SamplesOn(s1 + s2, d) == SamplesOn(s1, d) + SamplesOn(s2, d)
    decreases |s2|
  {
    if s2 == [] {
      assert s1 + s2 == s1;
    } else {
      var init := s2[..|s2| - 1];
      assert (s1 + s2)[..|s1 + s2| - 1] == s1 + init;
      SamplesOnAppend(s1, init, d);
    }
  }

  /** Sum of the bucket sizes of days `d` to 31. */
  function BucketSizesFrom(samples: seq<Sample>, d: int): nat
    requires 1 <= d <= 32
    decreases 32 - d
  {
    if d == 32 then 0 else |SamplesOn(samples, d)| + BucketSizesFrom(samples, d + 1)
  }

  lemma {:induction false} BucketSizesFromSnoc(samples: seq<Sample>, x: Sample, d: int)
    requires 1 <= d <= 32
    ensures BucketSizesFrom(samples + [x], d)
         == BucketSizesFrom(samples, d) + (if d <= x.day then 1 else 0)
    decreases 32 - d
  {
    assert (samples + [x])[..|samples + [x]| - 1] == samples;
    if d < 32 {
      BucketSizesFromSnoc(samples, x, d + 1);
    }
  }

  lemma {:induction false} BucketSizesFromEmpty(d: int)
    requires 1 <= d <= 32
    ensures BucketSizesFrom([], d) == 0
    decreases 32 - d
  {
    if d < 32 {
      BucketSizesFromEmpty(d + 1);
    }
  }

  /** The buckets partition the input: every sample is in exactly one of the
      31 buckets, so their sizes add up to the number of samples. */
  lemma {:induction false} BucketsPartitionSamples(samples: seq<Sample>)
    ensures BucketSizesFrom(samples, 1) == |samples|
  {
    if samples == [] {
      BucketSizesFromEmpty(1);
    } else {
      var init := samples[..|samples| - 1];
      var last := samples[|samples| - 1];
      BucketsPartitionSamples(init);
      assert samples == init + [last];
      BucketSizesFromSnoc(init, last, 1);
      assert BucketSizesFrom(samples, 1) == BucketSizesFrom(init + [last], 1);
    }
  }

  lemma BucketOfSnoc(samples: seq<Sample>, x: Sample, d: int)
    ensures BucketOf(samples + [x], d)
         == if x.day == d
            then Bucket(BucketOf(samples, d).temps + [x.temp],
                        BucketOf(samples, d).icons + [x.icon],
                        BucketOf(samples, d).weathers + [x.weather])
            else BucketOf(samples, d)
  {
    assert (samples + [x])[..|samples + [x]| - 1] == samples;
  }

  /**
   * The grouping pass: one bucket per day-of-month that has a sample, each
   * sample pushed onto its own day's three lists in input order.
   */
  method GroupByDay(samples: seq<Sample>) returns (buckets: map<DayOfMonth, Bucket>)
    ensures forall d: DayOfMonth :: d in buckets <==> SamplesOn(samples, d) != []
    ensures forall d :: d in buckets ==> buckets[d] == BucketOf(samples, d)
  {
    buckets := map[];
    for i := 0 to |samples|
      invariant forall d: DayOfMonth :: d in buckets <==> SamplesOn(samples[..i], d) != []
      invariant forall d :: d in buckets ==> buckets[d] == BucketOf(samples[..i], d)
    {
      var item := samples[i];
      assert samples[..i + 1] == samples[..i] + [item];
      forall d ensures BucketOf(samples[..i + 1], d)
          == if item.day == d
             then Bucket(BucketOf(samples[..i], d).temps + [item.temp],
                         BucketOf(samples[..i], d).icons + [item.icon],
                         BucketOf(samples[..i], d).weathers + [item.weather])
             else BucketOf(samples[..i], d)
      {
        BucketOfSnoc(samples[..i], item, d);
      }
      if item.day !in buckets {
        buckets := buckets[item.day := Bucket([], [], [])];
      }
      var b := buckets[item.day];
      buckets := buckets[item.day := Bucket(b.temps + [item.temp], b.icons + [item.icon], b.weathers + [item.weather])];
    }
    assert samples[..|samples|] == samples;
  }

  // ------------------------------------------------------- which days show

  /** Day `d` has a bucket and is not today. */
  predicate Eligible(samples: seq<Sample>, today: int, d: int)
  {
    d != today && SamplesOn(samples, d) != []
  }

  /**
   * The eligible days below `hi`, in the order the bucket keys are
   * enumerated: integer-like property keys of a plain object come out in
   * ascending numeric order, whatever order they were inserted in.
   */
  function UpcomingBelow(samples: seq<Sample>, today: int, hi: int): seq<DayOfMonth>
    requires 1 <= hi <= 32
  {
    if hi == 1 then []
    else UpcomingBelow(samples, today, hi - 1)
         + (if Eligible(samples, today, hi - 1) then [hi - 1] else [])
  }

  function Take<T>(s: seq<T>, n: nat): seq<T>
  {
    if |s| <= n then s else s[..n]
  }

  /** The days the summariser reports: the first three eligible ones. */
  function ForecastDays(samples: seq<Sample>, today: int): (r: seq<DayOfMonth>)
    ensures |r| <= 3
    ensures forall d :: d in r ==> d != today && SamplesOn(samples, d) != []
  {
    var all := UpcomingBelow(samples, today, 32);
    UpcomingBelowSpec(samples, today, 32);
    assert forall d :: d in Take(all, 3) ==> d in all by {
      forall d | d in Take(all, 3) ensures d in all {
        var k :| 0 <= k < |Take(all, 3)| && Take(all, 3)[k] == d;
        assert all[k] == d;
      }
    }
    Take(all, 3)
  }

  /** The enumeration lists every eligible day below `hi` once, ascending,
      and nothing else. */
  lemma {:induction false} UpcomingBelowSpec(samples: seq<Sample>, today: int, hi: int)
    requires 1 <= hi <= 32
    ensures forall i, j :: 0 <= i < j < |UpcomingBelow(samples, today, hi)| ==>
      UpcomingBelow(samples, today, hi)[i] < UpcomingBelow(samples, today, hi)[j]
    ensures forall d :: d in UpcomingBelow(samples, today, hi) <==>
      1 <= d < hi && Eligible(samples, today, d)
  {
    if hi > 1 {
      UpcomingBelowSpec(samples, today, hi - 1);
      var before := UpcomingBelow(samples, today, hi - 1);
      var after := UpcomingBelow(samples, today, hi);
      forall i, j | 0 <= i < j < |after| ensures after[i] < after[j] {
        if j == |before| {
          assert after[i] == before[i] && before[i] in before;
        }
      }
    }
  }

  /**
   * At most three days are reported, none of them today, each with a
   * bucket, in ascending order; an eligible day is left out only when three
   * earlier eligible days were reported (skipping today uses up no place).
   */
  lemma ForecastDaysSpec(samples: seq<Sample>, today: int)
    ensures |ForecastDays(samples, today)| <= 3
    ensures forall d :: d in ForecastDays(samples, today) ==>
      d != today && SamplesOn(samples, d) != []
    ensures forall i, j :: 0 <= i < j < |ForecastDays(samples, today)| ==>
      ForecastDays(samples, today)[i] < ForecastDays(samples, today)[j]
    ensures forall d :: 1 <= d <= 31 && Eligible(samples, today, d) && d !in ForecastDays(samples, today) ==>
      |ForecastDays(samples, today)| == 3 && forall e :: e in ForecastDays(samples, today) ==> e < d
  {
    var all := UpcomingBelow(samples, today, 32);
    UpcomingBelowSpec(samples, today, 32);
    var f := ForecastDays(samples, today);
    assert forall k :: 0 <= k < |f| ==> f[k] == all[k];
    forall d | d in f ensures d in all {
      var i :| 0 <= i < |f| && f[i] == d;
      assert all[i] == d;
    }
    forall d | 1 <= d <= 31 && Eligible(samples, today, d) && d !in f
      ensures |f| == 3 && forall e :: e in f ==> e < d
    {
      var j :| 0 <= j < |all| && all[j] == d;
      assert j >= 3;
      forall e | e in f ensures e < d {
        var i :| 0 <= i < |f| && f[i] == e;
      }
    }
  }

  /** An empty sample list reports no days. */
  lemma NoSamplesNoDays(today: int)
    ensures ForecastDays([], today) == []
  {
    UpcomingBelowSkip([], today, 1, 32);
  }

  /** If no day in `lo .. hi-1` is eligible, the enumeration adds nothing there. */
  lemma {:induction false} UpcomingBelowSkip(samples: seq<Sample>, today: int, lo: int, hi: int)
    requires 1 <= lo <= hi <= 32
    requires forall d :: lo <= d < hi ==> !Eligible(samples, today, d)
    ensures UpcomingBelow(samples, today, hi) == UpcomingBelow(samples, today, lo)
    decreases hi - lo
  {
    if lo < hi {
      UpcomingBelowSkip(samples, today, lo, hi - 1);
    }
  }

  /**
   * Across a month end the enumeration is by day-of-month, not by date:
   * with samples for days 30, 31, 1, 2, 3 and today the 30th, the reported
   * days are the 1st, 2nd and 3rd, and the 31st is dropped.
   */
  lemma MonthEndOrder(samples: seq<Sample>)
    requires |samples| == 5
    requires samples[0].day == 30 && samples[1].day == 31 && samples[2].day == 1
    requires samples[3].day == 2 && samples[4].day == 3
    ensures ForecastDays(samples, 30) == [1, 2, 3]
  {
    forall d ensures Eligible(samples, 30, d) <==> d in {1, 2, 3, 31} {
      if SamplesOn(samples, d) != [] {
        SamplesOnMembership(samples, d, SamplesOn(samples, d)[0]);
      }
      if d in {1, 2, 3, 31} {
        var i := if d == 31 then 1 else d + 1;
        SamplesOnMembership(samples, d, samples[i]);
      }
    }
    UpcomingBelowSkip(samples, 30, 4, 31);
    UpcomingBelowSkip(samples, 30, 1, 1);
    assert UpcomingBelow(samples, 30, 2) == [1];
    assert UpcomingBelow(samples, 30, 3) == [1, 2];
    assert UpcomingBelow(samples, 30, 4) == [1, 2, 3];
    assert UpcomingBelow(samples, 30, 32) == [1, 2, 3, 31];
  }

  // ------------------------------------------------------------ weekday name

  /**
   * The weekday name the source gives day `d`: it takes the current date,
   * sets its day-of-month to `d` (days past the end of the month roll over
   * into the next) and reads the weekday. So the name is today's weekday
   * moved by `d - today` days, whatever month `d` belongs to.
   */
  function WeekdayName(today: DayOfMonth, todayWeekday: WeekdayIndex, d: DayOfMonth): (r: string)
    ensures r in DayNames
    ensures d == today ==> r == DayNames[todayWeekday]
  {
    DayNames[(todayWeekday + (d - today)) % 7]
  }

  /**
   * The month-boundary defect: when today is the 31st, the 1st (tomorrow,
   * in the next month) is named as the 1st of the current month, five
   * weekdays on rather than the next weekday.
   */
  lemma WeekdayNameAcrossMonthEnd(todayWeekday: WeekdayIndex)
    ensures WeekdayName(31, todayWeekday, 1) == DayNames[(todayWeekday + 5) % 7]
    ensures WeekdayName(31, todayWeekday, 1) != DayNames[(todayWeekday + 1) % 7]
  {
    assert (todayWeekday + (1 - 31)) % 7 == (todayWeekday + 5) % 7;
  }

  // ------------------------------------------------------------ temperature

  /** `Array.prototype.reduce((a, b) => a + b, 0)`, left to right. */
  function Sum(s: seq<real>): real
  {
    if s == [] then 0.0 else Sum(s[..|s| - 1]) + s[|s| - 1]
  }

  function Mean(s: seq<real>): real
    requires s != []
  {
    Sum(s) / (|s| as real)
  }

  /** `Math.round`: the nearest integer, halves rounded towards +infinity. */
  function RoundHalfUp(x: real): (r: int)
    ensures r as real - 0.5 <= x < r as real + 0.5
  {
    (x + 0.5).Floor
  }

  /** Rounding never reverses order. */
  lemma RoundHalfUpMonotonic(x: real, y: real)
    requires x <= y
    ensures RoundHalfUp(x) <= RoundHalfUp(y)
  {
  }

  /** Math.round on halves and on the three-sample example of a day. */
  lemma RoundingExamples()
    ensures RoundHalfUp(2.5) == 3 && RoundHalfUp(-2.5) == -2
    ensures RoundHalfUp(Mean([10.0, 12.0, 14.0])) == 12
  {
    assert [10.0, 12.0, 14.0][..2] == [10.0, 12.0];
    assert [10.0, 12.0][..1] == [10.0];
    assert [10.0][..0] == [];
  }

  lemma {:induction false} SumBounds(s: seq<real>, lo: real, hi: real)
    requires forall k :: 0 <= k < |s| ==> lo <= s[k] <= hi
    ensures (|s| as real) * lo <= Sum(s) <= (|s| as real) * hi
  {
    if s != [] {
      SumBounds(s[..|s| - 1], lo, hi);
    }
  }

  /** A day's mean temperature lies between its lowest and highest sample,
      and so does its rounded value, rounded alike. */
  lemma MeanWithinRange(s: seq<real>, lo: real, hi: real)
    requires s != []
    requires forall k :: 0 <= k < |s| ==> lo <= s[k] <= hi
    ensures lo <= Mean(s) <= hi
    ensures RoundHalfUp(lo) <= RoundHalfUp(Mean(s)) <= RoundHalfUp(hi)
  {
    SumBounds(s, lo, hi);
    var n := |s| as real;
    assert Mean(s) * n == Sum(s);
    RoundHalfUpMonotonic(lo, Mean(s));
    RoundHalfUpMonotonic(Mean(s), hi);
  }

  // --------------------------------------------------------------- summary

  /** The summary the source builds for day `d`: the weekday name, the
      rounded mean temperature, and the modes of the icons and of the
      condition labels of that day's bucket. */
  ghost function SummaryOf(samples: seq<Sample>, today: DayOfMonth, todayWeekday: WeekdayIndex,
                           d: DayOfMonth): DaySummary
    requires SamplesOn(samples, d) != []
  {
    var b := BucketOf(samples, d);
    DaySummary(WeekdayName(today, todayWeekday, d), RoundHalfUp(Mean(b.temps)),
               Mode.ModeOf(b.icons), Mode.ModeOf(b.weathers))
  }

  /** The summaries of `days`, in order. */
  ghost function Summaries(samples: seq<Sample>, today: DayOfMonth, todayWeekday: WeekdayIndex,
                           days: seq<DayOfMonth>): (r: seq<DaySummary>)
    requires forall d :: d in days ==> SamplesOn(samples, d) != []
    ensures |r| == |days|
  {
    if days == [] then []
    else
      var n := |days| - 1;
      Summaries(samples, today, todayWeekday, days[..n])
        + [SummaryOf(samples, today, todayWeekday, days[n])]
  }

  /** Entry `k` of the summaries is the summary of day `k`. */
  lemma {:induction false} SummariesAt(samples: seq<Sample>, today: DayOfMonth, todayWeekday: WeekdayIndex,
                                       days: seq<DayOfMonth>, k: int)
    requires forall d :: d in days ==> SamplesOn(samples, d) != []
    requires 0 <= k < |days|
    ensures Summaries(samples, today, todayWeekday, days)[k] == SummaryOf(samples, today, todayWeekday, days[k])
  {
    var n := |days| - 1;
    var init := Summaries(samples, today, todayWeekday, days[..n]);
    assert Summaries(samples, today, todayWeekday, days) == init + [SummaryOf(samples, today, todayWeekday, days[n])];
    if k < n {
      SummariesAt(samples, today, todayWeekday, days[..n], k);
      assert days[..n][k] == days[k];
    }
  }

  /**
   * A day's summary is drawn from that day alone: its icon and its
   * condition label are those of some input sample of that day, and its
   * temperature is the rounded mean of that day's temperatures.
   */
  lemma SummaryFromOwnDay(samples: seq<Sample>, today: DayOfMonth, todayWeekday: WeekdayIndex, d: DayOfMonth)
    requires SamplesOn(samples, d) != []
    ensures var e := SummaryOf(samples, today, todayWeekday, d);
      (exists x :: x in samples && x.day == d && x.icon == e.icon) &&
      (exists x :: x in samples && x.day == d && x.weather == e.weather) &&
      e.temp == RoundHalfUp(Mean(Temps(SamplesOn(samples, d))))
  {
    var e := SummaryOf(samples, today, todayWeekday, d);
    var ss, b := SamplesOn(samples, d), BucketOf(samples, d);
    Mode.ModeOfIsScanMode(b.icons);
    Mode.ModeOfIsScanMode(b.weathers);
    var i :| 0 <= i < |b.icons| && b.icons[i] == e.icon;
    var j :| 0 <= j < |b.weathers| && b.weathers[j] == e.weather;
    SamplesOnMembership(samples, d, ss[i]);
    SamplesOnMembership(samples, d, ss[j]);
  }

  lemma SummariesSnoc(samples: seq<Sample>, today: DayOfMonth, todayWeekday: WeekdayIndex,
                      days: seq<DayOfMonth>, d: DayOfMonth)
    requires forall e :: e in days ==> SamplesOn(samples, e) != []
    requires SamplesOn(samples, d) != []
    ensures Summaries(samples, today, todayWeekday, days + [d])
         == Summaries(samples, today, todayWeekday, days) + [SummaryOf(samples, today, todayWeekday, d)]
  {
    assert (days + [d])[..|days|] == days;
  }

  lemma TakeSnoc<T>(s: seq<T>, x: T, n: nat)
    ensures Take(s + [x], n) == if |s| < n then Take(s, n) + [x] else Take(s, n)
  {
    if |s| >= n {
      assert (s + [x])[..n] == s[..n];
    }
  }

  /** One step of the walk over the buckets: day `day` is added to the
      reported days exactly when it is eligible and fewer than three are
      reported so far. */
  lemma ShownStep(samples: seq<Sample>, today: int, day: int)
    requires 1 <= day <= 31
    ensures Take(UpcomingBelow(samples, today, day + 1), 3)
         == if Eligible(samples, today, day) && |Take(UpcomingBelow(samples, today, day), 3)| < 3
            then Take(UpcomingBelow(samples, today, day), 3) + [day]
            else Take(UpcomingBelow(samples, today, day), 3)
  {
    TakeSnoc(UpcomingBelow(samples, today, day), day, 3);
  }

  /**
   * The summary of one day's bucket: the weekday name, the rounded mean
   * temperature, and the modes of the icons and of the condition labels.
   * Every bucket is created with a sample in it, so the mean never divides
   * by zero and both modes are defined.
   */
  method SummariseDay(samples: seq<Sample>, today: DayOfMonth, todayWeekday: WeekdayIndex,
                      d: DayOfMonth, b: Bucket) returns (entry: DaySummary)
    requires SamplesOn(samples, d) != [] && b == BucketOf(samples, d)
    ensures entry == SummaryOf(samples, today, todayWeekday, d)
  {
    var dayName := WeekdayName(today, todayWeekday, d);
    var avgTemp := RoundHalfUp(Mean(b.temps));
    var mostCommonIcon := Mode.Mode(b.icons);
    var mostCommonWeather := Mode.Mode(b.weathers);
    entry := DaySummary(dayName, avgTemp, mostCommonIcon.value, mostCommonWeather.value);
  }

  /**
   * The summariser: group, then walk the buckets by ascending day-of-month,
   * skipping today, and summarise the first three.
   */
  method GetThreeDayForecast(samples: seq<Sample>, today: DayOfMonth, todayWeekday: WeekdayIndex)
    returns (forecast: seq<DaySummary>)
    ensures |forecast| <= 3
    ensures forecast == Summaries(samples, today, todayWeekday, ForecastDays(samples, today))
    ensures samples == [] ==> forecast == []
  {
    var buckets := GroupByDay(samples);
    forecast := [];
    var daysProcessed := 0;
    ghost var shown: seq<DayOfMonth> := [];
    for day := 1 to 32
      invariant shown == Take(UpcomingBelow(samples, today, day), 3)
      invariant daysProcessed == |forecast| == |shown|
      invariant forall d :: d in shown ==> SamplesOn(samples, d) != []
      invariant forecast == Summaries(samples, today, todayWeekday, shown)
    {
      var d: DayOfMonth := day;
      ShownStep(samples, today, day);
      if d in buckets {
        if d != today && daysProcessed < 3 {
          var entry := SummariseDay(samples, today, todayWeekday, d, buckets[d]);
          SummariesSnoc(samples, today, todayWeekday, shown, d);
          forecast := forecast + [entry];
          daysProcessed := daysProcessed + 1;
          shown := shown + [d];
        }
      }
    }
    if samples == [] {
      NoSamplesNoDays(today);
    }
  }
}
