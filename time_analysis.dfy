/**
  `components/time-analysis.tsx`: one pass over the videos tallies each
  video into an hour-of-day, a day-of-week, a month and an age bucket;
  a second pass writes each bucket's average; the best hour and day are
  the first buckets with the largest average; and the three newest videos
  are taken after sorting the caller's array in place.

  The local hour, weekday and month of a publish time come from the host's
  time zone; they are inputs here (`LocalDate`, one per video).
 */
module TimeAnalysis {
  import opened Numbers
  import opened Text
  import opened Utils
  import opened YouTube
  import opened Seqs

  /** What `getHours()`, `getDay()` and `getMonth()` return for one publish time. */
  datatype LocalDate = LocalDate(hour: nat, day: nat, month: nat)

  predicate ValidDate(d: LocalDate)
  {
    d.hour < 24 && d.day < 7 && d.month < 12
  }

  /** One entry of a chart dataset. */
  datatype Bucket = Bucket(name: string, videos: nat, totalViews: int, avgViews: int)

  function HourLabels(): (ls: seq<string>)
    ensures |ls| == 24
  {
    seq(24, h requires 0 <= h < 24 => Pad2(h) + ":00")
  }

  /** The hour labels are "00:00" to "23:00": each reads back as its own hour. */
  lemma HourLabelsRead()
    ensures forall h :: 0 <= h < 24 ==>
      var l := HourLabels()[h];
      |l| == 5 && l[2..] == ":00" && ParseInt(l) == Some(h)
  {
    forall h | 0 <= h < 24
      ensures var l := HourLabels()[h]; |l| == 5 && l[2..] == ":00" && ParseInt(l) == Some(h)
    {
      Pad2Reads(h, ":00");
    }
  }

  const DayLabels: seq<string> := ["Sun", "Mon", "Tue", "Wed", "Thu", "Fri", "Sat"]

  const MonthLabels: seq<string> := ["Jan", "Feb", "Mar", "Apr", "May", "Jun", "Jul", "Aug", "Sep", "Oct", "Nov", "Dec"]

  const AgeLabels: seq<string> := ["0-1 hours", "1-6 hours", "6-24 hours", "1-7 days", "1-4 weeks", "1+ months"]

  /** `parseInt(viewCount) || 0`. */
  function Views(v: Video): int
  {
    IntOrZero(v.viewCount)
  }

  /** Age in hours, fractional; negative for a publish time after `now`. */
  function AgeHours(v: Video, now: int): real
  {
    (now - v.publishedAt) as real / MsPerHour as real
  }

  /** The age bucket: at most 1, 6, 24, 168 or 672 hours, or older. */
  function AgeIndex(ageInHours: real): (i: nat)
    ensures i < 6
  {
    if ageInHours <= 1.0 then 0
    else if ageInHours <= 6.0 then 1
    else if ageInHours <= 24.0 then 2
    else if ageInHours <= 168.0 then 3
    else if ageInHours <= 672.0 then 4
    else 5
  }

  /** The upper end, in hours, of each age bucket but the last. */
  const AgeBounds: seq<real> := [1.0, 6.0, 24.0, 168.0, 672.0]

  /**
    Bucket i holds exactly the ages above bound i-1 and at most bound i;
    a future publish time (negative age) lands in bucket 0.
   */
  lemma AgeIndexInterval(age: real, i: nat)
    requires i < 6
    ensures AgeIndex(age) == i <==>
      (i == 0 || age > AgeBounds[i - 1]) && (i == 5 || age <= AgeBounds[i])
    ensures age <= 0.0 ==> AgeIndex(age) == 0
  {
  }

  /** An older video never lands in a younger bucket. */
  lemma AgeIndexMonotone(a: real, b: real)
    requires a <= b
    ensures AgeIndex(a) <= AgeIndex(b)
  {
  }

  function HourKeys(dates: seq<LocalDate>): (ks: seq<nat>)
    ensures |ks| == |dates| && forall i :: 0 <= i < |dates| ==> ks[i] == dates[i].hour
  {
    seq(|dates|, i requires 0 <= i < |dates| => dates[i].hour)
  }

  function DayKeys(dates: seq<LocalDate>): (ks: seq<nat>)
    ensures |ks| == |dates| && forall i :: 0 <= i < |dates| ==> ks[i] == dates[i].day
  {
    seq(|dates|, i requires 0 <= i < |dates| => dates[i].day)
  }

  function MonthKeys(dates: seq<LocalDate>): (ks: seq<nat>)
    ensures |ks| == |dates| && forall i :: 0 <= i < |dates| ==> ks[i] == dates[i].month
  {
    seq(|dates|, i requires 0 <= i < |dates| => dates[i].month)
  }

  function AgeKeys(videos: seq<Video>, now: int): (ks: seq<nat>)
    ensures |ks| == |videos| && forall i :: 0 <= i < |videos| ==> ks[i] == AgeIndex(AgeHours(videos[i], now))
  {
    seq(|videos|, i requires 0 <= i < |videos| => AgeIndex(AgeHours(videos[i], now)))
  }

  function ViewsOf(videos: seq<Video>): (vs: seq<int>)
    ensures |vs| == |videos| && forall i :: 0 <= i < |videos| ==> vs[i] == Views(videos[i])
  {
    seq(|videos|, i requires 0 <= i < |videos| => Views(videos[i]))
  }

  /** How many of the keys equal k. */
  function CountAt(keys: seq<nat>, k: nat): nat
  {
    if keys == [] then 0
    else CountAt(keys[..|keys| - 1], k) + (if keys[|keys| - 1] == k then 1 else 0)
  }

  /** The views of the positions whose key equals k, added up. */
  function TotalAt(keys: seq<nat>, views: seq<int>, k: nat): int
    requires |views| == |keys|
  {
    if keys == [] then 0
    else TotalAt(keys[..|keys| - 1], views[..|views| - 1], k) + (if keys[|keys| - 1] == k then views[|views| - 1] else 0)
  }

  /** The bucket the first pass leaves for key k, before its average is written. */
  function Tally(labels: seq<string>, keys: seq<nat>, views: seq<int>, k: nat): Bucket
    requires |views| == |keys| && k < |labels|
  {
    Bucket(labels[k], CountAt(keys, k), TotalAt(keys, views, k), 0)
  }

  /** The second pass: `videos > 0 ? Math.round(totalViews / videos) : 0`. */
  function WithAverage(b: Bucket): (r: Bucket)
    ensures r.name == b.name && r.videos == b.videos && r.totalViews == b.totalViews
    ensures b.videos == 0 ==> r.avgViews == 0
    ensures b.videos > 0 ==>
      -1.0 / 2.0 < r.avgViews as real - b.totalViews as real / b.videos as real <= 1.0 / 2.0
  {
    b.(avgViews := if b.videos > 0 then MathRound(b.totalViews as real / b.videos as real) else 0)
  }

  /** A whole dataset: one averaged tally per label. */
  function Buckets(labels: seq<string>, keys: seq<nat>, views: seq<int>): (bs: seq<Bucket>)
    requires |views| == |keys|
    ensures |bs| == |labels|
    ensures forall k :: 0 <= k < |labels| ==> bs[k] == WithAverage(Tally(labels, keys, views, k))
  {
    seq(|labels|, k requires 0 <= k < |labels| => WithAverage(Tally(labels, keys, views, k)))
  }

  /** The result of the `timeData` memo. */
  datatype TimeData = TimeData(hourly: seq<Bucket>, daily: seq<Bucket>, monthly: seq<Bucket>, age: seq<Bucket>)

  function TimeDataSpec(videos: seq<Video>, dates: seq<LocalDate>, now: int): TimeData
    requires |dates| == |videos|
  {
    var vs := ViewsOf(videos);
    TimeData(
      Buckets(HourLabels(), HourKeys(dates), vs),
      Buckets(DayLabels, DayKeys(dates), vs),
      Buckets(MonthLabels, MonthKeys(dates), vs),
      Buckets(AgeLabels, AgeKeys(videos, now), vs))
  }

  lemma TallyStep(keys: seq<nat>, views: seq<int>, n: nat, k: nat)
    requires |views| == |keys| && n < |keys|
    ensures CountAt(keys[..n + 1], k) == CountAt(keys[..n], k) + (if keys[n] == k then 1 else 0)
    ensures TotalAt(keys[..n + 1], views[..n + 1], k) == TotalAt(keys[..n], views[..n], k) + (if keys[n] == k then views[n] else 0)
  {
    assert keys[..n + 1][..n] == keys[..n];
    assert views[..n + 1][..n] == views[..n];
  }

  /**
    `dataset[key].videos += 1; dataset[key].totalViews += views` for the
    n-th video, whose key and views are keys[n] and views[n].
   */
  method Record(a: array<Bucket>, ghost labels: seq<string>, ghost keys: seq<nat>, ghost views: seq<int>,
                n: nat, key: nat, view: int)
    requires |views| == |keys| && n < |keys|
    requires key == keys[n] && view == views[n] && key < a.Length
    requires Tallied(a[..], labels, keys, views, n)
    modifies a
    ensures Tallied(a[..], labels, keys, views, n + 1)
  {
    a[key] := a[key].(videos := a[key].videos + 1, totalViews := a[key].totalViews + view);
    forall k | 0 <= k < a.Length ensures a[k] == Tally(labels, keys[..n + 1], views[..n + 1], k) {
      TallyStep(keys, views, n, k);
    }
  }

  /** The empty dataset for the given labels. */
  method NewDataset(labels: seq<string>) returns (a: array<Bucket>)
    ensures fresh(a) && a.Length == |labels|
    ensures forall k :: 0 <= k < a.Length ==> a[k] == Bucket(labels[k], 0, 0, 0)
  {
    a := new Bucket[|labels|](k requires 0 <= k < |labels| => Bucket(labels[k], 0, 0, 0));
  }

  /** One `forEach` of the averaging pass. */
  method FillAverages(a: array<Bucket>)
    modifies a
    ensures forall k :: 0 <= k < a.Length ==> a[k] == WithAverage(old(a[k]))
  {
    var k := 0;
    while k < a.Length
      invariant 0 <= k <= a.Length
      invariant forall j :: 0 <= j < k ==> a[j] == WithAverage(old(a[j]))
      invariant forall j :: k <= j < a.Length ==> a[j] == old(a[j])
    {
      var item := a[k];
      a[k] := item.(avgViews := if item.videos > 0 then MathRound(item.totalViews as real / item.videos as real) else 0);
      k := k + 1;
    }
  }

  /** One iteration of the `forEach`: the n-th video counted in all four datasets. */
  method TallyVideo(hourly: array<Bucket>, daily: array<Bucket>, monthly: array<Bucket>, age: array<Bucket>,
                    videos: seq<Video>, dates: seq<LocalDate>, now: int, n: nat)
    requires |dates| == |videos| && n < |videos| && forall i :: 0 <= i < |dates| ==> ValidDate(dates[i])
    requires hourly != daily && hourly != monthly && hourly != age
    requires daily != monthly && daily != age && monthly != age
    requires hourly.Length == |HourLabels()| && daily.Length == |DayLabels|
    requires monthly.Length == |MonthLabels| && age.Length == |AgeLabels|
    requires Tallied(hourly[..], HourLabels(), HourKeys(dates), ViewsOf(videos), n)
    requires Tallied(daily[..], DayLabels, DayKeys(dates), ViewsOf(videos), n)
    requires Tallied(monthly[..], MonthLabels, MonthKeys(dates), ViewsOf(videos), n)
    requires Tallied(age[..], AgeLabels, AgeKeys(videos, now), ViewsOf(videos), n)
    modifies hourly, daily, monthly, age
    ensures Tallied(hourly[..], HourLabels(), HourKeys(dates), ViewsOf(videos), n + 1)
    ensures Tallied(daily[..], DayLabels, DayKeys(dates), ViewsOf(videos), n + 1)
    ensures Tallied(monthly[..], MonthLabels, MonthKeys(dates), ViewsOf(videos), n + 1)
    ensures Tallied(age[..], AgeLabels, AgeKeys(videos, now), ViewsOf(videos), n + 1)
  {
    ghost var vs := ViewsOf(videos);
    var video := videos[n];
    var views := Views(video);
    var date := dates[n];
    Record(hourly, HourLabels(), HourKeys(dates), vs, n, date.hour, views);
    Record(daily, DayLabels, DayKeys(dates), vs, n, date.day, views);
    Record(monthly, MonthLabels, MonthKeys(dates), vs, n, date.month, views);
    var ageIndex := AgeIndex(AgeHours(video, now));
    Record(age, AgeLabels, AgeKeys(videos, now), vs, n, ageIndex, views);
  }

  /** The `timeData` memo: the tallying pass over the videos, then the averaging pass. */
  method ComputeTimeData(videos: seq<Video>, dates: seq<LocalDate>, now: int) returns (data: TimeData)
    requires |dates| == |videos| && forall i :: 0 <= i < |dates| ==> ValidDate(dates[i])
    ensures data == TimeDataSpec(videos, dates, now)
  {
    var hourly := NewDataset(HourLabels());
    var daily := NewDataset(DayLabels);
    var monthly := NewDataset(MonthLabels);
    var age := NewDataset(AgeLabels);
    ghost var hk, dk, mk, ak := HourKeys(dates), DayKeys(dates), MonthKeys(dates), AgeKeys(videos, now);
    ghost var vs := ViewsOf(videos);
    var n := 0;
    while n < |videos|
      invariant 0 <= n <= |videos|
      invariant Tallied(hourly[..], HourLabels(), hk, vs, n)
      invariant Tallied(daily[..], DayLabels, dk, vs, n)
      invariant Tallied(monthly[..], MonthLabels, mk, vs, n)
      invariant Tallied(age[..], AgeLabels, ak, vs, n)
    {
      TallyVideo(hourly, daily, monthly, age, videos, dates, now, n);
      n := n + 1;
    }
    var h := Averaged(hourly, HourLabels(), hk, vs);
    var d := Averaged(daily, DayLabels, dk, vs);
    var m := Averaged(monthly, MonthLabels, mk, vs);
    var a := Averaged(age, AgeLabels, ak, vs);
    data := TimeData(h, d, m, a);
  }

  /** The buckets after the first pass over the first n videos. */
  ghost predicate Tallied(bs: seq<Bucket>, labels: seq<string>, keys: seq<nat>, views: seq<int>, n: nat)
    requires |views| == |keys| && n <= |keys|
  {
    |bs| == |labels| && forall k :: 0 <= k < |bs| ==> bs[k] == Tally(labels, keys[..n], views[..n], k)
  }

  /** The averaging pass over a fully tallied dataset, read back as a sequence. */
  method Averaged(a: array<Bucket>, ghost labels: seq<string>, ghost keys: seq<nat>, ghost views: seq<int>)
    returns (bs: seq<Bucket>)
    requires |views| == |keys| && Tallied(a[..], labels, keys, views, |keys|)
    modifies a
    ensures bs == a[..] == Buckets(labels, keys, views)
  {
    assert keys[..|keys|] == keys && views[..|views|] == views;
    FillAverages(a);
    bs := a[..];
  }

  function SumVideos(bs: seq<Bucket>): nat
  {
    if bs == [] then 0 else SumVideos(bs[..|bs| - 1]) + bs[|bs| - 1].videos
  }

  function SumTotals(bs: seq<Bucket>): int
  {
    if bs == [] then 0 else SumTotals(bs[..|bs| - 1]) + bs[|bs| - 1].totalViews
  }

  /** The counts of keys 0..m-1 added up. */
  function CountBelow(keys: seq<nat>, m: nat): nat
  {
    if m == 0 then 0 else CountBelow(keys, m - 1) + CountAt(keys, m - 1)
  }

  function TotalBelow(keys: seq<nat>, views: seq<int>, m: nat): int
    requires |views| == |keys|
  {
    if m == 0 then 0 else TotalBelow(keys, views, m - 1) + TotalAt(keys, views, m - 1)
  }

  lemma {:induction false} CountBelowSnoc(keys: seq<nat>, x: nat, m: nat)
    ensures CountBelow(keys + [x], m) == CountBelow(keys, m) + (if x < m then 1 else 0)
  {
    if m > 0 {
      CountBelowSnoc(keys, x, m - 1);
      assert (keys + [x])[..|keys|] == keys;
    }
  }

  lemma {:induction false} TotalBelowSnoc(keys: seq<nat>, views: seq<int>, x: nat, w: int, m: nat)
    requires |views| == |keys|
    ensures TotalBelow(keys + [x], views + [w], m) == TotalBelow(keys, views, m) + (if x < m then w else 0)
  {
    if m > 0 {
      TotalBelowSnoc(keys, views, x, w, m - 1);
      assert (keys + [x])[..|keys|] == keys;
      assert (views + [w])[..|views|] == views;
    }
  }

  /** When every key is below m, the counts of keys 0..m-1 add up to the number of keys. */
  lemma {:induction false} CountBelowAll(keys: seq<nat>, m: nat)
    requires forall i :: 0 <= i < |keys| ==> keys[i] < m
    ensures CountBelow(keys, m) == |keys|
  {
    if keys == [] {
      CountBelowEmpty(m);
    } else {
      var init := keys[..|keys| - 1];
      CountBelowAll(init, m);
      CountBelowSnoc(init, keys[|keys| - 1], m);
      assert init + [keys[|keys| - 1]] == keys;
    }
  }

  lemma {:induction false} CountBelowEmpty(m: nat)
    ensures CountBelow([], m) == 0
  {
    if m > 0 {
      CountBelowEmpty(m - 1);
    }
  }

  lemma {:induction false} TotalBelowEmpty(m: nat)
    ensures TotalBelow([], [], m) == 0
  {
    if m > 0 {
      TotalBelowEmpty(m - 1);
    }
  }

  /** When every key is below m, the totals of keys 0..m-1 add up to all the views. */
  lemma {:induction false} TotalBelowAll(keys: seq<nat>, views: seq<int>, m: nat)
    requires |views| == |keys|
    requires forall i :: 0 <= i < |keys| ==> keys[i] < m
    ensures TotalBelow(keys, views, m) == Sum(views)
  {
    if keys == [] {
      TotalBelowEmpty(m);
    } else {
      var init, vinit := keys[..|keys| - 1], views[..|views| - 1];
      TotalBelowAll(init, vinit, m);
      TotalBelowSnoc(init, vinit, keys[|keys| - 1], views[|views| - 1], m);
      assert init + [keys[|keys| - 1]] == keys;
      assert vinit + [views[|views| - 1]] == views;
    }
  }

  lemma {:induction false} SumVideosPrefix(labels: seq<string>, keys: seq<nat>, views: seq<int>, m: nat)
    requires |views| == |keys| && m <= |labels|
    ensures SumVideos(Buckets(labels, keys, views)[..m]) == CountBelow(keys, m)
    ensures SumTotals(Buckets(labels, keys, views)[..m]) == TotalBelow(keys, views, m)
  {
    var bs := Buckets(labels, keys, views);
    if m > 0 {
      SumVideosPrefix(labels, keys, views, m - 1);
      assert bs[..m][..m - 1] == bs[..m - 1];
    }
  }

  /**
    Each video falls in exactly one bucket of a dataset: the bucket counts
    add up to the number of videos and the bucket totals to all the views.
   */
  lemma BucketsPartition(labels: seq<string>, keys: seq<nat>, views: seq<int>)
    requires |views| == |keys|
    requires forall i :: 0 <= i < |keys| ==> keys[i] < |labels|
    ensures SumVideos(Buckets(labels, keys, views)) == |keys|
    ensures SumTotals(Buckets(labels, keys, views)) == Sum(views)
  {
    var bs := Buckets(labels, keys, views);
    SumVideosPrefix(labels, keys, views, |labels|);
    assert bs[..|labels|] == bs;
    CountBelowAll(keys, |labels|);
    TotalBelowAll(keys, views, |labels|);
  }

  /** All four datasets account for every video and every view exactly once. */
  lemma TimeDataPartition(videos: seq<Video>, dates: seq<LocalDate>, now: int)
    requires |dates| == |videos| && forall i :: 0 <= i < |dates| ==> ValidDate(dates[i])
    ensures var d := TimeDataSpec(videos, dates, now);
      && SumVideos(d.hourly) == |videos| && SumVideos(d.daily) == |videos|
      && SumVideos(d.monthly) == |videos| && SumVideos(d.age) == |videos|
      && SumTotals(d.hourly) == Sum(ViewsOf(videos)) && SumTotals(d.daily) == Sum(ViewsOf(videos))
      && SumTotals(d.monthly) == Sum(ViewsOf(videos)) && SumTotals(d.age) == Sum(ViewsOf(videos))
  {
    var vs := ViewsOf(videos);
    BucketsPartition(HourLabels(), HourKeys(dates), vs);
    BucketsPartition(DayLabels, DayKeys(dates), vs);
    BucketsPartition(MonthLabels, MonthKeys(dates), vs);
    BucketsPartition(AgeLabels, AgeKeys(videos, now), vs);
  }

  /**
    `reduce((max, curr) => curr.avgViews > max.avgViews ? curr : max, data[0])`:
    the index of the first bucket with the largest average.
   */
  function BestIndex(bs: seq<Bucket>): (r: nat)
    requires |bs| >= 1
    ensures r < |bs|
    ensures forall j :: 0 <= j < |bs| ==> bs[j].avgViews <= bs[r].avgViews
    ensures forall j :: 0 <= j < r ==> bs[j].avgViews < bs[r].avgViews
  {
    if |bs| == 1 then 0
    else
      var b := BestIndex(bs[..|bs| - 1]);
      if bs[|bs| - 1].avgViews > bs[b].avgViews then |bs| - 1 else b
  }

  /** `bestHour.hour`. */
  function BestHour(d: TimeData): string
    requires |d.hourly| >= 1
  {
    d.hourly[BestIndex(d.hourly)].name
  }

  /** `bestDay.day`. */
  function BestDay(d: TimeData): string
    requires |d.daily| >= 1
  {
    d.daily[BestIndex(d.daily)].name
  }

  /** With equal averages everywhere (no videos, say) the first bucket wins. */
  lemma BestIndexTies(bs: seq<Bucket>)
    requires |bs| >= 1 && forall j :: 0 <= j < |bs| ==> bs[j].avgViews == bs[0].avgViews
    ensures BestIndex(bs) == 0
  {
  }

  /** With no videos the best hour is "00:00" and the best day "Sun". */
  lemma NoVideosBest(now: int)
    ensures BestHour(TimeDataSpec([], [], now)) == "00:00"
    ensures BestDay(TimeDataSpec([], [], now)) == "Sun"
  {
    var d := TimeDataSpec([], [], now);
    BestIndexTies(d.hourly);
    BestIndexTies(d.daily);
    assert Pad2(0) == "00";
  }

  /** "Fresh Content": the videos in the first two age buckets. */
  function FreshContent(d: TimeData): nat
    requires |d.age| == 6
  {
    d.age[0].videos + d.age[1].videos
  }

  /** "Peak Performance": the videos in the third age bucket. */
  function PeakPerformance(d: TimeData): nat
    requires |d.age| == 6
  {
    d.age[2].videos
  }

  /** How many videos are at most `hours` old (future ones included). */
  function CountAtMost(videos: seq<Video>, now: int, hours: real): nat
  {
    if videos == [] then 0
    else CountAtMost(videos[..|videos| - 1], now, hours) + (if AgeHours(videos[|videos| - 1], now) <= hours then 1 else 0)
  }

  lemma {:induction false} CountAtMostByKeys(videos: seq<Video>, now: int)
    ensures CountAt(AgeKeys(videos, now), 0) + CountAt(AgeKeys(videos, now), 1) == CountAtMost(videos, now, 6.0)
    ensures CountAt(AgeKeys(videos, now), 0) + CountAt(AgeKeys(videos, now), 1) + CountAt(AgeKeys(videos, now), 2)
      == CountAtMost(videos, now, 24.0)
  {
    if videos != [] {
      var init := videos[..|videos| - 1];
      CountAtMostByKeys(init, now);
      assert AgeKeys(videos, now)[..|videos| - 1] == AgeKeys(init, now);
    }
  }

  /**
    "Fresh Content" counts the videos at most six hours old, and "Peak
    Performance" those older than six hours but at most a day old.
   */
  lemma FreshAndPeak(videos: seq<Video>, dates: seq<LocalDate>, now: int)
    requires |dates| == |videos|
    ensures var d := TimeDataSpec(videos, dates, now);
      && FreshContent(d) == CountAtMost(videos, now, 6.0)
      && PeakPerformance(d) == CountAtMost(videos, now, 24.0) - CountAtMost(videos, now, 6.0)
  {
    CountAtMostByKeys(videos, now);
  }

  predicate NewestFirst(s: seq<Video>)
  {
    forall i, j :: 0 <= i < j < |s| ==> s[i].publishedAt >= s[j].publishedAt
  }

  /** Publication time as the sort key. */
  function PublishedKey(v: Video): real
  {
    v.publishedAt as real
  }

  /** Descending by publication time is newest first. */
  lemma SortedByPublishedIsNewestFirst(s: seq<Video>)
    requires SortedDesc(s, PublishedKey)
    ensures NewestFirst(s)
  {
  }

  /**
    `mostRecentVideos`: the caller's array is sorted newest first in place,
    stably, so videos published at the same instant keep their order;
    then at most three videos are taken from its front.
   */
  method MostRecentVideos(a: array<Video>) returns (recent: seq<Video>)
    modifies a
    ensures a[..] == SortDesc(old(a[..]), PublishedKey)
    ensures NewestFirst(a[..]) && multiset(a[..]) == multiset(old(a[..]))
    ensures recent == a[..Min(3, a.Length)]
  {
    SortInPlaceDesc(a, PublishedKey);
    SortedByPublishedIsNewestFirst(a[..]);
    recent := a[..Min(3, a.Length)];
  }

  /** The three picked are newest first, and none is older than any video left out. */
  lemma MostRecentAreNewest(s: seq<Video>, recent: seq<Video>)
    requires NewestFirst(s) && recent == s[..Min(3, |s|)]
    ensures |recent| <= 3 && NewestFirst(recent)
    ensures forall i, j :: 0 <= i < |recent| && |recent| <= j < |s| ==> recent[i].publishedAt >= s[j].publishedAt
  {
  }
}
