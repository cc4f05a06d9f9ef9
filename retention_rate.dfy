/**
  `components/metrics/retention-rate.tsx`: the audience-retention card of
  one video. Two retention rates come from watch times; the badge compares
  the one-decimal average rate with benchmarks that depend on the content
  type; the retention curve is scanned for steep drops between
  consecutive samples; early retention is the first sample from the 30th
  second on. Times are whole seconds and retention values whole percents.
 */
module RetentionRate {
  import opened Numbers
  import opened Text
  import opened Seqs
  import opened Thresholds
  import Utils

  datatype RetentionPoint = RetentionPoint(timestamp: int, retention: int)

  /** One entry of `drops`: where the curve fell, by how much, and to what. */
  datatype Drop = Drop(timestamp: int, drop: int, retention: int)

  /**
    `avgRetentionRate`, read back by `parseFloat`: average view duration
    per hundred seconds of video, to one decimal; `None` for a video of
    length 0, where JavaScript divides by zero.
   */
  function AvgRetentionRate(averageViewDuration: int, duration: int): (r: Option<real>)
    ensures r.None? <==> duration == 0
    ensures r.Some? ==>
      -1.0 / 2.0 <= (r.value - averageViewDuration as real / duration as real * 100.0) * 10.0 <= 1.0 / 2.0
    ensures r.Some? ==> IsFixed(r.value, averageViewDuration as real / duration as real * 100.0, 1)
  {
    if duration == 0 then None
    else Some(ToFixedValue(averageViewDuration as real / duration as real * 100.0, 1))
  }

  /** `totalRetentionRate`: total watch time per view and second of video, to one decimal. */
  function TotalRetentionRate(totalWatchTime: int, views: int, duration: int): (r: Option<real>)
    ensures r.None? <==> views * duration == 0
    ensures r.Some? ==>
      -1.0 / 2.0 <= (r.value - totalWatchTime as real / (views * duration) as real * 100.0) * 10.0 <= 1.0 / 2.0
    ensures r.Some? ==> IsFixed(r.value, totalWatchTime as real / (views * duration) as real * 100.0, 1)
  {
    if views * duration == 0 then None
    else Some(ToFixedValue(totalWatchTime as real / (views * duration) as real * 100.0, 1))
  }

  /** When total watch time is views times the average view duration, both rates agree. */
  lemma RatesConsistent(totalWatchTime: int, views: int, duration: int, averageViewDuration: int)
    requires views != 0 && duration != 0
    requires totalWatchTime == views * averageViewDuration
    ensures TotalRetentionRate(totalWatchTime, views, duration) == AvgRetentionRate(averageViewDuration, duration)
  {
    var v, d := views as real, duration as real;
    assert (views * duration) as real == v * d;
    assert totalWatchTime as real / (v * d) == averageViewDuration as real / d;
  }

  /**
    The default card's figures do not fit together: the average rate is
    50.0 but the total rate 1.7, since 13,500,000 watched seconds are far
    fewer than 450,000 views of 900 seconds.
   */
  lemma DefaultRates()
    ensures AvgRetentionRate(900, 1800) == Some(50.0)
    ensures TotalRetentionRate(13500000, 450000, 1800) == Some(17.0 / 10.0)
  {
    assert MathRound(900 as real / 1800 as real * 100.0 * 10.0) == 500;
    var x := 13500000 as real / (450000 * 1800) as real * 100.0;
    assert x * 10.0 == 50.0 / 3.0;
    assert MathRound(50.0 / 3.0) == 17;
  }

  datatype Benchmark = Benchmark(excellent: real, good: real, average: real)

  const Benchmarks: map<string, Benchmark> := map[
    "tutorial" := Benchmark(50.0, 35.0, 25.0),
    "entertainment" := Benchmark(45.0, 30.0, 20.0),
    "review" := Benchmark(40.0, 28.0, 18.0),
    "default" := Benchmark(45.0, 30.0, 20.0)
  ]

  /** `benchmarks[contentType] || benchmarks.default`. */
  function BenchmarkFor(contentType: string): (b: Benchmark)
    ensures contentType in Benchmarks ==> b == Benchmarks[contentType]
    ensures contentType !in Benchmarks ==> b == Benchmarks["default"]
  {
    if contentType in Benchmarks then Benchmarks[contentType] else Benchmarks["default"]
  }

  function Table(b: Benchmark): seq<Tier>
  {
    [Tier(b.excellent, "Excellent"), Tier(b.good, "Good"), Tier(b.average, "Average")]
  }

  datatype RetentionCategory = RetentionCategory(name: string, color: string, icon: string)

  function Style(tag: string): RetentionCategory
  {
    if tag == "Excellent" then RetentionCategory(tag, "bg-green-500", "\U{1F3AF}")
    else if tag == "Good" then RetentionCategory(tag, "bg-blue-500", "\U{1F4C8}")
    else if tag == "Average" then RetentionCategory(tag, "bg-yellow-500", "\U{1F4CA}")
    else RetentionCategory(tag, "bg-red-500", "\U{1F4C9}")
  }

  /** `getRetentionCategory(rate, contentType)`: each badge on exactly its band of the type's benchmarks. */
  function GetRetentionCategory(rate: real, contentType: string): (c: RetentionCategory)
    ensures var b := BenchmarkFor(contentType);
      && (c.name == "Excellent" <==> rate >= b.excellent)
      && (c.name == "Good" <==> b.good <= rate < b.excellent)
      && (c.name == "Average" <==> b.average <= rate < b.good)
      && (c.name == "Needs Work" <==> rate < b.average)
    ensures c == Style(c.name)
  {
    var b := BenchmarkFor(contentType);
    var table := Table(b);
    assert Descending(table);
    TierIndexInterval(table, rate, 1);
    TierIndexInterval(table, rate, 2);
    Style(Classify(table, "Needs Work", rate))
  }

  function Rank(tag: string): nat
  {
    if tag == "Excellent" then 0 else if tag == "Good" then 1 else if tag == "Average" then 2 else 3
  }

  lemma RankIsTierIndex(rate: real, contentType: string)
    ensures Rank(GetRetentionCategory(rate, contentType).name) == TierIndex(Table(BenchmarkFor(contentType)), rate)
  {
    var table := Table(BenchmarkFor(contentType));
    var i := TierIndex(table, rate);
    assert i < 3 ==> table[i].name == ["Excellent", "Good", "Average"][i];
  }

  /** A higher rate never gets a worse badge. */
  lemma CategoryMonotone(x: real, y: real, contentType: string)
    requires x <= y
    ensures Rank(GetRetentionCategory(y, contentType).name) <= Rank(GetRetentionCategory(x, contentType).name)
  {
    RankIsTierIndex(x, contentType);
    RankIsTierIndex(y, contentType);
    TierIndexMonotone(Table(BenchmarkFor(contentType)), x, y);
  }

  /**
    A content type without a row is judged like "default", and so like
    "entertainment"; reviews are judged most leniently and tutorials most
    strictly: the same rate never ranks worse as a review, nor better as
    a tutorial, than under the default row.
   */
  lemma BenchmarkOrder(rate: real, contentType: string)
    ensures contentType !in Benchmarks ==>
      GetRetentionCategory(rate, contentType) == GetRetentionCategory(rate, "default") == GetRetentionCategory(rate, "entertainment")
    ensures Rank(GetRetentionCategory(rate, "review").name) <= Rank(GetRetentionCategory(rate, "default").name)
    ensures Rank(GetRetentionCategory(rate, "default").name) <= Rank(GetRetentionCategory(rate, "tutorial").name)
  {
    ReviewNoWorse(rate);
    TutorialNoBetter(rate);
  }

  lemma ReviewNoWorse(rate: real)
    ensures Rank(GetRetentionCategory(rate, "review").name) <= Rank(GetRetentionCategory(rate, "default").name)
  {
    RankIsTierIndex(rate, "review");
    RankIsTierIndex(rate, "default");
    LowerBoundsNoWorse(Table(BenchmarkFor("review")), Table(BenchmarkFor("default")), rate);
  }

  lemma TutorialNoBetter(rate: real)
    ensures Rank(GetRetentionCategory(rate, "default").name) <= Rank(GetRetentionCategory(rate, "tutorial").name)
  {
    RankIsTierIndex(rate, "default");
    RankIsTierIndex(rate, "tutorial");
    LowerBoundsNoWorse(Table(BenchmarkFor("default")), Table(BenchmarkFor("tutorial")), rate);
  }

  /**
    The badge of the card, from `parseFloat(avgRetentionRate)`. For a
    video of length 0 the rate is `Infinity` for a positive average view
    duration, which passes every bound, and `NaN` or `-Infinity`
    otherwise, which passes none.
   */
  function Badge(averageViewDuration: int, duration: int, contentType: string): (c: RetentionCategory)
    ensures duration == 0 ==> c.name == (if averageViewDuration > 0 then "Excellent" else "Needs Work")
  {
    match AvgRetentionRate(averageViewDuration, duration)
    case Some(rate) => GetRetentionCategory(rate, contentType)
    case None => Style(if averageViewDuration > 0 then "Excellent" else "Needs Work")
  }

  /**
    The badge follows the rounded rate: 449 seconds of an 1,000-second
    tutorial is 44.9 percent, "Good"; 44.96 percent rounds to 45.0 and is
    "Excellent" for an entertainment video.
   */
  lemma BadgeUsesRoundedRate()
    ensures AvgRetentionRate(4496, 10000) == Some(45.0)
    ensures Badge(4496, 10000, "entertainment").name == "Excellent"
  {
    var x := 4496 as real / 10000 as real * 100.0;
    assert x * 10.0 == 449.6;
    assert RoundHalfAway(449.6) == 450;
    assert Pow10(1) == 10;
  }

  /** Sample i is a critical drop: more than 10 points below the sample before. */
  predicate IsCritical(points: seq<RetentionPoint>, i: int)
  {
    1 <= i < |points| && points[i - 1].retention - points[i].retention > 10
  }

  function DropAt(points: seq<RetentionPoint>, i: int): Drop
    requires 1 <= i < |points|
  {
    Drop(points[i].timestamp, points[i - 1].retention - points[i].retention, points[i].retention)
  }

  /** Every critical drop of the curve, in curve order. */
  function Drops(points: seq<RetentionPoint>): (ds: seq<Drop>)
    ensures |ds| < |points| || |ds| == 0
  {
    if |points| < 2 then []
    else
      var n := |points| - 1;
      Drops(points[..n]) + if IsCritical(points, n) then [DropAt(points, n)] else []
  }

  /** `findCriticalDrops`: the scan over consecutive samples, then `slice(0, 3)`. */
  method FindCriticalDrops(points: seq<RetentionPoint>) returns (top: seq<Drop>)
    ensures top == Take(Drops(points), 3)
  {
    var drops: seq<Drop> := [];
    var n := |points|;
    var i := 1;
    while i < n
      invariant 1 <= i && (n == 0 || i <= n)
      invariant n > 0 ==> drops == Drops(points[..i])
      invariant n == 0 ==> drops == []
    {
      var current := points[i];
      var previous := points[i - 1];
      var dropPercentage := previous.retention - current.retention;
      if dropPercentage > 10 {
        drops := drops + [Drop(current.timestamp, dropPercentage, current.retention)];
      }
      DropsPrefix(points, i);
      i := i + 1;
    }
    if n > 0 {
      assert points[..i] == points;
    }
    top := Take(drops, 3);
  }

  /** One more sample adds its drop, if it is critical. */
  lemma DropsPrefix(points: seq<RetentionPoint>, i: int)
    requires 1 <= i < |points|
    ensures Drops(points[..i + 1]) == Drops(points[..i]) + if IsCritical(points, i) then [DropAt(points, i)] else []
  {
    var p := points[..i + 1];
    assert p[..i] == points[..i];
    assert IsCritical(p, i) == IsCritical(points, i);
  }

  /** Earlier samples keep their critical drops when the curve grows. */
  lemma CriticalPrefix(points: seq<RetentionPoint>, n: int, i: int)
    requires 1 <= i < n <= |points|
    ensures IsCritical(points[..n], i) == IsCritical(points, i)
    ensures DropAt(points[..n], i) == DropAt(points, i)
  {
  }

  /** Everything reported is a critical drop of the curve. */
  lemma {:induction false} DropsSound(points: seq<RetentionPoint>, k: int)
    requires 0 <= k < |Drops(points)|
    ensures exists i :: IsCritical(points, i) && Drops(points)[k] == DropAt(points, i)
  {
    var n := |points| - 1;
    var init := points[..n];
    if k < |Drops(init)| {
      DropsSound(init, k);
      var i :| IsCritical(init, i) && Drops(init)[k] == DropAt(init, i);
      CriticalPrefix(points, n, i);
    } else {
      assert Drops(points)[k] == DropAt(points, n);
    }
  }

  /** Every critical drop of the curve is reported. */
  lemma {:induction false} DropsComplete(points: seq<RetentionPoint>, i: int)
    requires IsCritical(points, i)
    ensures DropAt(points, i) in Drops(points)
  {
    var n := |points| - 1;
    var init := points[..n];
    if i < n {
      CriticalPrefix(points, n, i);
      DropsComplete(init, i);
    }
  }

  /** Positions of the critical samples, in curve order. */
  function CriticalIndices(points: seq<RetentionPoint>): (idx: seq<int>)
    ensures forall k :: 0 <= k < |idx| ==> 1 <= idx[k] < |points|
  {
    if |points| < 2 then []
    else
      var n := |points| - 1;
      CriticalIndices(points[..n]) + if IsCritical(points, n) then [n] else []
  }

  /**
    The k-th reported drop is the drop at the k-th critical sample: the
    list follows the curve, each critical sample once, earlier samples
    first.
   */
  lemma DropsInOrder(points: seq<RetentionPoint>)
    ensures var idx := CriticalIndices(points);
      && |idx| == |Drops(points)|
      && (forall k :: 0 <= k < |idx| ==> IsCritical(points, idx[k]) && Drops(points)[k] == DropAt(points, idx[k]))
      && Increasing(idx)
      && (forall i :: IsCritical(points, i) ==> i in idx)
  {
    CriticalIndicesMatch(points);
    CriticalIndicesIncrease(points);
    CriticalIndicesComplete(points);
  }

  lemma {:induction false} CriticalIndicesMatch(points: seq<RetentionPoint>)
    ensures var idx := CriticalIndices(points);
      && |idx| == |Drops(points)|
      && forall k :: 0 <= k < |idx| ==> IsCritical(points, idx[k]) && Drops(points)[k] == DropAt(points, idx[k])
  {
    if |points| >= 2 {
      var n := |points| - 1;
      var init := points[..n];
      CriticalIndicesMatch(init);
      var idx0, idx := CriticalIndices(init), CriticalIndices(points);
      forall k | 0 <= k < |idx0| ensures IsCritical(points, idx[k]) && Drops(points)[k] == DropAt(points, idx[k]) {
        assert idx[k] == idx0[k] && Drops(points)[k] == Drops(init)[k];
        CriticalPrefix(points, n, idx0[k]);
      }
    }
  }

  predicate Increasing(s: seq<int>)
  {
    forall k, l :: 0 <= k < l < |s| ==> s[k] < s[l]
  }

  lemma {:induction false} CriticalIndicesIncrease(points: seq<RetentionPoint>)
    ensures Increasing(CriticalIndices(points))
  {
    if |points| >= 2 {
      var n := |points| - 1;
      CriticalIndicesIncrease(points[..n]);
      var idx0, idx := CriticalIndices(points[..n]), CriticalIndices(points);
      assert idx == idx0 + if IsCritical(points, n) then [n] else [];
      forall k, l | 0 <= k < l < |idx| ensures idx[k] < idx[l] {
        assert idx[k] == idx0[k] && idx0[k] < n;
        if l < |idx0| {
          assert idx[l] == idx0[l];
        } else {
          assert idx[l] == n;
        }
      }
    }
  }

  lemma {:induction false} CriticalIndicesComplete(points: seq<RetentionPoint>)
    ensures forall i :: IsCritical(points, i) ==> i in CriticalIndices(points)
  {
    if |points| >= 2 {
      var n := |points| - 1;
      var init := points[..n];
      CriticalIndicesComplete(init);
      var idx0, idx := CriticalIndices(init), CriticalIndices(points);
      forall i | IsCritical(points, i) ensures i in idx {
        if i < n {
          CriticalPrefix(points, n, i);
          assert i in idx0;
        } else {
          assert idx[|idx| - 1] == n;
        }
      }
    }
  }

  /** The default card's curve, timestamps in seconds. */
  const DefaultPoints := [
    RetentionPoint(0, 100), RetentionPoint(15, 85), RetentionPoint(30, 78),
    RetentionPoint(60, 72), RetentionPoint(120, 68), RetentionPoint(300, 58),
    RetentionPoint(600, 45), RetentionPoint(900, 35), RetentionPoint(1200, 28),
    RetentionPoint(1500, 22), RetentionPoint(1800, 18)
  ]

  /**
    The default curve has two critical drops: 15 points at 0:15 and 13 at
    10:00. The fall from 68 to 58 and from 45 to 35 are exactly 10 points
    and so not critical.
   */
  lemma DefaultDrops()
    ensures Drops(DefaultPoints) == [Drop(15, 15, 85), Drop(600, 13, 45)]
    ensures !IsCritical(DefaultPoints, 5) && !IsCritical(DefaultPoints, 7)
  {
    var p := DefaultPoints;
    DefaultDropsNine(p);
    DropsPrefix(p, 9);
    DropsPrefix(p, 10);
    assert p[..11] == p;
  }

  lemma DefaultDropsNine(p: seq<RetentionPoint>)
    requires p == DefaultPoints
    ensures Drops(p[..9]) == [Drop(15, 15, 85), Drop(600, 13, 45)]
  {
    DefaultDropsSix(p);
    DropsPrefix(p, 6);
    DropsPrefix(p, 7);
    DropsPrefix(p, 8);
  }

  lemma DefaultDropsSix(p: seq<RetentionPoint>)
    requires p == DefaultPoints
    ensures Drops(p[..6]) == [Drop(15, 15, 85)]
  {
    assert Drops(p[..1]) == [];
    DropsPrefix(p, 1);
    DropsPrefix(p, 2);
    DropsPrefix(p, 3);
    DropsPrefix(p, 4);
    DropsPrefix(p, 5);
  }

  /** Index of the first sample at or after second t. */
  function FirstAtLeast(points: seq<RetentionPoint>, t: int): (r: Option<nat>)
    ensures r.Some? ==> r.value < |points| && points[r.value].timestamp >= t
    ensures r.Some? ==> forall j :: 0 <= j < r.value ==> points[j].timestamp < t
    ensures r.None? ==> forall j :: 0 <= j < |points| ==> points[j].timestamp < t
  {
    if points == [] then None
    else if points[0].timestamp >= t then Some(0)
    else match FirstAtLeast(points[1..], t)
      case None => None
      case Some(i) => Some(i + 1)
  }

  /**
    `earlyRetention`: the retention of the first sample from second 30
    on, or 100 when there is none; `|| 100` also turns a retention of 0
    into 100.
   */
  function EarlyRetention(points: seq<RetentionPoint>): int
  {
    match FirstAtLeast(points, 30)
    case None => 100
    case Some(i) => if points[i].retention == 0 then 100 else points[i].retention
  }

  /** Early retention is read at the first sample from second 30 on, whichever that is. */
  lemma EarlyRetentionAt(points: seq<RetentionPoint>, i: int)
    requires 0 <= i < |points| && points[i].timestamp >= 30
    requires forall j :: 0 <= j < i ==> points[j].timestamp < 30
    ensures EarlyRetention(points) == if points[i].retention == 0 then 100 else points[i].retention
  {
    var r := FirstAtLeast(points, 30);
    assert r.Some?;
    assert !(r.value < i) && !(i < r.value);
  }

  /** A curve that ends before second 30 shows full early retention. */
  lemma EarlyRetentionNone(points: seq<RetentionPoint>)
    requires forall j :: 0 <= j < |points| ==> points[j].timestamp < 30
    ensures EarlyRetention(points) == 100
  {
  }

  lemma DefaultEarlyRetention()
    ensures EarlyRetention(DefaultPoints) == 78
  {
    EarlyRetentionAt(DefaultPoints, 2);
  }

  /** `seconds % 60` in JavaScript: the remainder takes the sign of the dividend. */
  function Rem60(seconds: int): (r: int)
    ensures seconds >= 0 ==> r == seconds % 60
    ensures seconds < 0 ==> -60 < r <= 0 && (r - seconds) % 60 == 0
  {
    if seconds >= 0 then seconds % 60 else -((-seconds) % 60)
  }

  /** `Math.floor(seconds / 60)`. */
  function Minutes(seconds: int): (m: int)
    ensures m == seconds / 60
  {
    Utils.FloorOfQuotient(seconds, 60);
    MathFloor(seconds as real / 60.0)
  }

  /** `formatDuration(seconds)`: "Ns" below a minute, "Mm Ss" from one minute on. */
  function FormatDuration(seconds: int): string
  {
    var mins := Minutes(seconds);
    var secs := Rem60(seconds);
    if mins == 0 then IntToString(secs) + "s"
    else IntToString(mins) + "m " + IntToString(secs) + "s"
  }

  /**
    For a non-negative duration the text splits into minutes and seconds
    that add back to it: seconds alone under a minute, otherwise at least
    one minute and 0 to 59 seconds; the leading number reads back.
   */
  lemma FormatDurationReads(seconds: int)
    requires seconds >= 0
    ensures var m, s := seconds / 60, seconds % 60;
      && m * 60 + s == seconds && 0 <= s < 60
      && (m == 0 ==> FormatDuration(seconds) == IntToString(s) + "s" && ParseInt(FormatDuration(seconds)) == Some(seconds))
      && (m > 0 ==> FormatDuration(seconds) == IntToString(m) + "m " + IntToString(s) + "s" && ParseInt(FormatDuration(seconds)) == Some(m))
  {
    var m, s := seconds / 60, seconds % 60;
    if m == 0 {
      ParseIntOfIntToString(s, "s");
    } else {
      ParseIntOfIntToString(m, "m " + IntToString(s) + "s");
      assert IntToString(m) + "m " + IntToString(s) + "s" == IntToString(m) + ("m " + IntToString(s) + "s");
    }
  }

  /** `padStart(2, "0")`. */
  function PadStart2(t: string): string
  {
    if |t| < 2 then "0" + t else t
  }

  /** `formatTime(seconds)`: "M:SS". */
  function FormatTime(seconds: int): string
  {
    IntToString(Minutes(seconds)) + ":" + PadStart2(IntToString(Rem60(seconds)))
  }

  /**
    For a non-negative time the text is the minutes, a colon and exactly
    two digits whose value is the remaining seconds, so the clock reads
    back as the time.
   */
  lemma FormatTimeReads(seconds: int)
    requires seconds >= 0
    ensures var m, s := seconds / 60, seconds % 60;
      var d := PadStart2(IntToString(s));
      && FormatTime(seconds) == IntToString(m) + ":" + d
      && |d| == 2 && AllDigits(d) && DigitsValue(d) == s
      && m * 60 + DigitsValue(d) == seconds
      && ParseInt(FormatTime(seconds)) == Some(m)
  {
    var m, s := seconds / 60, seconds % 60;
    var d := PadStart2(IntToString(s));
    TwoDigits(s);
    ParseIntOfIntToString(m, ":" + d);
    assert IntToString(m) + ":" + d == IntToString(m) + (":" + d);
  }

  lemma TwoDigits(s: nat)
    requires s < 60
    ensures var d := PadStart2(IntToString(s)); |d| == 2 && AllDigits(d) && DigitsValue(d) == s
  {
    var t := NatToString(s);
    DigitsValueOfNatToString(s);
    if s < 10 {
      var d := "0" + t;
      assert d[..1] == "0";
      assert d[..|d| - 1] == "0";
    } else {
      assert NatToString(s / 10) == [DigitChar(s / 10)];
    }
  }
}
