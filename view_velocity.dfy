/**
  `components/metrics/view-velocity.tsx`: how fast one video gathers views.
  The age since publication (floored so that nothing divides by zero)
  turns the view count into views per day and per hour; the last three
  samples of the view history give an acceleration; the velocity badge
  comes from a cascade whose bounds shrink for older videos. The wall
  clock enters as the parameter `timeDiffMs`, the milliseconds from
  publication to now; history timestamps are milliseconds too.
 */
module ViewVelocity {
  import opened Numbers
  import opened Text
  import opened Thresholds
  import EngagementRate

  const MsPerHour: int := 1000 * 60 * 60
  const MsPerDay: int := 1000 * 60 * 60 * 24

  /** `daysSincePublish`: the age in days, never below 0.01. */
  function DaysSincePublish(timeDiffMs: int): (d: real)
    ensures d >= 1.0 / 100.0 && d >= timeDiffMs as real / MsPerDay as real
    ensures d == 1.0 / 100.0 || d == timeDiffMs as real / MsPerDay as real
  {
    MaxReal(timeDiffMs as real / MsPerDay as real, 1.0 / 100.0)
  }

  /** `hoursSincePublish`: the age in hours, never below 0.1. */
  function HoursSincePublish(timeDiffMs: int): (h: real)
    ensures h >= 1.0 / 10.0 && h >= timeDiffMs as real / MsPerHour as real
    ensures h == 1.0 / 10.0 || h == timeDiffMs as real / MsPerHour as real
  {
    MaxReal(timeDiffMs as real / MsPerHour as real, 1.0 / 10.0)
  }

  /**
    From 0.01 days (14.4 minutes) on, both floors are inactive and the two
    ages agree; at publication time they do not (0.24 hours against 0.1).
   */
  lemma AgesAgree(timeDiffMs: int)
    ensures timeDiffMs >= MsPerDay / 100 ==> HoursSincePublish(timeDiffMs) == 24.0 * DaysSincePublish(timeDiffMs)
    ensures timeDiffMs == 0 ==> HoursSincePublish(timeDiffMs) == 1.0 / 10.0 && 24.0 * DaysSincePublish(timeDiffMs) == 24.0 / 100.0
  {
    var t := timeDiffMs as real;
    assert t / MsPerHour as real == 24.0 * (t / MsPerDay as real);
  }

  /** `Math.round(views / age)`: within half a view of the exact rate. */
  function Velocity(views: int, age: real): (v: int)
    requires age > 0.0
    ensures -1.0 / 2.0 < v as real - views as real / age <= 1.0 / 2.0
  {
    MathRound(views as real / age)
  }

  function DailyVelocity(views: int, timeDiffMs: int): int
  {
    Velocity(views, DaysSincePublish(timeDiffMs))
  }

  function HourlyVelocity(views: int, timeDiffMs: int): int
  {
    Velocity(views, HoursSincePublish(timeDiffMs))
  }

  /**
    Once the floors are inactive, a day's velocity is 24 hours' velocity
    up to the two roundings (half a view per day, twelve per 24 hours).
   */
  lemma DailyIsTwentyFourHourly(views: int, timeDiffMs: int)
    requires timeDiffMs >= MsPerDay / 100
    ensures -25.0 / 2.0 < DailyVelocity(views, timeDiffMs) as real - 24.0 * HourlyVelocity(views, timeDiffMs) as real <= 25.0 / 2.0
  {
    AgesAgree(timeDiffMs);
    var d := DaysSincePublish(timeDiffMs);
    var x := views as real / d;
    assert views as real / HoursSincePublish(timeDiffMs) == x / 24.0;
  }

  /** The 7-day projection: seven days at the daily velocity. */
  function WeekProjection(views: int, timeDiffMs: int): (p: int)
    ensures var exact := 7.0 * (views as real / DaysSincePublish(timeDiffMs));
      -7.0 / 2.0 < p as real - exact <= 7.0 / 2.0
  {
    DailyVelocity(views, timeDiffMs) * 7
  }

  /** One point of `viewHistory`. */
  datatype Sample = Sample(timestampMs: int, views: int)

  /** The acceleration row: hidden (`null`), not a finite number, or views per day per day. */
  datatype Acceleration = Absent | NotFinite | PerDay(value: real)

  /** Views per day between two samples; undefined for equal timestamps. */
  function Slope(a: Sample, b: Sample): real
    requires a.timestampMs != b.timestampMs
  {
    (b.views - a.views) as real / ((b.timestampMs - a.timestampMs) as real / MsPerDay as real)
  }

  /**
    `calculateAcceleration`: absent without a history of three samples,
    otherwise the slope of the last pair minus the slope of the pair
    before; a repeated timestamp makes JavaScript divide by zero.
   */
  function CalculateAcceleration(history: Option<seq<Sample>>): (r: Acceleration)
    ensures r.Absent? <==> history.None? || |history.value| < 3
    ensures r.NotFinite? <==> (history.Some? && |history.value| >= 3 &&
      var h := history.value; var n := |h|;
      (h[n - 1].timestampMs == h[n - 2].timestampMs || h[n - 2].timestampMs == h[n - 3].timestampMs))
  {
    if history.None? || |history.value| < 3 then Absent
    else
      var h := history.value;
      var latest, previous, beforePrevious := h[|h| - 1], h[|h| - 2], h[|h| - 3];
      if latest.timestampMs == previous.timestampMs || previous.timestampMs == beforePrevious.timestampMs then NotFinite
      else PerDay(Slope(previous, latest) - Slope(beforePrevious, previous))
  }

  /** Only the last three samples count: earlier history never changes the acceleration. */
  lemma AccelerationLastThree(earlier: seq<Sample>, last: seq<Sample>)
    requires |last| == 3
    ensures CalculateAcceleration(Some(earlier + last)) == CalculateAcceleration(Some(last))
  {
    var h := earlier + last;
    assert h[|h| - 1] == last[2] && h[|h| - 2] == last[1] && h[|h| - 3] == last[0];
  }

  /**
    Views growing at one constant rate per millisecond over the last three
    samples give zero acceleration, whatever the spacing of the samples.
   */
  lemma SteadyGrowthNoAcceleration(h: seq<Sample>, rate: real)
    requires |h| >= 3
    requires var n := |h|;
      h[n - 3].timestampMs < h[n - 2].timestampMs < h[n - 1].timestampMs
    requires var n := |h|;
      && (h[n - 1].views - h[n - 2].views) as real == rate * (h[n - 1].timestampMs - h[n - 2].timestampMs) as real
      && (h[n - 2].views - h[n - 3].views) as real == rate * (h[n - 2].timestampMs - h[n - 3].timestampMs) as real
    ensures CalculateAcceleration(Some(h)) == PerDay(0.0)
  {
    var n := |h|;
    SlopeOfRate(h[n - 2], h[n - 1], rate);
    SlopeOfRate(h[n - 3], h[n - 2], rate);
  }

  lemma SlopeOfRate(a: Sample, b: Sample, rate: real)
    requires a.timestampMs < b.timestampMs
    requires (b.views - a.views) as real == rate * (b.timestampMs - a.timestampMs) as real
    ensures Slope(a, b) == rate * MsPerDay as real
  {
    var dt := (b.timestampMs - a.timestampMs) as real;
    var days := dt / MsPerDay as real;
    assert days * MsPerDay as real == dt;
    assert (rate * dt) / days == rate * MsPerDay as real;
  }

  /** The default card: the last three days gained 670,000 and then 650,000 views. */
  const DefaultHistory := [
    Sample(1717840800000, 0),
    Sample(1717862400000, 25000),
    Sample(1717927200000, 180000),
    Sample(1718013600000, 850000),
    Sample(1718100000000, 1500000)
  ]

  lemma DefaultAcceleration()
    ensures CalculateAcceleration(Some(DefaultHistory)) == PerDay(-20000.0)
  {
    var h := DefaultHistory;
    assert h[4].timestampMs - h[3].timestampMs == MsPerDay;
    assert h[3].timestampMs - h[2].timestampMs == MsPerDay;
    assert Slope(h[3], h[4]) == 650000.0;
    assert Slope(h[2], h[3]) == 670000.0;
  }

  /** `ageMultiplier`: bounds halve after a week and drop by 30% after three days. */
  function AgeMultiplier(age: real): (m: real)
    ensures 0.0 < m <= 1.0
  {
    if age > 7.0 then 1.0 / 2.0 else if age > 3.0 then 7.0 / 10.0 else 1.0
  }

  /** `getVelocityCategory`'s cascade before scaling, best row first. */
  const VelocityTiers := [Tier(100000.0, "Viral"), Tier(50000.0, "Trending"), Tier(10000.0, "Growing"), Tier(1000.0, "Steady")]

  datatype VelocityCategory = VelocityCategory(name: string, color: string, icon: string)

  function Style(tag: string): VelocityCategory
  {
    if tag == "Viral" then VelocityCategory(tag, "bg-purple-500", "\U{1F680}")
    else if tag == "Trending" then VelocityCategory(tag, "bg-red-500", "\U{1F525}")
    else if tag == "Growing" then VelocityCategory(tag, "bg-green-500", "\U{1F4C8}")
    else if tag == "Steady" then VelocityCategory(tag, "bg-blue-500", "\U{1F4CA}")
    else VelocityCategory(tag, "bg-gray-500", "\U{23F3}")
  }

  /** The rows scaled by the multiplier keep their order. */
  lemma ScaledDescending(m: real)
    requires m > 0.0
    ensures Descending(Scale(VelocityTiers, m))
  {
    var t := Scale(VelocityTiers, m);
    forall i, j | 0 <= i < j < |t| ensures t[i].bound > t[j].bound {
      assert VelocityTiers[i].bound > VelocityTiers[j].bound;
    }
  }

  /** `getVelocityCategory(dailyVel, videoAge)`: each badge on exactly its band of scaled bounds. */
  function GetVelocityCategory(dailyVel: int, age: real): (c: VelocityCategory)
    ensures var v, m := dailyVel as real, AgeMultiplier(age);
      && (c.name == "Viral" <==> v >= 100000.0 * m)
      && (c.name == "Trending" <==> 50000.0 * m <= v < 100000.0 * m)
      && (c.name == "Growing" <==> 10000.0 * m <= v < 50000.0 * m)
      && (c.name == "Steady" <==> 1000.0 * m <= v < 10000.0 * m)
      && (c.name == "Slow" <==> v < 1000.0 * m)
    ensures c == Style(c.name)
  {
    var m := AgeMultiplier(age);
    var table := Scale(VelocityTiers, m);
    ScaledDescending(m);
    TierIndexInterval(table, dailyVel as real, 1);
    TierIndexInterval(table, dailyVel as real, 2);
    TierIndexInterval(table, dailyVel as real, 3);
    Style(Classify(table, "Slow", dailyVel as real))
  }

  /**
    The bounds in views per day for each age: full up to three days, 70%
    after three days, half after a week.
   */
  lemma VelocityBoundsByAge(dailyVel: int, age: real)
    ensures var c := GetVelocityCategory(dailyVel, age);
      age <= 3.0 ==> (c.name == "Viral" <==> dailyVel >= 100000) && (c.name == "Slow" <==> dailyVel < 1000)
    ensures var c := GetVelocityCategory(dailyVel, age);
      3.0 < age <= 7.0 ==> (c.name == "Viral" <==> dailyVel >= 70000) && (c.name == "Slow" <==> dailyVel < 700)
    ensures var c := GetVelocityCategory(dailyVel, age);
      age > 7.0 ==> (c.name == "Viral" <==> dailyVel >= 50000) && (c.name == "Slow" <==> dailyVel < 500)
  {
  }

  /** Position of a badge in the cascade: 0 is the best. */
  function Rank(tag: string): nat
  {
    if tag == "Viral" then 0
    else if tag == "Trending" then 1
    else if tag == "Growing" then 2
    else if tag == "Steady" then 3
    else 4
  }

  lemma RankIsTierIndex(dailyVel: int, age: real)
    ensures Rank(GetVelocityCategory(dailyVel, age).name) == TierIndex(Scale(VelocityTiers, AgeMultiplier(age)), dailyVel as real)
  {
    var m := AgeMultiplier(age);
    var table := Scale(VelocityTiers, m);
    var i := TierIndex(table, dailyVel as real);
    assert i < 4 ==> table[i].name == VelocityTiers[i].name;
  }

  /** A faster video of the same age never gets a worse badge. */
  lemma VelocityMonotone(slower: int, faster: int, age: real)
    requires slower <= faster
    ensures Rank(GetVelocityCategory(faster, age).name) <= Rank(GetVelocityCategory(slower, age).name)
  {
    RankIsTierIndex(slower, age);
    RankIsTierIndex(faster, age);
    TierIndexMonotone(Scale(VelocityTiers, AgeMultiplier(age)), slower as real, faster as real);
  }

  /** At the same velocity an older video never gets a worse badge: its bounds only shrink. */
  lemma OlderNeverLower(dailyVel: int, younger: real, older: real)
    requires younger <= older
    ensures Rank(GetVelocityCategory(dailyVel, older).name) <= Rank(GetVelocityCategory(dailyVel, younger).name)
  {
    RankIsTierIndex(dailyVel, younger);
    RankIsTierIndex(dailyVel, older);
    var mo, my := AgeMultiplier(older), AgeMultiplier(younger);
    assert mo <= my;
    var low, high := Scale(VelocityTiers, mo), Scale(VelocityTiers, my);
    forall i | 0 <= i < |low| ensures low[i].bound <= high[i].bound {
      assert VelocityTiers[i].bound >= 0.0;
    }
    LowerBoundsNoWorse(low, high, dailyVel as real);
  }

  /**
    `formatNumber(num)` of this card: M from a million, K from a thousand,
    otherwise `Math.round(num)`; it also receives non-integers (the
    acceleration).
   */
  function FormatNumber(num: real): (r: string)
    ensures |r| >= 1
    ensures num >= 1000000.0 ==> r[|r| - 1] == 'M'
    ensures 1000.0 <= num < 1000000.0 ==> r[|r| - 1] == 'K'
    ensures num < 1000.0 ==> ParseInt(r) == Some(MathRound(num))
  {
    ParseIntRoundTrip(MathRound(num));
    if num >= 1000000.0 then ToFixed1(num / 1000000.0) + "M"
    else if num >= 1000.0 then ToFixed1(num / 1000.0) + "K"
    else IntToString(MathRound(num))
  }

  /**
    What the card shows from a thousand on: the number in millions or
    thousands rounded to one decimal with the unit's letter.
   */
  lemma FormatNumberValue(num: real)
    ensures 1000000.0 <= num ==> ShowsScaled(FormatNumber(num), MathRound(num / 100000.0), 'M')
    ensures 1000.0 <= num < 1000000.0 ==> ShowsScaled(FormatNumber(num), MathRound(num / 100.0), 'K')
  {
    if num >= 1000000.0 {
      Millions(num);
    } else if num >= 1000.0 {
      Thousands(num);
    }
  }

  lemma Millions(num: real)
    requires 1000000.0 <= num
    ensures ShowsScaled(FormatNumber(num), MathRound(num / 100000.0), 'M')
  {
    var x := num / 1000000.0;
    assert FormatNumber(num) == ToFixed1(x) + ['M'];
    ToFixed1Suffixed(FormatNumber(num), x, num / 100000.0, 'M');
  }

  lemma Thousands(num: real)
    requires 1000.0 <= num < 1000000.0
    ensures ShowsScaled(FormatNumber(num), MathRound(num / 100.0), 'K')
  {
    var x := num / 1000.0;
    assert FormatNumber(num) == ToFixed1(x) + ['K'];
    ToFixed1Suffixed(FormatNumber(num), x, num / 100.0, 'K');
  }

  /** On whole numbers this card formats exactly as the engagement card does. */
  lemma FormatNumberMatchesEngagement(n: int)
    ensures FormatNumber(n as real) == EngagementRate.FormatNumber(n)
  {
    assert MathRound(n as real) == n;
  }

  /**
    `formatTimeAgo(days)`: whole hours under a day, whole days under a
    week, whole weeks after that, each rounded by `Math.round`.
   */
  function FormatTimeAgo(days: real): (r: string)
  {
    if days < 1.0 then IntToString(MathRound(days * 24.0)) + "h ago"
    else if days < 7.0 then IntToString(MathRound(days)) + "d ago"
    else IntToString(MathRound(days / 7.0)) + "w ago"
  }

  /** The number the age text starts with, and its unit letter. */
  function TimeAgoCount(days: real): int
  {
    if days < 1.0 then MathRound(days * 24.0)
    else if days < 7.0 then MathRound(days)
    else MathRound(days / 7.0)
  }

  function TimeAgoUnit(days: real): char
  {
    if days < 1.0 then 'h' else if days < 7.0 then 'd' else 'w'
  }

  /** The age text reads back as its count followed by its unit. */
  lemma FormatTimeAgoReads(days: real)
    ensures var r, k := FormatTimeAgo(days), TimeAgoCount(days);
      && r == IntToString(k) + [TimeAgoUnit(days)] + " ago"
      && ParseInt(r) == Some(k)
  {
    var k := TimeAgoCount(days);
    var rest := [TimeAgoUnit(days)] + " ago";
    assert FormatTimeAgo(days) == IntToString(k) + rest;
    ParseIntOfIntToString(k, rest);
  }

  /**
    For a floored age the count stays in its band: 0 to 24 hours, 1 to 7
    days, and from a week on the nearest whole number of weeks.
   */
  lemma TimeAgoBands(days: real)
    requires days >= 1.0 / 100.0
    ensures days < 1.0 ==> 0 <= TimeAgoCount(days) <= 24
    ensures 1.0 <= days < 7.0 ==> 1 <= TimeAgoCount(days) <= 7
    ensures days >= 7.0 ==> (TimeAgoCount(days) >= 1 &&
      -7.0 / 2.0 < 7.0 * TimeAgoCount(days) as real - days <= 7.0 / 2.0)
  {
    if days >= 7.0 {
      var k := TimeAgoCount(days);
      assert -1.0 / 2.0 < k as real - days / 7.0 <= 1.0 / 2.0;
      assert 7.0 * (k as real - days / 7.0) == 7.0 * k as real - days;
    }
  }

  /** What the card shows. */
  datatype VelocityCard = VelocityCard(
    badge: VelocityCategory,
    perDay: string,
    perHour: string,
    published: string,
    acceleration: Acceleration,
    nextWeek: string)

  /**
    The card for one video: the badge of its daily velocity at its age, the
    daily and hourly velocities and the age as text, the acceleration of
    its history and the one-week projection.
   */
  function Card(views: int, timeDiffMs: int, history: Option<seq<Sample>>): (c: VelocityCard)
    ensures c.badge == GetVelocityCategory(DailyVelocity(views, timeDiffMs), DaysSincePublish(timeDiffMs))
    ensures c.perDay == FormatNumber(DailyVelocity(views, timeDiffMs) as real)
    ensures c.perHour == FormatNumber(HourlyVelocity(views, timeDiffMs) as real)
    ensures c.published == FormatTimeAgo(DaysSincePublish(timeDiffMs))
    ensures c.acceleration == CalculateAcceleration(history)
    ensures c.nextWeek == FormatNumber(WeekProjection(views, timeDiffMs) as real)
  {
    var days := DaysSincePublish(timeDiffMs);
    var daily := DailyVelocity(views, timeDiffMs);
    VelocityCard(
      GetVelocityCategory(daily, days),
      FormatNumber(daily as real),
      FormatNumber(HourlyVelocity(views, timeDiffMs) as real),
      FormatTimeAgo(days),
      CalculateAcceleration(history),
      FormatNumber((daily * 7) as real))
  }
}
