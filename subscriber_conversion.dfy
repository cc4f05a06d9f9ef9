/**
  `components/metrics/subscriber-conversion.tsx`: how well one video turns
  viewers into subscribers. Rates are subscribers per hundred views to two
  decimals; the badge comes from a five-step cascade on the rounded rate;
  the card compares the rate with the channel's average and shows how
  many new subscribers stayed. The age floor, the per-day velocity and
  the number format are those of the view-velocity card.
 */
module SubscriberConversion {
  import opened Numbers
  import opened Thresholds
  import ViewVelocity

  /** One entry of `subscriberHistory`. */
  datatype Day = Day(date: string, gained: int, lost: int)

  /**
    `conversionRate` (and, for net subscribers, `netConversionRate`), read
    back by `parseFloat`: subscribers per hundred views to two decimals;
    `None` where JavaScript divides by zero views.
   */
  function PerHundredViews(subscribers: int, views: int): (r: Option<real>)
    ensures r.None? <==> views == 0
    ensures r.Some? ==>
      -1.0 / 2.0 <= (r.value - subscribers as real / views as real * 100.0) * 100.0 <= 1.0 / 2.0
    ensures r.Some? ==> IsFixed(r.value, subscribers as real / views as real * 100.0, 2)
  {
    if views == 0 then None else Some(ToFixedValue(subscribers as real / views as real * 100.0, 2))
  }

  function ConversionRate(newSubscribers: int, views: int): Option<real>
  {
    PerHundredViews(newSubscribers, views)
  }

  function NetConversionRate(newSubscribers: int, subscribersLost: int, views: int): Option<real>
  {
    PerHundredViews(newSubscribers - subscribersLost, views)
  }

  /** Losing subscribers never raises the rate: the net rate is at most the gross one. */
  lemma NetNotAboveGross(newSubscribers: int, subscribersLost: int, views: int)
    requires views > 0 && subscribersLost >= 0
    ensures NetConversionRate(newSubscribers, subscribersLost, views).value <= ConversionRate(newSubscribers, views).value
  {
    var v := views as real;
    var net, gross := (newSubscribers - subscribersLost) as real / v * 100.0, newSubscribers as real / v * 100.0;
    assert net <= gross by {
      assert (newSubscribers - subscribersLost) as real <= newSubscribers as real;
      DivMul(newSubscribers - subscribersLost, newSubscribers, v);
    }
    ToFixedValueMonotone(net, gross, 2);
  }

  lemma DivMul(a: int, b: int, v: real)
    requires a <= b && v > 0.0
    ensures a as real / v * 100.0 <= b as real / v * 100.0
  {
  }

  /** `subscriberVelocity`: new subscribers per day of age, rounded. */
  function SubscriberVelocity(newSubscribers: int, timeDiffMs: int): int
  {
    ViewVelocity.Velocity(newSubscribers, ViewVelocity.DaysSincePublish(timeDiffMs))
  }

  /** Subscribers gained over the history, as the `reduce` adds them. */
  function Gained(history: seq<Day>): int
  {
    if history == [] then 0 else Gained(history[..|history| - 1]) + history[|history| - 1].gained
  }

  /**
    `dailyAverage`: the rounded mean of the daily gains when a history is
    given, the velocity when it is absent; an empty history divides 0 by
    0 and gives `NaN`, here `None`.
   */
  function DailyAverage(history: Option<seq<Day>>, velocity: int): (r: Option<int>)
    ensures r.None? <==> history == Some([])
    ensures history.None? ==> r == Some(velocity)
  {
    match history
    case None => Some(velocity)
    case Some(h) => if h == [] then None else Some(MathRound(Gained(h) as real / |h| as real))
  }

  /** The gains add up to between |h| times the smallest and |h| times the largest day. */
  lemma {:induction false} GainedBounds(h: seq<Day>, lo: int, hi: int)
    requires forall i :: 0 <= i < |h| ==> lo <= h[i].gained <= hi
    ensures |h| * lo <= Gained(h) <= |h| * hi
  {
    if h != [] {
      var init := h[..|h| - 1];
      GainedBounds(init, lo, hi);
      assert |h| * lo == |init| * lo + lo && |h| * hi == |init| * hi + hi;
    }
  }

  /** The daily average lies between the smallest and the largest daily gain. */
  lemma DailyAverageBounds(h: seq<Day>, lo: int, hi: int, velocity: int)
    requires h != []
    requires forall i :: 0 <= i < |h| ==> lo <= h[i].gained <= hi
    ensures var a := DailyAverage(Some(h), velocity); a.Some? && lo <= a.value <= hi
  {
    GainedBounds(h, lo, hi);
    MeanBetween(Gained(h), |h|, lo, hi);
  }

  /** The rounded mean of a sum between n * lo and n * hi lies between lo and hi. */
  lemma MeanBetween(sum: int, n: int, lo: int, hi: int)
    requires n > 0 && n * lo <= sum <= n * hi
    ensures lo <= MathRound(sum as real / n as real) <= hi
  {
    var m := sum as real / n as real;
    assert m * n as real == sum as real;
    assert (n * lo) as real == n as real * lo as real;
    assert (n * hi) as real == n as real * hi as real;
    RealMeanBetween(sum as real, n as real, lo as real, hi as real);
  }

  lemma RealMeanBetween(sum: real, n: real, lo: real, hi: real)
    requires n > 0.0 && n * lo <= sum <= n * hi
    ensures lo <= sum / n <= hi
  {
    assert sum / n * n == sum;
  }

  /** `getConversionCategory`'s cascade, best row first. */
  const ConversionTiers := [Tier(3.0, "Excellent"), Tier(2.0, "Very Good"), Tier(1.0, "Good"), Tier(1.0 / 2.0, "Average")]

  datatype ConversionCategory = ConversionCategory(name: string, color: string, icon: string)

  function Style(tag: string): ConversionCategory
  {
    if tag == "Excellent" then ConversionCategory(tag, "bg-purple-500", "\U{1F31F}")
    else if tag == "Very Good" then ConversionCategory(tag, "bg-green-500", "\U{1F3AF}")
    else if tag == "Good" then ConversionCategory(tag, "bg-blue-500", "\U{1F4C8}")
    else if tag == "Average" then ConversionCategory(tag, "bg-yellow-500", "\U{1F4CA}")
    else ConversionCategory(tag, "bg-red-500", "\U{1F4C9}")
  }

  /** `getConversionCategory(rate)`: each badge on exactly its band of rates. */
  function GetConversionCategory(rate: real): (c: ConversionCategory)
    ensures c.name == "Excellent" <==> rate >= 3.0
    ensures c.name == "Very Good" <==> 2.0 <= rate < 3.0
    ensures c.name == "Good" <==> 1.0 <= rate < 2.0
    ensures c.name == "Average" <==> 1.0 / 2.0 <= rate < 1.0
    ensures c.name == "Below Average" <==> rate < 1.0 / 2.0
    ensures c == Style(c.name)
  {
    assert Descending(ConversionTiers);
    TierIndexInterval(ConversionTiers, rate, 1);
    TierIndexInterval(ConversionTiers, rate, 2);
    TierIndexInterval(ConversionTiers, rate, 3);
    Style(Classify(ConversionTiers, "Below Average", rate))
  }

  function Rank(tag: string): nat
  {
    if tag == "Excellent" then 0
    else if tag == "Very Good" then 1
    else if tag == "Good" then 2
    else if tag == "Average" then 3
    else 4
  }

  /** A higher rate never gets a worse badge. */
  lemma CategoryMonotone(x: real, y: real)
    requires x <= y
    ensures Rank(GetConversionCategory(y).name) <= Rank(GetConversionCategory(x).name)
  {
    TierIndexMonotone(ConversionTiers, x, y);
    var i := TierIndex(ConversionTiers, x);
    var j := TierIndex(ConversionTiers, y);
    assert Rank(GetConversionCategory(x).name) == i;
    assert Rank(GetConversionCategory(y).name) == j;
  }

  /**
    The badge of the card, from `parseFloat(conversionRate)`. Without
    views the rate is `Infinity` for a positive subscriber count, which
    passes every bound, and `NaN` or `-Infinity` otherwise.
   */
  function Badge(newSubscribers: int, views: int): (c: ConversionCategory)
    ensures views == 0 ==> c.name == (if newSubscribers > 0 then "Excellent" else "Below Average")
  {
    match ConversionRate(newSubscribers, views)
    case Some(rate) => GetConversionCategory(rate)
    case None => Style(if newSubscribers > 0 then "Excellent" else "Below Average")
  }

  /** The default card: 12,500 new subscribers from 850,000 views is 1.47, "Good". */
  lemma DefaultExample()
    ensures ConversionRate(12500, 850000) == Some(147.0 / 100.0)
    ensures Badge(12500, 850000).name == "Good"
  {
    var x := 12500 as real / 850000 as real * 100.0;
    assert x * 100.0 == 2500.0 / 17.0;
    assert MathRound(2500.0 / 17.0) == 147;
  }

  /**
    `vsChannelAvg`: the rate relative to the channel average in whole
    percent above it, as `toFixed(0)` rounds it (a half away from zero).
    With an average of 0 the division gives no number, here `None`; the
    card's `channelAvgConversion && …` then renders the number 0 as the
    text "0" instead of the comparison row.
   */
  function VsChannelAvg(rate: real, channelAvgConversion: real): (r: Option<int>)
    ensures r.None? <==> channelAvgConversion == 0.0
    ensures r.Some? ==>
      var exact := rate / channelAvgConversion * 100.0 - 100.0;
      && -1.0 / 2.0 <= r.value as real - exact <= 1.0 / 2.0
      && IsFixed(r.value as real, exact, 0)
  {
    if channelAvgConversion == 0.0 then None
    else Some(RoundHalfAway(rate / channelAvgConversion * 100.0 - 100.0))
  }

  /**
    The arrow points up only for a rate above the channel average, and
    does so for every rate at least half a percent above it.
   */
  lemma VsChannelAvgArrow(rate: real, channelAvgConversion: real)
    requires channelAvgConversion > 0.0
    ensures VsChannelAvg(rate, channelAvgConversion).value > 0 ==> rate > channelAvgConversion
    ensures rate >= channelAvgConversion * 201.0 / 200.0 ==> VsChannelAvg(rate, channelAvgConversion).value > 0
  {
    var q := rate / channelAvgConversion;
    assert q * channelAvgConversion == rate;
    if rate >= channelAvgConversion * 201.0 / 200.0 {
      assert q >= 201.0 / 200.0;
    }
    if q > 1.0 {
      assert (q - 1.0) * channelAvgConversion > 0.0;
    }
  }

  /**
    `retentionRate`: the share of new subscribers that stayed, to one
    decimal; `None` without new subscribers, where JavaScript divides by 0.
   */
  function SubscriberRetention(newSubscribers: int, subscribersLost: int): (r: Option<real>)
    ensures r.None? <==> newSubscribers == 0
    ensures r.Some? ==>
      -1.0 / 2.0 <= (r.value - (newSubscribers - subscribersLost) as real / newSubscribers as real * 100.0) * 10.0 <= 1.0 / 2.0
    ensures r.Some? ==> IsFixed(r.value, (newSubscribers - subscribersLost) as real / newSubscribers as real * 100.0, 1)
  {
    if newSubscribers == 0 then None
    else
      assert Pow10(1) == 10;
      Some(ToFixedValue((newSubscribers - subscribersLost) as real / newSubscribers as real * 100.0, 1))
  }

  /** When no more subscribers left than joined, the share that stayed is a percentage. */
  lemma SubscriberRetentionBounds(newSubscribers: int, subscribersLost: int)
    requires 0 <= subscribersLost <= newSubscribers && newSubscribers > 0
    ensures 0.0 <= SubscriberRetention(newSubscribers, subscribersLost).value <= 100.0
  {
    var n := newSubscribers as real;
    var x := (newSubscribers - subscribersLost) as real / n * 100.0;
    assert 0.0 <= x <= 100.0 by {
      assert (newSubscribers - subscribersLost) as real <= n;
      RealMeanBetween((newSubscribers - subscribersLost) as real, n, 0.0, 1.0);
    }
    ToFixedValueMonotone(0.0, x, 1);
    ToFixedValueMonotone(x, 100.0, 1);
    assert ToFixedValue(0.0, 1) == 0.0 by {
      assert Pow10(1) == 10;
      assert RoundHalfAway(0.0) == 0;
    }
    assert ToFixedValue(100.0, 1) == 100.0 by {
      assert Pow10(1) == 10;
      assert RoundHalfAway(1000.0) == 1000;
    }
  }
}
