/**
  `components/metrics/engagement-rate.tsx`: the engagement card of one
  video. The rate is likes plus comments per hundred views, rounded to two
  decimals; the badge is chosen from that rounded rate by a four-step
  cascade; the breakdown shows like rate, comment rate and comments per
  like without any guard against a zero divisor. Counts are numbers here,
  not strings.
 */
module EngagementRate {
  import opened Numbers
  import opened Text
  import opened Thresholds
  import Utils

  datatype VideoData = VideoData(title: string, views: int, likes: int, comments: int, publishedAt: string)

  /** The `videoData` default of the card. */
  const DefaultVideo := VideoData("Sample Video Title", 1000000, 45000, 2500, "2024-06-01T10:00:00Z")

  /**
    `calculateEngagementRate`, read back by `parseFloat`: 0 for no views,
    otherwise (likes + comments) / views * 100 to two decimals.
   */
  function CalculateEngagementRate(likes: int, comments: int, views: int): (r: real)
    ensures views == 0 ==> r == 0.0
    ensures views != 0 ==>
      -1.0 / 2.0 <= (r - (likes + comments) as real / views as real * 100.0) * 100.0 <= 1.0 / 2.0
    ensures views != 0 ==> IsFixed(r, (likes + comments) as real / views as real * 100.0, 2)
  {
    if views == 0 then 0.0
    else ToFixedValue((likes + comments) as real / views as real * 100.0, 2)
  }

  /** `getEngagementCategory`'s cascade, best row first. */
  const EngagementTiers := [Tier(5.0, "Excellent"), Tier(3.0, "Very Good"), Tier(1.0, "Good")]

  const BelowAverage := "Below Average"

  datatype Category = Category(name: string, color: string)

  function ColorOf(tag: string): string
  {
    if tag == "Excellent" then "bg-green-500"
    else if tag == "Very Good" then "bg-blue-500"
    else if tag == "Good" then "bg-yellow-500"
    else "bg-red-500"
  }

  /** `getEngagementCategory(rate)`: each label on exactly its band of rates. */
  function GetEngagementCategory(rate: real): (c: Category)
    ensures c.name == "Excellent" <==> rate >= 5.0
    ensures c.name == "Very Good" <==> 3.0 <= rate < 5.0
    ensures c.name == "Good" <==> 1.0 <= rate < 3.0
    ensures c.name == BelowAverage <==> rate < 1.0
    ensures c.color == ColorOf(c.name)
  {
    var name := Classify(EngagementTiers, BelowAverage, rate);
    assert Descending(EngagementTiers);
    TierIndexInterval(EngagementTiers, rate, 1);
    TierIndexInterval(EngagementTiers, rate, 2);
    Category(name, ColorOf(name))
  }

  /** Position of a label in the cascade: 0 is the best. */
  function Rank(tag: string): nat
  {
    if tag == "Excellent" then 0
    else if tag == "Very Good" then 1
    else if tag == "Good" then 2
    else 3
  }

  /** A higher rate never gets a worse badge. */
  lemma CategoryMonotone(x: real, y: real)
    requires x <= y
    ensures Rank(GetEngagementCategory(y).name) <= Rank(GetEngagementCategory(x).name)
  {
    TierIndexMonotone(EngagementTiers, x, y);
    assert Rank(GetEngagementCategory(x).name) == TierIndex(EngagementTiers, x);
    assert Rank(GetEngagementCategory(y).name) == TierIndex(EngagementTiers, y);
  }

  /** The badge the card shows for a video. */
  function Badge(v: VideoData): Category
  {
    GetEngagementCategory(CalculateEngagementRate(v.likes, v.comments, v.views))
  }

  /** A video without views rates 0 and is below average, whatever its likes. */
  lemma ZeroViewsBelowAverage(v: VideoData)
    requires v.views == 0
    ensures CalculateEngagementRate(v.likes, v.comments, v.views) == 0.0
    ensures Badge(v).name == BelowAverage
  {
  }

  /**
    The badge follows the rounded rate: 4,996 interactions per 100,000
    views is 4.996 percent, which rounds to 5.00 and so reads Excellent.
   */
  lemma BadgeUsesRoundedRate()
    ensures (4996 as real / 100000 as real * 100.0) < 5.0
    ensures CalculateEngagementRate(4996, 0, 100000) == 5.0
    ensures Badge(VideoData("", 100000, 4996, 0, "")).name == "Excellent"
  {
    var x := 4996 as real / 100000 as real * 100.0;
    assert x * 100.0 == 499.6;
    assert MathRound(499.6) == 500;
    assert CalculateEngagementRate(4996, 0, 100000) == 500 as real / 100.0;
  }

  /** The default video: 47,500 interactions per million views is 4.75, "Very Good". */
  lemma DefaultExample()
    ensures CalculateEngagementRate(DefaultVideo.likes, DefaultVideo.comments, DefaultVideo.views) == 4.75
    ensures Badge(DefaultVideo) == Category("Very Good", "bg-blue-500")
  {
    var x := (45000 + 2500) as real / 1000000 as real * 100.0;
    assert x == 4.75;
    assert MathRound(x * 100.0) == 475;
  }

  /**
    `formatNumber(num)` of this card: M from a million, K from a thousand,
    otherwise the number itself; there is no B tier.
   */
  function FormatNumber(num: int): (r: string)
    ensures |r| >= 1
    ensures num >= 1000000 ==> r[|r| - 1] == 'M'
    ensures 1000 <= num < 1000000 ==> r[|r| - 1] == 'K'
    ensures num < 1000 ==> ParseInt(r) == Some(num)
  {
    ParseIntRoundTrip(num);
    if num >= 1000000 then ToFixed1(num as real / 1000000.0) + "M"
    else if num >= 1000 then ToFixed1(num as real / 1000.0) + "K"
    else IntToString(num)
  }

  /** Below a billion this card writes a count as the shared formatter writes its decimal text. */
  lemma FormatNumberAgrees(num: int)
    requires num < 1000000000
    ensures FormatNumber(num) == Utils.FormatNumber(IntToString(num))
  {
    var t := IntToString(num);
    ParseIntRoundTrip(num);
    SharedFormat(num, t);
  }

  /** The shared formatter on any text that parses to num below a billion. */
  lemma SharedFormat(num: int, t: string)
    requires ParseInt(t) == Some(num) && num < 1000000000
    ensures 1000000 <= num ==> Utils.FormatNumber(t) == ToFixed1(num as real / 1000000.0) + "M"
    ensures 1000 <= num < 1000000 ==> Utils.FormatNumber(t) == ToFixed1(num as real / 1000.0) + "K"
    ensures num < 1000 ==> Utils.FormatNumber(t) == IntToString(num)
  {
    assert Utils.FormatNumber(t) == Utils.FormatCount(num);
  }

  /**
    What the card shows: from a thousand on, the count in millions or
    thousands rounded to one decimal with the unit's letter.
   */
  lemma FormatNumberValue(num: int)
    ensures 1000000 <= num ==> ShowsScaled(FormatNumber(num), MathRound(num as real / 100000.0), 'M')
    ensures 1000 <= num < 1000000 ==> ShowsScaled(FormatNumber(num), MathRound(num as real / 100.0), 'K')
  {
    if num >= 1000000 {
      Millions(num);
    } else if num >= 1000 {
      Thousands(num);
    }
  }

  lemma Millions(num: int)
    requires 1000000 <= num
    ensures ShowsScaled(FormatNumber(num), MathRound(num as real / 100000.0), 'M')
  {
    var x := num as real / 1000000.0;
    assert FormatNumber(num) == ToFixed1(x) + ['M'];
    ToFixed1Suffixed(FormatNumber(num), x, num as real / 100000.0, 'M');
  }

  lemma Thousands(num: int)
    requires 1000 <= num < 1000000
    ensures ShowsScaled(FormatNumber(num), MathRound(num as real / 100.0), 'K')
  {
    var x := num as real / 1000.0;
    assert FormatNumber(num) == ToFixed1(x) + ['K'];
    ToFixed1Suffixed(FormatNumber(num), x, num as real / 100.0, 'K');
  }

  /**
    From a billion on the two differ: this card stays in millions where
    the shared formatter switches to billions.
   */
  lemma FormatNumberBillion(n: int)
    requires n >= 1000000000
    ensures ShowsScaled(FormatNumber(n), MathRound(n as real / 100000.0), 'M')
    ensures ShowsScaled(Utils.FormatNumber(IntToString(n)), MathRound(n as real / 100000000.0), 'B')
    ensures FormatNumber(n) != Utils.FormatNumber(IntToString(n))
  {
    FormatNumberValue(n);
    Utils.FormatCountAsText(n);
    Utils.FormatCountValue(n);
  }

  /**
    A ratio of the breakdown to two decimals; `None` stands for the
    `NaN` or `Infinity` the unguarded division gives for a zero divisor.
   */
  function Ratio(num: int, den: int, scale: real): (r: Option<real>)
    ensures r.None? <==> den == 0
    ensures r.Some? ==> -1.0 / 2.0 <= (r.value - num as real / den as real * scale) * 100.0 <= 1.0 / 2.0
    ensures r.Some? ==> IsFixed(r.value, num as real / den as real * scale, 2)
  {
    if den == 0 then None else Some(ToFixedValue(num as real / den as real * scale, 2))
  }

  /** "Like Rate": likes per hundred views. */
  function LikeRate(v: VideoData): Option<real>
  {
    Ratio(v.likes, v.views, 100.0)
  }

  /** "Comment Rate": comments per hundred views. */
  function CommentRate(v: VideoData): Option<real>
  {
    Ratio(v.comments, v.views, 100.0)
  }

  /** "Comments per Like": divides by likes, so a video without likes shows no number. */
  function CommentsPerLike(v: VideoData): Option<real>
  {
    Ratio(v.comments, v.likes, 1.0)
  }

  /**
    The two rates of the breakdown are finite exactly when the headline
    rate is computed from views, and they add up to it within the three
    half-hundredths their roundings allow.
   */
  lemma RatesAddUp(v: VideoData)
    ensures LikeRate(v).Some? <==> v.views != 0
    ensures CommentRate(v).Some? <==> v.views != 0
    ensures v.views != 0 ==>
      var sum := LikeRate(v).value + CommentRate(v).value;
      var rate := CalculateEngagementRate(v.likes, v.comments, v.views);
      -3.0 / 200.0 <= sum - rate <= 3.0 / 200.0
  {
    if v.views != 0 {
      var n := v.views as real;
      var l, c := v.likes as real / n * 100.0, v.comments as real / n * 100.0;
      assert (v.likes + v.comments) as real / n * 100.0 == l + c;
    }
  }

  /** Comments per like is missing exactly for a video without likes, even one with views. */
  lemma CommentsPerLikeNeedsLikes(v: VideoData)
    ensures CommentsPerLike(v).None? <==> v.likes == 0
    ensures v.likes == 0 && v.views != 0 ==> LikeRate(v) == Some(0.0) && CommentsPerLike(v).None?
  {
  }
}
