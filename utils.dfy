/**
  `lib/utils.ts`: the compact count format used on every card, the
  relative age label of a video, and the publish-time window test behind
  the time filter. Times are millisecond timestamps; the wall clock is the
  parameter `now`.
 */
module Utils {
  import opened Numbers
  import opened Text

  const MsPerHour: int := 1000 * 60 * 60

  /**
    `formatNumber(count)`: "0" when the text holds no number, otherwise one
    decimal and a B, M or K suffix from the thousand tier the parsed integer
    reaches, and the plain integer below a thousand.
   */
  function FormatNumber(count: string): (r: string)
    ensures |r| >= 1
  {
    match ParseInt(count)
    case None => "0"
    case Some(num) => FormatCount(num)
  }

  /** The tier cascade of `formatNumber` on the parsed integer. */
  function FormatCount(num: int): (r: string)
    ensures |r| >= 1
  {
    if num >= 1000000000 then ToFixed1(num as real / 1000000000.0) + "B"
    else if num >= 1000000 then ToFixed1(num as real / 1000000.0) + "M"
    else if num >= 1000 then ToFixed1(num as real / 1000.0) + "K"
    else IntToString(num)
  }

  /**
    The cascade on a number is the formatter on its decimal text; the
    time and category cards' own `formatNumber(num)` copies are this
    cascade.
   */
  lemma FormatCountAsText(num: int)
    ensures FormatCount(num) == FormatNumber(IntToString(num))
  {
    ParseIntRoundTrip(num);
  }

  /**
    What the cascade shows: from a thousand on, the count in billions,
    millions or thousands rounded to one decimal (q tenths of the unit)
    with the unit's letter; below a thousand the integer itself.
   */
  lemma FormatCountValue(num: int)
    ensures num >= 1000000000 ==> ShowsScaled(FormatCount(num), MathRound(num as real / 100000000.0), 'B')
    ensures 1000000 <= num < 1000000000 ==> ShowsScaled(FormatCount(num), MathRound(num as real / 100000.0), 'M')
    ensures 1000 <= num < 1000000 ==> ShowsScaled(FormatCount(num), MathRound(num as real / 100.0), 'K')
    ensures num < 1000 ==> ParseInt(FormatCount(num)) == Some(num)
  {
    if num >= 1000000000 {
      Billions(num);
    } else if num >= 1000000 {
      Millions(num);
    } else if num >= 1000 {
      Thousands(num);
    } else {
      ParseIntRoundTrip(num);
    }
  }

  lemma Billions(num: int)
    requires num >= 1000000000
    ensures ShowsScaled(FormatCount(num), MathRound(num as real / 100000000.0), 'B')
  {
    var x := num as real / 1000000000.0;
    assert FormatCount(num) == ToFixed1(x) + ['B'];
    ToFixed1Suffixed(FormatCount(num), x, num as real / 100000000.0, 'B');
  }

  lemma Millions(num: int)
    requires 1000000 <= num < 1000000000
    ensures ShowsScaled(FormatCount(num), MathRound(num as real / 100000.0), 'M')
  {
    var x := num as real / 1000000.0;
    assert FormatCount(num) == ToFixed1(x) + ['M'];
    ToFixed1Suffixed(FormatCount(num), x, num as real / 100000.0, 'M');
  }

  lemma Thousands(num: int)
    requires 1000 <= num < 1000000
    ensures ShowsScaled(FormatCount(num), MathRound(num as real / 100.0), 'K')
  {
    var x := num as real / 1000.0;
    assert FormatCount(num) == ToFixed1(x) + ['K'];
    ToFixed1Suffixed(FormatCount(num), x, num as real / 100.0, 'K');
  }

  /** `formatViewCount` is bound to the very same function. */
  function FormatViewCount(count: string): (r: string)
    ensures r == FormatNumber(count)
  {
    FormatNumber(count)
  }

  /** Text with no parsable integer is shown as "0". */
  lemma FormatNumberUnparsable(count: string)
    requires ParseInt(count).None?
    ensures FormatNumber(count) == "0"
  {
  }

  /**
    The suffix names the tier: B exactly from a billion, M exactly on
    [1e6, 1e9), K exactly on [1e3, 1e6); below a thousand, negatives
    included, the text is the integer itself and reads back as it.
   */
  lemma FormatNumberTiers(count: string, num: int)
    requires ParseInt(count) == Some(num)
    ensures var r := FormatNumber(count);
      && (r[|r| - 1] == 'B' <==> num >= 1000000000)
      && (r[|r| - 1] == 'M' <==> 1000000 <= num < 1000000000)
      && (r[|r| - 1] == 'K' <==> 1000 <= num < 1000000)
      && (num >= 1000000000 ==> ShowsScaled(r, MathRound(num as real / 100000000.0), 'B'))
      && (1000000 <= num < 1000000000 ==> ShowsScaled(r, MathRound(num as real / 100000.0), 'M'))
      && (1000 <= num < 1000000 ==> ShowsScaled(r, MathRound(num as real / 100.0), 'K'))
      && (num < 1000 ==> ParseInt(r) == Some(num))
  {
    var r := FormatNumber(count);
    FormatCountValue(num);
    if num < 1000 {
      ParseIntRoundTrip(num);
      assert r == IntToString(num);
      assert IsDigit(r[|r| - 1]) by {
        if num < 0 {
          assert r[|r| - 1] == r[1..][|r| - 2];
        }
      }
    }
  }

  /**
    The tier is picked before rounding, so a count just below a million
    shows as a thousand thousands.
   */
  lemma FormatNumberBelowMillion()
    ensures FormatNumber("999999") == "1000.0K"
  {
    ParseSixNines();
    ToFixed1Thousand();
  }

  lemma ParseSixNines()
    ensures ParseInt("999999") == Some(999999)
  {
    assert NatToString(99) == "99";
    assert NatToString(9999) == "9999" by {
      assert NatToString(999) == NatToString(99) + "9";
    }
    assert NatToString(999999) == "999999" by {
      assert NatToString(99999) == NatToString(9999) + "9";
    }
    ParseIntRoundTrip(999999);
  }

  lemma ToFixed1Thousand()
    ensures ToFixed1(999999 as real / 1000.0) == "1000.0"
  {
    assert MathRound(999999 as real / 1000.0 * 10.0) == 10000;
    assert NatToString(1000) == "1000" by {
      assert NatToString(10) == "10";
      assert NatToString(100) == "100";
    }
  }

  /** Number of complete units of `unit` in d, as `Math.floor(d / unit)` computes it. */
  lemma FloorOfQuotient(d: int, unit: int)
    requires unit > 0
    ensures MathFloor(d as real / unit as real) == d / unit
  {
    var q, m := d / unit, d % unit;
    assert d == q * unit + m;
    assert d as real / unit as real == q as real + m as real / unit as real;
    assert 0.0 <= m as real / unit as real < 1.0;
  }

  /**
    `getTimeAgo(date)` with the clock reading `now`: whole hours, then whole
    days, weeks or months since publication.
   */
  function GetTimeAgo(publishedAt: int, now: int): (r: string)
  {
    LabelForHours(MathFloor((now - publishedAt) as real / MsPerHour as real))
  }

  function LabelForHours(diffInHours: int): string
  {
    if diffInHours < 1 then "Just now"
    else if diffInHours < 24 then IntToString(diffInHours) + "h ago"
    else
      var diffInDays := MathFloor(diffInHours as real / 24.0);
      if diffInDays < 7 then IntToString(diffInDays) + "d ago"
      else
        var diffInWeeks := MathFloor(diffInDays as real / 7.0);
        if diffInWeeks < 4 then IntToString(diffInWeeks) + "w ago"
        else IntToString(MathFloor(diffInDays as real / 30.0)) + "mo ago"
  }

  /**
    The label by elapsed whole hours h: under one hour (future dates too)
    "Just now", then hours below a day, days below a week, weeks below
    28 days and months (of 30 days) from then on.
   */
  lemma GetTimeAgoByHours(publishedAt: int, now: int)
    ensures GetTimeAgo(publishedAt, now) == IntegerLabel((now - publishedAt) / MsPerHour)
  {
    FloorOfQuotient(now - publishedAt, MsPerHour);
    LabelForHoursInteger((now - publishedAt) / MsPerHour);
  }

  function IntegerLabel(h: int): string
  {
    if h < 1 then "Just now"
    else if h < 24 then IntToString(h) + "h ago"
    else if h < 7 * 24 then IntToString(h / 24) + "d ago"
    else if h < 28 * 24 then IntToString(h / 24 / 7) + "w ago"
    else IntToString(h / 24 / 30) + "mo ago"
  }

  lemma LabelForHoursInteger(h: int)
    ensures LabelForHours(h) == IntegerLabel(h)
  {
    if h >= 28 * 24 {
      LabelMonths(h);
    } else if h >= 7 * 24 {
      LabelWeeks(h);
    } else if h >= 24 {
      FloorOfQuotient(h, 24);
    }
  }

  lemma LabelWeeks(h: int)
    requires 7 * 24 <= h < 28 * 24
    ensures LabelForHours(h) == IntToString(h / 24 / 7) + "w ago"
  {
    FloorOfQuotient(h, 24);
    assert 7 <= h / 24 < 28;
    FloorOfQuotient(h / 24, 7);
  }

  lemma LabelMonths(h: int)
    requires h >= 28 * 24
    ensures LabelForHours(h) == IntToString(h / 24 / 30) + "mo ago"
  {
    var d := MathFloor(h as real / 24.0);
    FloorOfQuotient(h, 24);
    FloorOfQuotient(d, 7);
    FloorOfQuotient(d, 30);
    MonthsLabel(h, d, MathFloor(d as real / 7.0), MathFloor(d as real / 30.0), h / 24 / 30);
  }

  lemma MonthsLabel(h: int, d: int, w: int, m: int, months: int)
    requires h >= 24 && d == MathFloor(h as real / 24.0) && d >= 7
    requires w == MathFloor(d as real / 7.0) && w >= 4
    requires m == MathFloor(d as real / 30.0) && m == months
    ensures LabelForHours(h) == IntToString(months) + "mo ago"
  {
  }

  /** From four weeks up to 30 days the month count is zero. */
  lemma IntegerLabelZeroMonths(h: int)
    requires 28 * 24 <= h < 30 * 24
    ensures IntegerLabel(h) == "0mo ago"
  {
    assert IntegerLabel(h) == IntToString(h / 24 / 30) + "mo ago";
    ZeroString(h / 24 / 30);
  }

  /** A video between 28 and 30 days old is labelled "0mo ago". */
  lemma GetTimeAgoZeroMonths(publishedAt: int, now: int)
    requires 28 * 24 * MsPerHour <= now - publishedAt < 30 * 24 * MsPerHour
    ensures GetTimeAgo(publishedAt, now) == "0mo ago"
  {
    GetTimeAgoByHours(publishedAt, now);
    IntegerLabelZeroMonths((now - publishedAt) / MsPerHour);
  }

  /** getTimeAgo with the month count starting at one once four weeks have passed. */
  function GetTimeAgoCorrected(publishedAt: int, now: int): (r: string)
  {
    var h := MathFloor((now - publishedAt) as real / MsPerHour as real);
    if h < 28 * 24 then GetTimeAgo(publishedAt, now)
    else
      var days := MathFloor(h as real / 24.0);
      var months := MathFloor(days as real / 30.0);
      IntToString(if months < 1 then 1 else months) + "mo ago"
  }

  /**
    The corrected label never shows a zero count: every label other than
    "Just now" starts with a non-zero digit.
   */
  lemma GetTimeAgoCorrectedPositive(publishedAt: int, now: int)
    ensures var r := GetTimeAgoCorrected(publishedAt, now);
      r == "Just now" || (r[0] != '0' && IsDigit(r[0]))
  {
    var h := (now - publishedAt) / MsPerHour;
    GetTimeAgoByHours(publishedAt, now);
    FloorOfQuotient(now - publishedAt, MsPerHour);
    var r := GetTimeAgoCorrected(publishedAt, now);
    if h >= 28 * 24 {
      FloorOfQuotient(h, 24);
      FloorOfQuotient(h / 24, 30);
      var months := h / 24 / 30;
      NatToStringLeading(if months < 1 then 1 else months);
    } else if h >= 7 * 24 {
      NatToStringLeading(h / 24 / 7);
    } else if h >= 24 {
      NatToStringLeading(h / 24);
    } else if h >= 1 {
      NatToStringLeading(h);
    }
  }

  /** A positive number is written without a leading zero. */
  lemma {:induction false} NatToStringLeading(n: nat)
    requires n >= 1
    ensures NatToString(n)[0] != '0' && IsDigit(NatToString(n)[0])
  {
    if n >= 10 {
      NatToStringLeading(n / 10);
    }
  }

  /**
    `isWithinTimeRange(publishedAt, timeRange)`: elapsed hours (fractional)
    at most 24, 168 or 720 for "24h", "7d" and "30d"; "all" and every other
    string let everything through.
   */
  function IsWithinTimeRange(publishedAt: int, timeRange: string, now: int): (b: bool)
  {
    var diffInHours := (now - publishedAt) as real / MsPerHour as real;
    if timeRange == "24h" then diffInHours <= 24.0
    else if timeRange == "7d" then diffInHours <= 168.0
    else if timeRange == "30d" then diffInHours <= 720.0
    else true
  }

  /** Window length in milliseconds, none for "all" and unknown ranges. */
  function WindowMs(timeRange: string): Option<int>
  {
    if timeRange == "24h" then Some(24 * MsPerHour)
    else if timeRange == "7d" then Some(168 * MsPerHour)
    else if timeRange == "30d" then Some(720 * MsPerHour)
    else None
  }

  /** The window test is an exact comparison of elapsed milliseconds. */
  lemma WithinTimeRangeMs(publishedAt: int, timeRange: string, now: int)
    ensures IsWithinTimeRange(publishedAt, timeRange, now) <==>
      (WindowMs(timeRange).Some? ==> now - publishedAt <= WindowMs(timeRange).value)
  {
  }

  /**
    Windows nest: inside 24 hours implies inside 7 days implies inside
    30 days, and a video dated in the future is inside every window.
   */
  lemma WindowsNest(publishedAt: int, now: int)
    ensures IsWithinTimeRange(publishedAt, "24h", now) ==> IsWithinTimeRange(publishedAt, "7d", now)
    ensures IsWithinTimeRange(publishedAt, "7d", now) ==> IsWithinTimeRange(publishedAt, "30d", now)
    ensures publishedAt >= now ==> forall timeRange :: IsWithinTimeRange(publishedAt, timeRange, now)
  {
  }
}
