/**
  `components/stats-card.tsx`: the six summary tiles above the video grid.
  The sums add `parseInt` of each count with no fallback, so one count
  that is not a number turns the whole total into `NaN` (here None); the
  average divides by the number of videos with no guard. The clock is the
  parameter `now`.
 */
module StatsCard {
  import opened Numbers
  import opened Text
  import opened Seqs
  import opened Utils
  import opened YouTube

  function ViewCount(v: Video): string { v.viewCount }
  function LikeCount(v: Video): string { v.likeCount }
  function CommentCount(v: Video): string { v.commentCount }

  /**
    `videos.reduce((sum, video) => sum + parseInt(count(video)), 0)`:
    None once any term is `NaN`, which every later addition keeps.
   */
  function Total(videos: seq<Video>, count: Video -> string): (t: Option<int>)
  {
    if videos == [] then Some(0)
    else
      match Total(videos[..|videos| - 1], count)
      case None => None
      case Some(sum) =>
        match ParseInt(count(videos[|videos| - 1]))
        case None => None
        case Some(n) => Some(sum + n)
  }

  /** Every count of the list holds a number. */
  ghost predicate AllParse(videos: seq<Video>, count: Video -> string)
  {
    forall i :: 0 <= i < |videos| ==> ParseInt(count(videos[i])).Some?
  }

  /** The count read as a number, 0 where `parseInt` fails. */
  function CountOrZero(count: Video -> string): Video -> int
  {
    (v: Video) => IntOrZero(count(v))
  }

  /**
    The total is a number exactly when every count parses, and then it is
    the sum of the parsed counts.
   */
  lemma {:induction false} TotalIsSum(videos: seq<Video>, count: Video -> string)
    ensures Total(videos, count).Some? <==> AllParse(videos, count)
    ensures Total(videos, count).Some? ==> Total(videos, count).value == SumBy(videos, CountOrZero(count))
  {
    if videos != [] {
      var init := videos[..|videos| - 1];
      TotalIsSum(init, count);
      assert forall i :: 0 <= i < |init| ==> init[i] == videos[i];
    }
  }

  /**
    `Math.floor(totalViews / videos.length)`: `NaN` when the total is, and
    `0 / 0 = NaN` for an empty list.
   */
  function AvgViews(videos: seq<Video>): (a: Option<int>)
  {
    match Total(videos, ViewCount)
    case None => None
    case Some(t) => if |videos| == 0 then None else Some(MathFloor(t as real / |videos| as real))
  }

  /**
    The average is a number exactly when there are videos and all their
    view counts parse; it is then the floor quotient of the view sum by
    the number of videos.
   */
  lemma AvgViewsIsFloorQuotient(videos: seq<Video>)
    ensures AvgViews(videos).Some? <==> |videos| > 0 && AllParse(videos, ViewCount)
    ensures AvgViews(videos).Some? ==>
      var sum, a := SumBy(videos, CountOrZero(ViewCount)), AvgViews(videos).value;
      a == sum / |videos|
  {
    TotalIsSum(videos, ViewCount);
    if AvgViews(videos).Some? {
      var sum, n := SumBy(videos, CountOrZero(ViewCount)), |videos|;
      assert Total(videos, ViewCount) == Some(sum);
      FloorOfQuotient(sum, n);
    }
  }

  /** Published after the instant one day before now. */
  predicate IsRecent(v: Video, now: int)
  {
    v.publishedAt > now - 24 * 60 * 60 * 1000
  }

  /** `videos.filter(published within the last day).length`. */
  function RecentVideos(videos: seq<Video>, now: int): nat
  {
    |Filter(videos, (v: Video) => IsRecent(v, now))|
  }

  /** The recent count equals the list length exactly when every video is recent. */
  lemma RecentVideosBound(videos: seq<Video>, now: int)
    ensures RecentVideos(videos, now) <= |videos|
    ensures RecentVideos(videos, now) == |videos| <==> forall i :: 0 <= i < |videos| ==> IsRecent(videos[i], now)
  {
    var p := (v: Video) => IsRecent(v, now);
    if forall i :: 0 <= i < |videos| ==> IsRecent(videos[i], now) {
      FilterAll(videos, p);
    } else {
      var k :| 0 <= k < |videos| && !IsRecent(videos[k], now);
      FilterShorter(videos, p, k);
    }
  }

  /**
    A recent video passes the "24h" time filter, but the converse fails on
    the boundary: a video exactly a day old passes the filter and is not
    counted as recent.
   */
  lemma RecentWithin24h(v: Video, now: int)
    ensures IsRecent(v, now) ==> IsWithinTimeRange(v.publishedAt, "24h", now)
    ensures now - v.publishedAt == 24 * MsPerHour ==> IsWithinTimeRange(v.publishedAt, "24h", now) && !IsRecent(v, now)
  {
    WithinTimeRangeMs(v.publishedAt, "24h", now);
  }

  /** `n.toString()` of a number that may be `NaN`. */
  function NumberText(n: Option<int>): (s: string)
    ensures ParseInt(s) == n
  {
    match n
    case None => ParseIntNoNumber("NaN"); "NaN"
    case Some(i) => ParseIntRoundTrip(i); IntToString(i)
  }

  datatype Stat = Stat(title: string, value: string)

  const StatTitles: seq<string> :=
    ["Total Videos", "Total Views", "Total Likes", "Total Comments", "Average Views", "Recent (24h)"]

  /** The `stats` array, in display order. */
  function Stats(videos: seq<Video>, now: int): (stats: seq<Stat>)
    ensures |stats| == |StatTitles| && forall i :: 0 <= i < 6 ==> stats[i].title == StatTitles[i]
  {
    [ Stat("Total Videos", IntToString(|videos|)),
      Stat("Total Views", FormatNumber(NumberText(Total(videos, ViewCount)))),
      Stat("Total Likes", FormatNumber(NumberText(Total(videos, LikeCount)))),
      Stat("Total Comments", FormatNumber(NumberText(Total(videos, CommentCount)))),
      Stat("Average Views", FormatNumber(NumberText(AvgViews(videos)))),
      Stat("Recent (24h)", IntToString(RecentVideos(videos, now))) ]
  }

  /**
    What the tiles show: the two counts read back as the number of videos
    and of recent videos; each total is the shared format of the sum of its
    counts when they all parse, and "0" for `NaN`; the average is the
    shared format of the floor quotient of the view sum by the number of
    videos, and "0" when that is `NaN` (a count that does not parse, or no
    videos at all).
   */
  lemma StatsValues(videos: seq<Video>, now: int)
    ensures var stats := Stats(videos, now);
      && ParseInt(stats[0].value) == Some(|videos|)
      && ParseInt(stats[5].value) == Some(RecentVideos(videos, now))
      && RecentVideos(videos, now) <= |videos|
      && ShowsTotal(stats[1].value, videos, ViewCount)
      && ShowsTotal(stats[2].value, videos, LikeCount)
      && ShowsTotal(stats[3].value, videos, CommentCount)
      && ShowsAverage(stats[4].value, videos)
  {
    CountTiles(videos, now);
    ViewTiles(videos, now);
    TotalTile(videos, LikeCount);
    TotalTile(videos, CommentCount);
  }

  /** The two count tiles read back as their counts. */
  lemma CountTiles(videos: seq<Video>, now: int)
    ensures var stats := Stats(videos, now);
      && ParseInt(stats[0].value) == Some(|videos|)
      && ParseInt(stats[5].value) == Some(RecentVideos(videos, now))
      && RecentVideos(videos, now) <= |videos|
  {
    var stats := Stats(videos, now);
    assert stats[0].value == IntToString(|videos|);
    assert stats[5].value == IntToString(RecentVideos(videos, now));
    ParseIntRoundTrip(|videos|);
    ParseIntRoundTrip(RecentVideos(videos, now));
    RecentVideosBound(videos, now);
  }

  /** A total tile: the shared format of the sum when every count parses, else "0". */
  lemma TotalTile(videos: seq<Video>, count: Video -> string)
    ensures ShowsTotal(FormatNumber(NumberText(Total(videos, count))), videos, count)
  {
    TotalIsSum(videos, count);
    if !AllParse(videos, count) {
      NaNShowsZero();
    }
  }

  /** The average tile: the shared format of the floor quotient, or "0" for `NaN`. */
  lemma AverageTile(videos: seq<Video>)
    ensures ShowsAverage(FormatNumber(NumberText(AvgViews(videos))), videos)
  {
    AvgViewsIsFloorQuotient(videos);
    if |videos| == 0 || !AllParse(videos, ViewCount) {
      NaNShowsZero();
    }
  }

  /**
    The text a total tile shows: the shared format of the sum of the
    counts when they all parse, and "0" for the `NaN` sum otherwise.
   */
  ghost predicate ShowsTotal(text: string, videos: seq<Video>, count: Video -> string)
  {
    && (AllParse(videos, count) ==> text == FormatNumber(IntToString(SumBy(videos, CountOrZero(count)))))
    && (!AllParse(videos, count) ==> text == "0")
  }

  /**
    The text the average tile shows: the shared format of the floor
    quotient of the view sum by the number of videos, and "0" for `NaN`.
   */
  ghost predicate ShowsAverage(text: string, videos: seq<Video>)
  {
    && (|videos| > 0 && AllParse(videos, ViewCount) ==>
          text == FormatNumber(IntToString(SumBy(videos, CountOrZero(ViewCount)) / |videos|)))
    && (|videos| == 0 || !AllParse(videos, ViewCount) ==> text == "0")
  }

  /** The total-views and average-views tiles. */
  lemma ViewTiles(videos: seq<Video>, now: int)
    ensures var stats := Stats(videos, now);
      ShowsTotal(stats[1].value, videos, ViewCount) && ShowsAverage(stats[4].value, videos)
  {
    TotalTile(videos, ViewCount);
    AverageTile(videos);
  }

  /** `formatNumber(NaN.toString())` is "0". */
  lemma NaNShowsZero()
    ensures FormatNumber(NumberText(None)) == "0"
  {
    assert DigitPrefix("NaN") == [];
  }
}
