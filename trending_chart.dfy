/**
  `components/trending-chart.tsx`: the bar chart of the first ten videos of
  the list, with long titles shortened for the axis.
 */
module TrendingChart {
  import opened Numbers
  import opened Text
  import opened Seqs
  import opened Utils
  import opened YouTube

  const MaxTitle: nat := 25

  /**
    `title.length > 25 ? title.substring(0, 25) + "..." : title`: a long
    title keeps exactly its first 25 characters followed by "..." (28
    characters in all); a title of at most 25 characters is unchanged.
    Characters are Unicode scalar values, not UTF-16 code units.
   */
  function TruncateTitle(title: string): (r: string)
    ensures |title| > MaxTitle ==> |r| == MaxTitle + 3 && IsPrefix(r[..MaxTitle], title) && r[MaxTitle..] == "..."
    ensures |title| <= MaxTitle ==> r == title
    ensures |r| <= MaxTitle + 3
  {
    if |title| > MaxTitle then title[..MaxTitle] + "..." else title
  }

  /**
    Shortening twice is shortening once: a shortened title is 28 long, so
    it is cut again at the same 25 characters and gets the same "...".
   */
  lemma TruncateTitleIdempotent(title: string)
    ensures TruncateTitle(TruncateTitle(title)) == TruncateTitle(title)
  {
    if |title| > MaxTitle {
      var t := TruncateTitle(title);
      assert t[..MaxTitle] == title[..MaxTitle];
    }
  }

  /** One bar: `parseInt` values (None is `NaN`) and `formatNumber` texts. */
  datatype ChartEntry = ChartEntry(
    rank: nat,
    title: string,
    views: Option<int>,
    likes: Option<int>,
    comments: Option<int>,
    viewsFormatted: string,
    likesFormatted: string,
    commentsFormatted: string)

  function Entry(v: Video, index: nat): ChartEntry
  {
    ChartEntry(index + 1, TruncateTitle(v.title),
      ParseInt(v.viewCount), ParseInt(v.likeCount), ParseInt(v.commentCount),
      FormatNumber(v.viewCount), FormatNumber(v.likeCount), FormatNumber(v.commentCount))
  }

  /**
    `videos.slice(0, 10).map((video, index) => ...)`: one bar for each of
    the first ten videos (all of them when there are fewer), in list
    order, ranked 1, 2, ... by position; each bar carries that video's
    shortened title and its counts as `parseInt` and `formatNumber` read
    them.
   */
  function ChartData(videos: seq<Video>): (data: seq<ChartEntry>)
    ensures |data| == Min(10, |videos|)
    ensures forall i :: 0 <= i < |data| ==>
      && data[i].rank == i + 1 && data[i].title == TruncateTitle(videos[i].title)
      && data[i].views == ParseInt(videos[i].viewCount) && data[i].likes == ParseInt(videos[i].likeCount)
      && data[i].comments == ParseInt(videos[i].commentCount)
      && data[i].viewsFormatted == FormatNumber(videos[i].viewCount)
      && data[i].likesFormatted == FormatNumber(videos[i].likeCount)
      && data[i].commentsFormatted == FormatNumber(videos[i].commentCount)
  {
    var top := Take(videos, 10);
    seq(|top|, i requires 0 <= i < |top| => Entry(top[i], i))
  }
}
