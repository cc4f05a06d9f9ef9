/**
  `lib/youtube.ts`: the video record, the category-name table, the
  normalisation of one API item into a record, the two error checks of
  `getTrendingVideos` and the table of supported regions. The HTTP request
  itself is not modelled: its outcome is the parameter `response`.
 */
module YouTube {
  import opened Numbers
  import opened Text

  /** One trending video; counts stay the decimal strings the API sends. */
  datatype Video = Video(
    id: string,
    title: string,
    channelTitle: string,
    thumbnail: string,
    viewCount: string,
    likeCount: string,
    commentCount: string,
    publishedAt: int,
    description: string,
    categoryId: string,
    categoryName: string,
    tags: seq<string>,
    videoUrl: string)

  datatype TrendingResponse = TrendingResponse(videos: seq<Video>, regionCode: string, totalResults: int)

  /** `VIDEO_CATEGORIES`: the 31 YouTube category ids and their names. */
  const VideoCategories: map<string, string> := map[
    "1" := "Film & Animation",
    "2" := "Autos & Vehicles",
    "10" := "Music",
    "15" := "Pets & Animals",
    "17" := "Sports",
    "18" := "Short Movies",
    "19" := "Travel & Events",
    "20" := "Gaming",
    "21" := "Videoblogging",
    "22" := "People & Blogs",
    "23" := "Comedy",
    "24" := "Entertainment",
    "25" := "News & Politics",
    "26" := "Howto & Style",
    "27" := "Education",
    "28" := "Science & Technology",
    "29" := "Nonprofits & Activism",
    "30" := "Movies",
    "31" := "Anime/Animation",
    "32" := "Action/Adventure",
    "33" := "Classics",
    "34" := "Documentary",
    "35" := "Drama",
    "36" := "Family",
    "37" := "Foreign",
    "38" := "Horror",
    "39" := "Sci-Fi/Fantasy",
    "40" := "Thriller",
    "41" := "Shorts",
    "42" := "Shows",
    "43" := "Trailers"
  ]

  /** `VIDEO_CATEGORIES[id] || "Unknown"`. */
  function CategoryName(categoryId: string): (name: string)
    ensures categoryId in VideoCategories ==> name == VideoCategories[categoryId]
    ensures categoryId !in VideoCategories ==> name == "Unknown"
  {
    if categoryId in VideoCategories && VideoCategories[categoryId] != "" then VideoCategories[categoryId]
    else "Unknown"
  }

  /** "Unknown" is not the name of any listed category, so it marks exactly the unlisted ids. */
  lemma UnknownOnlyForUnlisted(categoryId: string)
    ensures CategoryName(categoryId) == "Unknown" <==> categoryId !in VideoCategories
  {
  }

  /** The fields of an API item that the mapping reads; absent ones are None. */
  datatype ApiItem = ApiItem(
    id: string,
    title: string,
    channelTitle: string,
    thumbnailUrl: string,
    viewCount: Option<string>,
    likeCount: Option<string>,
    commentCount: Option<string>,
    publishedAt: int,
    description: string,
    categoryId: string,
    tags: Option<seq<string>>)

  /** `field || "0"`: an absent or empty count becomes "0". */
  function CountOrZero(field: Option<string>): (c: string)
    ensures c != ""
    ensures field.Some? && field.value != "" ==> c == field.value
    ensures field.None? || field.value == "" ==> c == "0"
  {
    match field
    case Some(s) => if s != "" then s else "0"
    case None => "0"
  }

  const WatchUrlPrefix: string := "https://www.youtube.com/watch?v="

  /** The record built for one API item. */
  function ToVideo(item: ApiItem): (v: Video)
    ensures v.id == item.id && v.categoryId == item.categoryId
    ensures v.title == item.title && v.channelTitle == item.channelTitle
    ensures v.thumbnail == item.thumbnailUrl
    ensures v.publishedAt == item.publishedAt && v.description == item.description
    ensures v.videoUrl == WatchUrlPrefix + item.id
    ensures v.viewCount == CountOrZero(item.viewCount)
    ensures v.likeCount == CountOrZero(item.likeCount)
    ensures v.commentCount == CountOrZero(item.commentCount)
    ensures v.categoryName == CategoryName(item.categoryId)
    ensures item.tags.None? ==> v.tags == []
    ensures item.tags.Some? ==> v.tags == item.tags.value
  {
    Video(
      item.id, item.title, item.channelTitle, item.thumbnailUrl,
      CountOrZero(item.viewCount), CountOrZero(item.likeCount), CountOrZero(item.commentCount),
      item.publishedAt, item.description, item.categoryId, CategoryName(item.categoryId),
      item.tags.GetOr([]),
      WatchUrlPrefix + item.id)
  }

  /** `data.items.map(...)`: one record per item, in item order. */
  function MapItems(items: seq<ApiItem>): (vs: seq<Video>)
    ensures |vs| == |items|
    ensures forall i :: 0 <= i < |items| ==> vs[i] == ToVideo(items[i])
  {
    if items == [] then [] else MapItems(items[..|items| - 1]) + [ToVideo(items[|items| - 1])]
  }

  /** Every record's id can be read back from its watch URL. */
  lemma VideoUrlRoundTrip(items: seq<ApiItem>, i: int)
    requires 0 <= i < |items|
    ensures var v := MapItems(items)[i];
      IsPrefix(WatchUrlPrefix, v.videoUrl) && v.videoUrl[|WatchUrlPrefix|..] == items[i].id
  {
    var v := MapItems(items)[i];
    assert v.videoUrl == WatchUrlPrefix + items[i].id;
    assert v.videoUrl[..|WatchUrlPrefix|] == WatchUrlPrefix;
  }

  /** Two records with the same category id carry the same category name. */
  lemma SameIdSameName(items: seq<ApiItem>, i: int, j: int)
    requires 0 <= i < |items| && 0 <= j < |items|
    requires items[i].categoryId == items[j].categoryId
    ensures MapItems(items)[i].categoryName == MapItems(items)[j].categoryName
  {
  }

  /** What the request returned: HTTP success flag and status, then the decoded body. */
  datatype ApiResponse = ApiResponse(ok: bool, status: nat, items: seq<ApiItem>, totalResults: int)

  /**
    `getTrendingVideos(regionCode)`: fails before any request when the key
    is absent or empty, fails with the HTTP status when the response is not
    OK, and otherwise returns the mapped records with the region echoed.
   */
  function GetTrendingVideos(apiKey: Option<string>, regionCode: string, response: ApiResponse): (r: Result<TrendingResponse, string>)
    ensures apiKey.None? || apiKey.value == "" ==> r == Failure("YouTube API key not configured")
    ensures apiKey.Some? && apiKey.value != "" && !response.ok ==>
      r == Failure("YouTube API error: " + IntToString(response.status))
    ensures r.Success? <==> apiKey.Some? && apiKey.value != "" && response.ok
    ensures r.Success? ==>
      && r.value.regionCode == regionCode
      && r.value.totalResults == response.totalResults
      && r.value.videos == MapItems(response.items)
  {
    if apiKey.None? || apiKey.value == "" then Failure("YouTube API key not configured")
    else if !response.ok then Failure("YouTube API error: " + IntToString(response.status))
    else Success(TrendingResponse(MapItems(response.items), regionCode, response.totalResults))
  }

  /** Without a key the outcome does not depend on any response: no request is made. */
  lemma MissingKeyIgnoresResponse(regionCode: string, a: ApiResponse, b: ApiResponse)
    ensures GetTrendingVideos(None, regionCode, a) == GetTrendingVideos(None, regionCode, b)
    ensures GetTrendingVideos(Some(""), regionCode, a) == GetTrendingVideos(Some(""), regionCode, b)
  {
  }

  /** A failed request names its status, which can be read back from the message. */
  lemma ApiErrorNamesStatus(key: string, regionCode: string, response: ApiResponse)
    requires key != "" && !response.ok
    ensures var r := GetTrendingVideos(Some(key), regionCode, response);
      r.Failure? && |r.error| > 19 && r.error[..19] == "YouTube API error: "
      && ParseInt(r.error[19..]) == Some(response.status)
  {
    var e := "YouTube API error: " + IntToString(response.status);
    assert e[19..] == IntToString(response.status);
    ParseIntRoundTrip(response.status);
  }

  /** `REGION_CODES`, in declaration order (the order `Object.entries` yields). */
  const RegionCodes: seq<(string, string)> := [
    ("US", "United States"),
    ("IN", "India"),
    ("PK", "Pakistan"),
    ("GB", "United Kingdom"),
    ("CA", "Canada"),
    ("AU", "Australia"),
    ("DE", "Germany"),
    ("FR", "France"),
    ("JP", "Japan"),
    ("KR", "South Korea"),
    ("BR", "Brazil"),
    ("MX", "Mexico"),
    ("RU", "Russia"),
    ("IT", "Italy"),
    ("ES", "Spain"),
    ("NL", "Netherlands"),
    ("SE", "Sweden"),
    ("NO", "Norway"),
    ("DK", "Denmark"),
    ("FI", "Finland")
  ]
}
