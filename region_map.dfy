/**
  `components/region-map.tsx`: the "Regional Overview" card. It keeps a
  list of per-region statistics, one entry per supported region, and a list
  of the regions whose statistics are being fetched. Clicking a region
  selects it and, when no statistics are known for it, starts a fetch; the
  fetch's result overwrites that region's entry. The card lists the current
  region first, then the others by total views.

  The asynchronous fetch is split at its `await`: `StartLoad` is the part
  before it and `FinishLoad` the part after, given the fetch's outcome.
 */
module RegionMap {
  import opened Numbers
  import opened Seqs
  import opened YouTube
  import opened StatsCard

  /** One row; the totals are `NaN` (None) when a fetched count is not a number. */
  datatype RegionStats = RegionStats(
    regionCode: string,
    regionName: string,
    totalVideos: nat,
    totalViews: Option<int>,
    totalLikes: Option<int>,
    avgViews: Option<int>,
    loading: bool)

  /** The codes of `REGION_CODES`, in table order. */
  function RegionCodeList(): (cs: seq<string>)
    ensures |cs| == |RegionCodes| && forall i :: 0 <= i < |cs| ==> cs[i] == RegionCodes[i].0
  {
    seq(|RegionCodes|, i requires 0 <= i < |RegionCodes| => RegionCodes[i].0)
  }

  function Codes(list: seq<RegionStats>): (cs: seq<string>)
    ensures |cs| == |list| && forall i :: 0 <= i < |cs| ==> cs[i] == list[i].regionCode
  {
    seq(|list|, i requires 0 <= i < |list| => list[i].regionCode)
  }

  /**
    `initializeRegionStats`: one entry per `REGION_CODES` row, in table
    order, with that row's code and name, every counter 0 and not loading.
   */
  function InitialStats(): (list: seq<RegionStats>)
    ensures Codes(list) == RegionCodeList()
    ensures forall i :: 0 <= i < |list| ==>
      list[i] == RegionStats(RegionCodes[i].0, RegionCodes[i].1, 0, Some(0), Some(0), Some(0), false)
  {
    seq(|RegionCodes|, i requires 0 <= i < |RegionCodes| =>
      RegionStats(RegionCodes[i].0, RegionCodes[i].1, 0, Some(0), Some(0), Some(0), false))
  }

  /** The entry after a fetch that returned `videos`: same code and name, new counters. */
  function Loaded(r: RegionStats, videos: seq<Video>): RegionStats
  {
    r.(totalVideos := |videos|, totalViews := Total(videos, ViewCount),
       totalLikes := Total(videos, LikeCount), avgViews := AvgViews(videos), loading := false)
  }

  /** `prev.map(region => region.regionCode === code ? {...region, ...} : region)`. */
  function UpdateRegion(list: seq<RegionStats>, code: string, videos: seq<Video>): (r: seq<RegionStats>)
    ensures |r| == |list|
    ensures forall i :: 0 <= i < |list| && list[i].regionCode != code ==> r[i] == list[i]
    ensures forall i :: 0 <= i < |list| && list[i].regionCode == code ==> r[i] == Loaded(list[i], videos)
  {
    seq(|list|, i requires 0 <= i < |list| => if list[i].regionCode == code then Loaded(list[i], videos) else list[i])
  }

  /**
    An update keeps every code in place; with distinct codes it changes at
    most one entry; and applying the same result again changes nothing.
   */
  lemma UpdateRegionProperties(list: seq<RegionStats>, code: string, videos: seq<Video>)
    ensures Codes(UpdateRegion(list, code, videos)) == Codes(list)
    ensures NoDup(Codes(list)) ==> forall i, j :: 0 <= i < j < |list| ==>
      UpdateRegion(list, code, videos)[i] == list[i] || UpdateRegion(list, code, videos)[j] == list[j]
    ensures UpdateRegion(UpdateRegion(list, code, videos), code, videos) == UpdateRegion(list, code, videos)
  {
    var r := UpdateRegion(list, code, videos);
    if NoDup(Codes(list)) {
      forall i, j | 0 <= i < j < |list| ensures r[i] == list[i] || r[j] == list[j] {
        assert Codes(list)[i] != Codes(list)[j];
      }
    }
  }

  /** Some entry for the code has videos (the `find` of `handleRegionClick`). */
  predicate HasData(list: seq<RegionStats>, code: string)
  {
    exists i :: 0 <= i < |list| && list[i].regionCode == code && list[i].totalVideos > 0
  }

  /**
    After a fetch that returned videos for a listed region, that region has
    data, so a later click on it does not fetch again.
   */
  lemma LoadedHasData(list: seq<RegionStats>, code: string, videos: seq<Video>)
    requires code in Codes(list) && |videos| > 0
    ensures HasData(UpdateRegion(list, code, videos), code)
  {
    var i :| 0 <= i < |list| && Codes(list)[i] == code;
    assert UpdateRegion(list, code, videos)[i].totalVideos > 0;
  }

  /** The comparator's numeric part, `b.totalViews - a.totalViews`; `NaN` is read as 0. */
  function ViewsKey(r: RegionStats): real
  {
    r.totalViews.GetOr(0) as real
  }

  predicate IsCurrent(r: RegionStats, current: string)
  {
    r.regionCode == current
  }

  /** The entries of the current region, in list order. */
  function Currents(list: seq<RegionStats>, current: string): (r: seq<RegionStats>)
    ensures forall i :: 0 <= i < |r| ==> IsCurrent(r[i], current)
  {
    Filter(list, (x: RegionStats) => IsCurrent(x, current))
  }

  /** The entries of the other regions, by total views, largest first, stably. */
  function Others(list: seq<RegionStats>, current: string): (r: seq<RegionStats>)
    ensures forall i :: 0 <= i < |r| ==> !IsCurrent(r[i], current)
    ensures SortedDesc(r, ViewsKey)
  {
    var q := (x: RegionStats) => !IsCurrent(x, current);
    var rest := Filter(list, q);
    var r := SortDesc(rest, ViewsKey);
    forall i | 0 <= i < |r| ensures !IsCurrent(r[i], current) {
      assert r[i] in multiset(rest);
      FilterMember(list, q, r[i]);
    }
    r
  }

  /**
    `[...regionStatsList].sort(...)`: the comparator puts the current region
    before every other and orders the rest by total views, largest first;
    the sort is stable. The result is a rearrangement of the list.
   */
  function SortedRegions(list: seq<RegionStats>, current: string): (r: seq<RegionStats>)
    ensures multiset(r) == multiset(list) && |r| == |list|
  {
    FilterSplit(list, (x: RegionStats) => IsCurrent(x, current), (x: RegionStats) => !IsCurrent(x, current));
    var r := Currents(list, current) + Others(list, current);
    assert |multiset(r)| == |multiset(list)|;
    r
  }

  /**
    No entry of another region comes before an entry of the current one;
    after them, total views never increase along the list.
   */
  lemma SortedRegionsOrder(list: seq<RegionStats>, current: string)
    ensures var r := SortedRegions(list, current);
      forall i, j :: 0 <= i < j < |r| && IsCurrent(r[j], current) ==> IsCurrent(r[i], current)
    ensures var r := SortedRegions(list, current);
      forall i, j :: 0 <= i < j < |r| && !IsCurrent(r[i], current) ==> !IsCurrent(r[j], current) && ViewsKey(r[i]) >= ViewsKey(r[j])
  {
    var cur, others := Currents(list, current), Others(list, current);
    var r := SortedRegions(list, current);
    assert r == cur + others;
    forall i, j | 0 <= i < j < |r| && !IsCurrent(r[i], current)
      ensures !IsCurrent(r[j], current) && ViewsKey(r[i]) >= ViewsKey(r[j])
    {
      assert i >= |cur|;
      assert r[i] == others[i - |cur|] && r[j] == others[j - |cur|];
    }
  }

  /** The rows shown: `sortedRegions.slice(0, 10)`. */
  function ShownRegions(list: seq<RegionStats>, current: string): (r: seq<RegionStats>)
    ensures |r| == Min(10, |list|)
    ensures forall i :: 0 <= i < |r| ==> r[i] == SortedRegions(list, current)[i]
  {
    Take(SortedRegions(list, current), 10)
  }

  /** The component's state: the two `useState` lists. */
  class RegionMapState {
    var regionStatsList: seq<RegionStats>
    var loadingRegions: seq<string>

    /** No region is loading twice, and the list is empty or holds every region in table order. */
    ghost predicate Valid()
      reads this
    {
      && NoDup(loadingRegions)
      && (regionStatsList == [] || Codes(regionStatsList) == RegionCodeList())
    }

    /** `useState([])` twice. */
    constructor()
      ensures Valid() && regionStatsList == [] && loadingRegions == []
    {
      regionStatsList := [];
      loadingRegions := [];
    }

    /** `initializeRegionStats()`. */
    method InitializeRegionStats()
      requires Valid()
      modifies this
      ensures Valid()
      ensures regionStatsList == InitialStats() && loadingRegions == old(loadingRegions)
    {
      regionStatsList := InitialStats();
    }

    /**
      `loadRegionStats(code)` up to its `await`: nothing when the region is
      already loading, otherwise the code is appended to the loading list.
     */
    method StartLoad(code: string) returns (started: bool)
      requires Valid()
      modifies this
      ensures Valid()
      ensures started <==> code !in old(loadingRegions)
      ensures loadingRegions == if started then old(loadingRegions) + [code] else old(loadingRegions)
      ensures regionStatsList == old(regionStatsList)
    {
      if code in loadingRegions {
        return false;
      }
      loadingRegions := loadingRegions + [code];
      started := true;
    }

    /**
      `loadRegionStats(code)` after its `await`: on success the code's
      entry takes the fetched videos' statistics, on failure the list is
      kept; either way (`finally`) every occurrence of the code leaves the
      loading list.
     */
    method FinishLoad(code: string, outcome: Result<TrendingResponse, string>)
      requires Valid()
      modifies this
      ensures Valid()
      ensures loadingRegions == Filter(old(loadingRegions), (c: string) => c != code)
      ensures code !in loadingRegions
      ensures regionStatsList == match outcome
        case Success(data) => UpdateRegion(old(regionStatsList), code, data.videos)
        case Failure(_) => old(regionStatsList)
    {
      if outcome.Success? {
        UpdateRegionProperties(regionStatsList, code, outcome.value.videos);
        regionStatsList := UpdateRegion(regionStatsList, code, outcome.value.videos);
      }
      FilterNoDup(loadingRegions, (c: string) => c != code);
      loadingRegions := Filter(loadingRegions, (c: string) => c != code);
    }

    /**
      `handleRegionClick(code)`: the selection callback always receives the
      code; a fetch starts only when no entry for the code has videos and
      the code is not already loading.
     */
    method HandleRegionClick(code: string) returns (selected: string, started: bool)
      requires Valid()
      modifies this
      ensures Valid()
      ensures selected == code
      ensures started <==> !HasData(old(regionStatsList), code) && code !in old(loadingRegions)
      ensures loadingRegions == if started then old(loadingRegions) + [code] else old(loadingRegions)
      ensures regionStatsList == old(regionStatsList)
    {
      selected := code;
      started := false;
      if !HasData(regionStatsList, code) {
        started := StartLoad(code);
      }
    }
  }
}
