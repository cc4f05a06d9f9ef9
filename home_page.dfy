/**
  `components/pages/home-page.tsx`: the query pipeline over the fetched
  videos (category, time window and text search, then a stable sort on a
  copy), the list of categories offered in the filter bar, and the filter
  state with its reset and its active-filter count.
 */
module HomePage {
  import opened Numbers
  import opened Text
  import opened Seqs
  import opened Utils
  import opened YouTube

  /** `TimeFilter` of the filter bar. */
  datatype TimeFilter = Day | Week | Month | All {
    function Text(): string
    {
      match this
      case Day => "24h"
      case Week => "7d"
      case Month => "30d"
      case All => "all"
    }
  }

  /** `SortOption` of the filter bar. */
  datatype SortOption = Views | Likes | Comments | Recent

  /** The filter bar's selection, as read by the query pipeline. */
  datatype Query = Query(selectedCategory: string, timeFilter: TimeFilter, searchQuery: string, sortBy: SortOption)

  /**
    The number the comparator subtracts. A count that does not parse is
    read as 0 (the comparator would return NaN, on which engines order
    arbitrarily).
   */
  function SortKey(sortBy: SortOption, v: Video): real
  {
    match sortBy
    case Views => IntOrZero(v.viewCount) as real
    case Likes => IntOrZero(v.likeCount) as real
    case Comments => IntOrZero(v.commentCount) as real
    case Recent => v.publishedAt as real
  }

  /** A lowercased video field contains the (already lowercased) needle. */
  predicate MatchesSearch(v: Video, needle: string)
  {
    Includes(ToLower(v.title), needle)
    || Includes(ToLower(v.channelTitle), needle)
    || Includes(ToLower(v.categoryName), needle)
  }

  predicate CategoryKeep(q: Query, v: Video)
  {
    q.selectedCategory == "all" || v.categoryId == q.selectedCategory
  }

  predicate TimeKeep(q: Query, now: int, v: Video)
  {
    q.timeFilter == All || IsWithinTimeRange(v.publishedAt, q.timeFilter.Text(), now)
  }

  predicate SearchKeep(q: Query, v: Video)
  {
    Trim(q.searchQuery) == [] || MatchesSearch(v, ToLower(q.searchQuery))
  }

  /** Whether a video survives all three filters of q (an inactive filter keeps everything). */
  predicate Keep(q: Query, now: int, v: Video)
  {
    CategoryKeep(q, v) && TimeKeep(q, now, v) && SearchKeep(q, v)
  }

  /** SortKey as a sort key. */
  function KeyOf(sortBy: SortOption): Video -> real
  {
    (v: Video) => SortKey(sortBy, v)
  }

  /** Keep as a filter predicate. */
  function Kept(q: Query, now: int): Video -> bool
  {
    (v: Video) => Keep(q, now, v)
  }

  /** The category step: exact id match, skipped for "all". */
  function ByCategory(videos: seq<Video>, q: Query): (r: seq<Video>)
    ensures r == Filter(videos, (v: Video) => CategoryKeep(q, v))
  {
    if q.selectedCategory != "all" then
      FilterExt(videos, (v: Video) => v.categoryId == q.selectedCategory, (v: Video) => CategoryKeep(q, v));
      Filter(videos, (v: Video) => v.categoryId == q.selectedCategory)
    else
      FilterAll(videos, (v: Video) => CategoryKeep(q, v));
      videos
  }

  /** The time step: the publish-time window, skipped for "all". */
  function ByTime(videos: seq<Video>, q: Query, now: int): (r: seq<Video>)
    ensures r == Filter(videos, (v: Video) => TimeKeep(q, now, v))
  {
    if q.timeFilter != All then
      FilterExt(videos, (v: Video) => IsWithinTimeRange(v.publishedAt, q.timeFilter.Text(), now), (v: Video) => TimeKeep(q, now, v));
      Filter(videos, (v: Video) => IsWithinTimeRange(v.publishedAt, q.timeFilter.Text(), now))
    else
      FilterAll(videos, (v: Video) => TimeKeep(q, now, v));
      videos
  }

  /** The search step: the lowercased, untrimmed query, skipped when it is blank. */
  function BySearch(videos: seq<Video>, q: Query): (r: seq<Video>)
    ensures r == Filter(videos, (v: Video) => SearchKeep(q, v))
  {
    var needle := ToLower(q.searchQuery);
    if Trim(q.searchQuery) != [] then
      FilterExt(videos, (v: Video) => MatchesSearch(v, needle), (v: Video) => SearchKeep(q, v));
      Filter(videos, (v: Video) => MatchesSearch(v, needle))
    else
      FilterAll(videos, (v: Video) => SearchKeep(q, v));
      videos
  }

  /** The `filteredAndSortedVideos` memo: the filters, then the stable sort on a copy. */
  function FilteredAndSorted(videos: seq<Video>, q: Query, now: int): (r: seq<Video>)
  {
    SortDesc(BySearch(ByTime(ByCategory(videos, q), q, now), q), KeyOf(q.sortBy))
  }

  /** The three filters in a row keep exactly the videos that satisfy Keep, in order. */
  lemma FilterChainIsKeep(videos: seq<Video>, q: Query, now: int)
    ensures BySearch(ByTime(ByCategory(videos, q), q, now), q) == Filter(videos, Kept(q, now))
  {
    var pc := (v: Video) => CategoryKeep(q, v);
    var pt := (v: Video) => TimeKeep(q, now, v);
    var pct := (v: Video) => CategoryKeep(q, v) && TimeKeep(q, now, v);
    FilterFilter(videos, pc, pt, pct);
    FilterFilter(videos, pct, (v: Video) => SearchKeep(q, v), Kept(q, now));
  }

  /**
    The output is a permutation of the videos that pass every active
    filter; it is ordered by the sort key, largest first; and videos with
    equal keys keep their input order.
   */
  lemma FilteredAndSortedSpec(videos: seq<Video>, q: Query, now: int, k: real)
    ensures var kept := Filter(videos, Kept(q, now));
      var r := FilteredAndSorted(videos, q, now);
      var key := KeyOf(q.sortBy);
      && multiset(r) == multiset(kept)
      && SortedDesc(r, key)
      && KeyRun(r, key, k) == KeyRun(kept, key, k)
  {
    FilterChainIsKeep(videos, q, now);
    SortDescStable(BySearch(ByTime(ByCategory(videos, q), q, now), q), KeyOf(q.sortBy), k);
  }

  /** Every listed video passes the active filters; the category match is exact. */
  lemma OutputPassesFilters(videos: seq<Video>, q: Query, now: int, i: int)
    requires 0 <= i < |FilteredAndSorted(videos, q, now)|
    ensures var v := FilteredAndSorted(videos, q, now)[i];
      && Keep(q, now, v)
      && (q.selectedCategory != "all" ==> v.categoryId == q.selectedCategory)
      && v in videos
  {
    var r := FilteredAndSorted(videos, q, now);
    var kept := Filter(videos, Kept(q, now));
    FilteredAndSortedSpec(videos, q, now, 0.0);
    assert r[i] in multiset(kept);
    FilterMember(videos, Kept(q, now), r[i]);
  }

  /** A video that passes the active filters is listed. */
  lemma KeptVideoListed(videos: seq<Video>, q: Query, now: int, i: int)
    requires 0 <= i < |videos| && Keep(q, now, videos[i])
    ensures videos[i] in FilteredAndSorted(videos, q, now)
  {
    FilteredAndSortedSpec(videos, q, now, 0.0);
    FilterComplete(videos, Kept(q, now), i);
    InPermutation(FilteredAndSorted(videos, q, now), Filter(videos, Kept(q, now)), videos[i]);
  }

  /** With every filter off, nothing is dropped. */
  lemma NoFiltersKeepsAll(videos: seq<Video>, q: Query, now: int)
    requires q.selectedCategory == "all" && q.timeFilter == All && Trim(q.searchQuery) == []
    ensures |FilteredAndSorted(videos, q, now)| == |videos|
    ensures multiset(FilteredAndSorted(videos, q, now)) == multiset(videos)
  {
    FilteredAndSortedSpec(videos, q, now, 0.0);
    FilterAll(videos, Kept(q, now));
  }

  /** Lowercasing twice is lowercasing once. */
  lemma ToLowerIdempotent(s: string)
    ensures ToLower(ToLower(s)) == ToLower(s)
  {
  }

  /** The search is case-insensitive in the query: any casing of it lists the same videos. */
  lemma SearchCaseInsensitive(v: Video, a: string, b: string)
    requires ToLower(a) == ToLower(b)
    ensures MatchesSearch(v, ToLower(a)) == MatchesSearch(v, ToLower(b))
  {
  }

  /** A category entry offered in the filter bar. */
  datatype Category = Category(id: string, name: string)

  predicate HasId(acc: seq<Category>, id: string)
  {
    exists j :: 0 <= j < |acc| && acc[j].id == id
  }

  /** The `reduce`: the first video of each category id, in order of first appearance. */
  function FirstOfEachId(videos: seq<Video>): seq<Category>
  {
    if videos == [] then []
    else
      var acc := FirstOfEachId(videos[..|videos| - 1]);
      var v := videos[|videos| - 1];
      if HasId(acc, v.categoryId) then acc else acc + [Category(v.categoryId, v.categoryName)]
  }

  /** videos[i] is the first video with c's id, and c carries its name. */
  predicate FirstWithId(videos: seq<Video>, i: int, c: Category)
    requires 0 <= i < |videos|
  {
    videos[i].categoryId == c.id && videos[i].categoryName == c.name
    && forall j :: 0 <= j < i ==> videos[j].categoryId != c.id
  }

  /** Some video is the first with c's id and gives c its name. */
  predicate NamedByFirst(videos: seq<Video>, c: Category)
  {
    exists i :: 0 <= i < |videos| && FirstWithId(videos, i, c)
  }

  /**
    The collected entries have distinct ids, every video's id is among
    them, and each entry is named after the first video with its id.
   */
  lemma FirstOfEachIdSpec(videos: seq<Video>)
    ensures var acc := FirstOfEachId(videos);
      && (forall i, j :: 0 <= i < j < |acc| ==> acc[i].id != acc[j].id)
      && (forall i :: 0 <= i < |videos| ==> HasId(acc, videos[i].categoryId))
      && (forall j :: 0 <= j < |acc| ==> NamedByFirst(videos, acc[j]))
  {
    FirstOfEachIdDistinct(videos);
    FirstOfEachIdCovers(videos);
    FirstOfEachIdNamed(videos);
  }

  lemma {:induction false} FirstOfEachIdDistinct(videos: seq<Video>)
    ensures DistinctIds(FirstOfEachId(videos))
  {
    if videos != [] {
      var init, v := videos[..|videos| - 1], videos[|videos| - 1];
      var acc := FirstOfEachId(init);
      FirstOfEachIdDistinct(init);
      if !HasId(acc, v.categoryId) {
        DistinctIdsSnoc(acc, Category(v.categoryId, v.categoryName));
      }
    }
  }

  lemma DistinctIdsSnoc(acc: seq<Category>, c: Category)
    requires DistinctIds(acc) && !HasId(acc, c.id)
    ensures DistinctIds(acc + [c])
  {
    var r := acc + [c];
    forall i, j | 0 <= i < j < |r| ensures r[i].id != r[j].id {
      if j == |acc| {
        assert r[i] == acc[i];
      } else {
        assert r[i] == acc[i] && r[j] == acc[j];
      }
    }
  }

  lemma {:induction false} FirstOfEachIdCovers(videos: seq<Video>)
    ensures forall i :: 0 <= i < |videos| ==> HasId(FirstOfEachId(videos), videos[i].categoryId)
  {
    if videos != [] {
      var init, v := videos[..|videos| - 1], videos[|videos| - 1];
      FirstOfEachIdCovers(init);
      CoversStep(videos, FirstOfEachId(init));
    }
  }

  lemma CoversStep(videos: seq<Video>, acc: seq<Category>)
    requires videos != [] && acc == FirstOfEachId(videos[..|videos| - 1])
    requires forall i :: 0 <= i < |videos| - 1 ==> HasId(acc, videos[i].categoryId)
    ensures forall i :: 0 <= i < |videos| ==> HasId(FirstOfEachId(videos), videos[i].categoryId)
  {
    var v := videos[|videos| - 1];
    var r := FirstOfEachId(videos);
    forall i | 0 <= i < |videos| ensures HasId(r, videos[i].categoryId) {
      if HasId(acc, v.categoryId) {
        assert r == acc;
      } else if i < |videos| - 1 {
        var j :| 0 <= j < |acc| && acc[j].id == videos[i].categoryId;
        assert r[j] == acc[j];
      } else {
        assert r[|r| - 1].id == v.categoryId;
      }
    }
  }

  lemma {:induction false} FirstOfEachIdNamed(videos: seq<Video>)
    ensures forall j :: 0 <= j < |FirstOfEachId(videos)| ==> NamedByFirst(videos, FirstOfEachId(videos)[j])
  {
    if videos != [] {
      var init, v := videos[..|videos| - 1], videos[|videos| - 1];
      var acc := FirstOfEachId(init);
      FirstOfEachIdNamed(init);
      FirstWithIdExtends(init, videos, acc);
      if !HasId(acc, v.categoryId) {
        FirstOfEachIdCovers(init);
        NewEntryNamed(videos, acc);
      }
    }
  }

  lemma NewEntryNamed(videos: seq<Video>, acc: seq<Category>)
    requires videos != []
    requires forall i :: 0 <= i < |videos| - 1 ==> HasId(acc, videos[i].categoryId)
    requires forall j :: 0 <= j < |acc| ==> NamedByFirst(videos, acc[j])
    requires !HasId(acc, videos[|videos| - 1].categoryId)
    ensures var v := videos[|videos| - 1]; var r := acc + [Category(v.categoryId, v.categoryName)];
      forall j :: 0 <= j < |r| ==> NamedByFirst(videos, r[j])
  {
    var v := videos[|videos| - 1];
    var c := Category(v.categoryId, v.categoryName);
    var r := acc + [c];
    assert FirstWithId(videos, |videos| - 1, c);
    forall j | 0 <= j < |r| ensures NamedByFirst(videos, r[j]) {
      if j < |acc| {
        assert r[j] == acc[j];
      }
    }
  }

  lemma FirstWithIdExtends(init: seq<Video>, videos: seq<Video>, acc: seq<Category>)
    requires |init| <= |videos| && init == videos[..|init|]
    requires forall j :: 0 <= j < |acc| ==> NamedByFirst(init, acc[j])
    ensures forall j :: 0 <= j < |acc| ==> NamedByFirst(videos, acc[j])
  {
    forall j | 0 <= j < |acc|
      ensures NamedByFirst(videos, acc[j])
    {
      var i :| 0 <= i < |init| && FirstWithId(init, i, acc[j]);
      assert forall k :: 0 <= k <= i ==> videos[k] == init[k];
      assert FirstWithId(videos, i, acc[j]);
    }
  }

  /** Places c before the first entry whose name does not order below c's. */
  function InsertByName(c: Category, t: seq<Category>): (r: seq<Category>)
    ensures multiset(r) == multiset(t) + multiset{c} && |r| == |t| + 1
  {
    if t == [] || LexLeq(c.name, t[0].name) then [c] + t
    else
      assert t == [t[0]] + t[1..];
      [t[0]] + InsertByName(c, t[1..])
  }

  ghost predicate SortedByName(s: seq<Category>)
  {
    forall i, j :: 0 <= i < j < |s| ==> LexLeq(s[i].name, s[j].name)
  }

  lemma {:induction false} InsertByNameSorted(c: Category, t: seq<Category>)
    requires SortedByName(t)
    ensures SortedByName(InsertByName(c, t))
  {
    if t == [] || LexLeq(c.name, t[0].name) {
      forall i | 0 <= i < |t| ensures LexLeq(c.name, t[i].name) {
        if i > 0 {
          LexLeqTransitive(c.name, t[0].name, t[i].name);
        }
      }
      ConsSorted(c, t);
    } else {
      LexLeqTotal(c.name, t[0].name);
      var rest := InsertByName(c, t[1..]);
      InsertByNameSorted(c, t[1..]);
      InsertedAbove(c, t, rest);
      ConsSorted(t[0], rest);
    }
  }

  /** An entry that orders below every entry of a sorted list can go in front. */
  lemma ConsSorted(c: Category, t: seq<Category>)
    requires SortedByName(t) && forall i :: 0 <= i < |t| ==> LexLeq(c.name, t[i].name)
    ensures SortedByName([c] + t)
  {
    var r := [c] + t;
    forall i, j | 0 <= i < j < |r| ensures LexLeq(r[i].name, r[j].name) {
      assert r[j] == t[j - 1];
      if i > 0 {
        assert r[i] == t[i - 1];
      }
    }
  }

  /** Inserting behind the head keeps every entry at or above the head. */
  lemma InsertedAbove(c: Category, t: seq<Category>, rest: seq<Category>)
    requires SortedByName(t) && t != [] && LexLeq(t[0].name, c.name)
    requires rest == InsertByName(c, t[1..])
    ensures forall i :: 0 <= i < |rest| ==> LexLeq(t[0].name, rest[i].name)
  {
    forall i | 0 <= i < |rest| ensures LexLeq(t[0].name, rest[i].name) {
      var y := rest[i];
      assert y in multiset(rest);
      if y != c {
        assert y in multiset(t[1..]);
        var j :| 0 <= j < |t[1..]| && t[1..][j] == y;
        assert t[j + 1] == y;
      }
    }
  }

  /** `categories.sort((a, b) => a.name.localeCompare(b.name))`, stable, names compared character by character (Unicode scalar values). */
  function SortByName(s: seq<Category>): (r: seq<Category>)
    ensures multiset(r) == multiset(s) && |r| == |s|
    ensures SortedByName(r)
  {
    if s == [] then []
    else
      assert s == [s[0]] + s[1..];
      var t := SortByName(s[1..]);
      InsertByNameSorted(s[0], t);
      InsertByName(s[0], t)
  }

  function NameOf(c: Category): string { c.name }

  lemma {:induction false} InsertByNameRun(c: Category, t: seq<Category>, n: string)
    ensures KeyRun(InsertByName(c, t), NameOf, n) == (if c.name == n then [c] else []) + KeyRun(t, NameOf, n)
  {
    if t == [] || LexLeq(c.name, t[0].name) {
      assert ([c] + t)[1..] == t;
    } else {
      LexLeqReflexive(c.name);
      var rest := InsertByName(c, t[1..]);
      var hc := if c.name == n then [c] else [];
      var h0 := if t[0].name == n then [t[0]] else [];
      assert ([t[0]] + rest)[1..] == rest;
      assert KeyRun([t[0]] + rest, NameOf, n) == h0 + KeyRun(rest, NameOf, n);
      InsertByNameRun(c, t[1..], n);
      SwapAroundEmpty(h0, hc, KeyRun(t[1..], NameOf, n));
    }
  }

  /** Stability: entries with equal names keep their relative input order. */
  lemma {:induction false} SortByNameStable(s: seq<Category>, n: string)
    ensures KeyRun(SortByName(s), NameOf, n) == KeyRun(s, NameOf, n)
  {
    if s != [] {
      SortByNameStable(s[1..], n);
      InsertByNameRun(s[0], SortByName(s[1..]), n);
    }
  }

  ghost predicate DistinctIds(s: seq<Category>)
  {
    forall i, j :: 0 <= i < j < |s| ==> s[i].id != s[j].id
  }

  lemma {:induction false} InsertByNameDistinct(c: Category, t: seq<Category>)
    requires DistinctIds(t) && forall i :: 0 <= i < |t| ==> t[i].id != c.id
    ensures DistinctIds(InsertByName(c, t))
  {
    if t != [] && !LexLeq(c.name, t[0].name) {
      var rest := InsertByName(c, t[1..]);
      InsertByNameDistinct(c, t[1..]);
      forall k | 0 <= k < |rest| ensures rest[k].id != t[0].id {
        assert rest[k] in multiset(rest);
        if rest[k] != c {
          assert rest[k] in multiset(t[1..]);
          var j :| 0 <= j < |t[1..]| && t[1..][j] == rest[k];
          assert t[j + 1] == rest[k];
        }
      }
      var r := [t[0]] + rest;
      forall i, j | 0 <= i < j < |r| ensures r[i].id != r[j].id {
        assert r[j] == rest[j - 1];
        if i > 0 {
          assert r[i] == rest[i - 1];
        }
      }
    }
  }

  lemma {:induction false} SortByNameDistinct(s: seq<Category>)
    requires DistinctIds(s)
    ensures DistinctIds(SortByName(s))
  {
    if s != [] {
      var t := SortByName(s[1..]);
      SortByNameDistinct(s[1..]);
      forall i | 0 <= i < |t| ensures t[i].id != s[0].id {
        assert t[i] in multiset(s[1..]);
        var j :| 0 <= j < |s[1..]| && s[1..][j] == t[i];
        assert s[j + 1] == t[i];
      }
      InsertByNameDistinct(s[0], t);
    }
  }

  /**
    The offered list: one entry per distinct category id, every video's id
    present, each entry named after the first video with that id, ordered
    by name, and entries sharing a name in the order their ids first
    appear among the videos.
   */
  lemma AvailableCategoriesSpec(videos: seq<Video>)
    ensures var cats := SortByName(FirstOfEachId(videos));
      && SortedByName(cats)
      && DistinctIds(cats)
      && (forall i :: 0 <= i < |videos| ==> HasId(cats, videos[i].categoryId))
      && (forall j :: 0 <= j < |cats| ==> NamedByFirst(videos, cats[j]))
      && (forall n :: KeyRun(cats, NameOf, n) == KeyRun(FirstOfEachId(videos), NameOf, n))
  {
    forall n ensures KeyRun(SortByName(FirstOfEachId(videos)), NameOf, n) == KeyRun(FirstOfEachId(videos), NameOf, n) {
      SortByNameStable(FirstOfEachId(videos), n);
    }
    var acc := FirstOfEachId(videos);
    var cats := SortByName(acc);
    FirstOfEachIdCovers(videos);
    FirstOfEachIdNamed(videos);
    FirstOfEachIdDistinct(videos);
    SortByNameDistinct(acc);
    PermutationKeepsIds(videos, acc, cats);
    PermutationKeepsNames(videos, acc, cats);
  }

  lemma PermutationKeepsIds(videos: seq<Video>, acc: seq<Category>, cats: seq<Category>)
    requires multiset(cats) == multiset(acc)
    requires forall i :: 0 <= i < |videos| ==> HasId(acc, videos[i].categoryId)
    ensures forall i :: 0 <= i < |videos| ==> HasId(cats, videos[i].categoryId)
  {
    forall i | 0 <= i < |videos| ensures HasId(cats, videos[i].categoryId) {
      assert HasId(acc, videos[i].categoryId);
      var j :| 0 <= j < |acc| && acc[j].id == videos[i].categoryId;
      assert acc[j] in multiset(cats);
      assert acc[j] in cats;
      var k :| 0 <= k < |cats| && cats[k] == acc[j];
      assert cats[k].id == videos[i].categoryId;
    }
  }

  lemma PermutationKeepsNames(videos: seq<Video>, acc: seq<Category>, cats: seq<Category>)
    requires multiset(cats) == multiset(acc)
    requires forall j :: 0 <= j < |acc| ==> NamedByFirst(videos, acc[j])
    ensures forall k :: 0 <= k < |cats| ==> NamedByFirst(videos, cats[k])
  {
    forall k | 0 <= k < |cats| ensures NamedByFirst(videos, cats[k]) {
      assert cats[k] in multiset(acc);
      assert cats[k] in acc;
      var j :| 0 <= j < |acc| && acc[j] == cats[k];
    }
  }

  /**
    `availableCategories`: one entry per distinct category id among the
    videos, named after the first video with that id, ordered by name.
   */
  method AvailableCategories(videos: seq<Video>) returns (categories: seq<Category>)
    ensures categories == SortByName(FirstOfEachId(videos))
  {
    var acc: seq<Category> := [];
    var n := 0;
    while n < |videos|
      invariant 0 <= n <= |videos|
      invariant acc == FirstOfEachId(videos[..n])
    {
      var video := videos[n];
      assert videos[..n + 1][..n] == videos[..n];
      var found := false;
      var k := 0;
      while k < |acc|
        invariant 0 <= k <= |acc|
        invariant found <==> exists j :: 0 <= j < k && acc[j].id == video.categoryId
      {
        if acc[k].id == video.categoryId {
          found := true;
        }
        k := k + 1;
      }
      if !found {
        acc := acc + [Category(video.categoryId, video.categoryName)];
      }
      n := n + 1;
    }
    assert videos[..|videos|] == videos;
    categories := SortByName(acc);
  }

  /** The filter selection held by the page, with the sort choice. */
  class FilterState {
    var selectedCategory: string
    var timeFilter: TimeFilter
    var searchQuery: string
    var sortBy: SortOption

    /** The initial `useState` values. */
    constructor ()
      ensures selectedCategory == "all" && timeFilter == All && searchQuery == "" && sortBy == Views
    {
      selectedCategory := "all";
      timeFilter := All;
      searchQuery := "";
      sortBy := Views;
    }

    function AsQuery(): Query
      reads this
    {
      Query(selectedCategory, timeFilter, searchQuery, sortBy)
    }

    /** `clearAllFilters`. */
    method ClearAllFilters()
      modifies this
      ensures selectedCategory == "all" && timeFilter == All && searchQuery == "" && sortBy == Views
      ensures ActiveFiltersCount() == 0
    {
      selectedCategory := "all";
      timeFilter := All;
      searchQuery := "";
      sortBy := Views;
    }

    /** `activeFiltersCount`: how many of the four controls differ from their reset value. */
    function ActiveFiltersCount(): (n: nat)
      reads this
      ensures n <= 4
      ensures n == 0 <==> selectedCategory == "all" && timeFilter == All && Trim(searchQuery) == [] && sortBy == Views
    {
      (if selectedCategory != "all" then 1 else 0)
      + (if timeFilter != All then 1 else 0)
      + (if Trim(searchQuery) != "" then 1 else 0)
      + (if sortBy != Views then 1 else 0)
    }
  }

  /** A search of only white space is not an active filter, and it filters nothing. */
  lemma BlankSearchInactive(videos: seq<Video>, q: Query, now: int)
    requires forall i :: 0 <= i < |q.searchQuery| ==> IsSpace(q.searchQuery[i])
    ensures Trim(q.searchQuery) == []
    ensures FilteredAndSorted(videos, q, now) == FilteredAndSorted(videos, q.(searchQuery := ""), now)
  {
    TrimEmptyIffBlank(q.searchQuery);
    TrimEmptyIffBlank("");
  }

  /** With no search, no time window and no category, the count is 1 exactly when the sort is not by views. */
  lemma SortAloneCounts(f: FilterState)
    requires f.selectedCategory == "all" && f.timeFilter == All && f.searchQuery == ""
    ensures f.ActiveFiltersCount() == (if f.sortBy == Views then 0 else 1)
  {
  }
}
