/**
  `components/category-analysis.tsx`: videos are grouped by category name
  (from a 14-entry table, everything else "Other"); each group counts its
  videos, adds up their views and likes and lists them; the groups are
  ordered by count, and the pie, bar, summary and detail views read that
  list. The "Most Viral" card re-sorts the same array in place by average
  views, which also reorders the detail list rendered after it.
 */
module CategoryAnalysis {
  import opened Numbers
  import opened Text
  import opened Seqs
  import opened YouTube

  /** `CATEGORY_NAMES`: the category ids this card names. */
  const CategoryNames: map<string, string> := map[
    "1" := "Film & Animation",
    "2" := "Autos & Vehicles",
    "10" := "Music",
    "15" := "Pets & Animals",
    "17" := "Sports",
    "19" := "Travel & Events",
    "20" := "Gaming",
    "22" := "People & Blogs",
    "23" := "Comedy",
    "24" := "Entertainment",
    "25" := "News & Politics",
    "26" := "Howto & Style",
    "27" := "Education",
    "28" := "Science & Technology"
  ]

  /** `CATEGORY_NAMES[categoryId] || "Other"`. */
  function CategoryLabel(categoryId: string): (name: string)
    ensures categoryId in CategoryNames ==> name == CategoryNames[categoryId]
    ensures categoryId !in CategoryNames ==> name == "Other"
  {
    Label(CategoryNames, categoryId)
  }

  /**
    `table[categoryId] || "Other"` for any name table; the grouping below
    is stated for every table and used with `CategoryNames`.
   */
  function Label(table: map<string, string>, categoryId: string): string
  {
    if categoryId in table && table[categoryId] != "" then table[categoryId] else "Other"
  }

  /**
    Ids that the video record names but this table lacks, such as "18"
    (Short Movies) and "29" (Nonprofits & Activism), fall into "Other".
   */
  lemma UnlistedIdsMergeIntoOther()
    ensures "18" in VideoCategories && CategoryLabel("18") == "Other"
    ensures "29" in VideoCategories && CategoryLabel("29") == "Other"
  {
  }

  /** The name a video is grouped under. */
  function LabelOf(table: map<string, string>, v: Video): string
  {
    Label(table, v.categoryId)
  }

  function ViewsOf(v: Video): int
  {
    IntOrZero(v.viewCount)
  }

  function LikesOf(v: Video): int
  {
    IntOrZero(v.likeCount)
  }

  /** One entry of `categoryData`. */
  datatype Group = Group(name: string, count: nat, totalViews: int, totalLikes: int, videos: seq<Video>)

  /** The videos of one category name, in input order. */
  function Members(table: map<string, string>, videos: seq<Video>, name: string): seq<Video>
  {
    Filter(videos, Named(table, name))
  }

  /** The test "this video carries the name". */
  function Named(table: map<string, string>, name: string): Video -> bool
  {
    (v: Video) => LabelOf(table, v) == name
  }

  /** The test "this video carries one of the names ns". */
  function InNames(table: map<string, string>, ns: seq<string>): Video -> bool
  {
    (v: Video) => LabelOf(table, v) in ns
  }

  /** The group the reduce builds for `name`. */
  function GroupOf(table: map<string, string>, videos: seq<Video>, name: string): Group
  {
    var m := Members(table, videos, name);
    Group(name, |m|, SumBy(m, ViewsOf), SumBy(m, LikesOf), m)
  }

  function LabelsOf(table: map<string, string>, videos: seq<Video>): (ls: seq<string>)
    ensures |ls| == |videos| && forall i :: 0 <= i < |videos| ==> ls[i] == LabelOf(table, videos[i])
  {
    seq(|videos|, i requires 0 <= i < |videos| => LabelOf(table, videos[i]))
  }

  /** The reduce's group for each name. */
  function GroupOfName(table: map<string, string>, videos: seq<Video>): string -> Group
  {
    (name: string) => GroupOf(table, videos, name)
  }

  /** The groups of the names, in the order of the names. */
  function GroupsFor(table: map<string, string>, videos: seq<Video>, names: seq<string>): (gs: seq<Group>)
    ensures |gs| == |names|
  {
    MapSeq(names, GroupOfName(table, videos))
  }

  lemma GroupsForAt(table: map<string, string>, videos: seq<Video>, names: seq<string>, i: int)
    requires 0 <= i < |names|
    ensures GroupsFor(table, videos, names)[i] == GroupOf(table, videos, names[i])
  {
    MapAt(names, GroupOfName(table, videos), i);
  }

  /** One more name adds its group at the end. */
  lemma GroupsForSnoc(table: map<string, string>, videos: seq<Video>, ns: seq<string>)
    requires ns != []
    ensures GroupsFor(table, videos, ns) == GroupsFor(table, videos, ns[..|ns| - 1]) + [GroupOf(table, videos, ns[|ns| - 1])]
  {
  }

  /** `Object.values(categoryStats)`: one group per name, in order of first appearance. */
  function Groups(table: map<string, string>, videos: seq<Video>): seq<Group>
  {
    GroupsFor(table, videos, Dedup(LabelsOf(table, videos)))
  }

  /** The sort key of `categoryData`: the number of videos in the group. */
  function CountKey(g: Group): real
  {
    g.count as real
  }

  /** `categoryData`: the groups, most videos first (stable). */
  function CategoryData(table: map<string, string>, videos: seq<Video>): seq<Group>
  {
    SortDesc(Groups(table, videos), CountKey)
  }

  /** One step of the reduce: the video joins its group. */
  function AddVideo(g: Group, v: Video): Group
  {
    g.(count := g.count + 1, totalViews := g.totalViews + ViewsOf(v),
       totalLikes := g.totalLikes + LikesOf(v), videos := g.videos + [v])
  }

  lemma GroupStep(table: map<string, string>, videos: seq<Video>, v: Video, name: string)
    ensures GroupOf(table, videos + [v], name) ==
      if LabelOf(table, v) == name then AddVideo(GroupOf(table, videos, name), v) else GroupOf(table, videos, name)
  {
    MembersSnoc(table, videos, v, name);
    if LabelOf(table, v) == name {
      SumBySnoc(Members(table, videos, name), v, ViewsOf);
      SumBySnoc(Members(table, videos, name), v, LikesOf);
    }
  }

  lemma MembersSnoc(table: map<string, string>, videos: seq<Video>, v: Video, name: string)
    ensures LabelOf(table, v) == name ==> Members(table, videos + [v], name) == Members(table, videos, name) + [v]
    ensures LabelOf(table, v) != name ==> Members(table, videos + [v], name) == Members(table, videos, name)
  {
    FilterSnoc(videos, v, Named(table, name));
    if LabelOf(table, v) != name {
      assert Members(table, videos, name) + [] == Members(table, videos, name);
    }
  }

  /** A name no video carries has the empty group. */
  lemma GroupOfAbsent(table: map<string, string>, videos: seq<Video>, name: string)
    requires name !in Dedup(LabelsOf(table, videos))
    ensures GroupOf(table, videos, name) == Group(name, 0, 0, 0, [])
  {
    var ls := LabelsOf(table, videos);
    assert forall i :: 0 <= i < |videos| ==> ls[i] in Dedup(ls);
    FilterNone(videos, Named(table, name));
  }

  /** The dictionary the reduce accumulates, with its keys in insertion order. */
  datatype Tally = Tally(stats: map<string, Group>, order: seq<string>)

  /** One reduce step: the video's group is created on first sight, then grows by the video. */
  function Step(table: map<string, string>, acc: Tally, v: Video): Tally
  {
    var name := LabelOf(table, v);
    if name in acc.stats then Tally(acc.stats[name := AddVideo(acc.stats[name], v)], acc.order)
    else Tally(acc.stats[name := AddVideo(Group(name, 0, 0, 0, []), v)], acc.order + [name])
  }

  /** The tally holds, for each name that occurs, that name's group, keyed in order of first occurrence. */
  ghost predicate Tallies(table: map<string, string>, acc: Tally, videos: seq<Video>)
  {
    && acc.order == Dedup(LabelsOf(table, videos))
    && (forall nm :: nm in acc.stats <==> nm in acc.order)
    && (forall nm :: nm in acc.stats ==> acc.stats[nm] == GroupOf(table, videos, nm))
  }

  lemma StepTallies(table: map<string, string>, acc: Tally, videos: seq<Video>, v: Video)
    requires Tallies(table, acc, videos)
    ensures Tallies(table, Step(table, acc, v), videos + [v])
  {
    var next := Step(table, acc, v);
    assert next.order == Dedup(LabelsOf(table, videos + [v])) && forall nm :: nm in next.stats <==> nm in next.order by {
      StepOrder(table, acc, videos, v);
    }
    assert forall nm :: nm in next.stats ==> next.stats[nm] == GroupOf(table, videos + [v], nm) by {
      StepGroups(table, acc, videos, v);
    }
    TalliesIntro(table, next, videos + [v]);
  }

  lemma TalliesIntro(table: map<string, string>, acc: Tally, videos: seq<Video>)
    requires acc.order == Dedup(LabelsOf(table, videos))
    requires forall nm :: nm in acc.stats <==> nm in acc.order
    requires forall nm :: nm in acc.stats ==> acc.stats[nm] == GroupOf(table, videos, nm)
    ensures Tallies(table, acc, videos)
  {
  }

  /** The method's loop body, which creates the group on first sight and then adds the video, is one reduce step. */
  lemma StepKeepsTallies(table: map<string, string>, stats: map<string, Group>, order: seq<string>, videos: seq<Video>, n: int)
    requires 0 <= n < |videos| && Tallies(table, Tally(stats, order), videos[..n])
    ensures var name := LabelOf(table, videos[n]);
      var created := if name in stats then stats else stats[name := Group(name, 0, 0, 0, [])];
      var order' := if name in stats then order else order + [name];
      Tallies(table, Tally(created[name := AddVideo(created[name], videos[n])], order'), videos[..n + 1])
  {
    var v := videos[n];
    LoopBodyIsStep(table, stats, order, v);
    StepTallies(table, Tally(stats, order), videos[..n], v);
    PrefixSnoc(videos, n);
  }

  lemma LoopBodyIsStep(table: map<string, string>, stats: map<string, Group>, order: seq<string>, v: Video)
    ensures var name := LabelOf(table, v);
      var created := if name in stats then stats else stats[name := Group(name, 0, 0, 0, [])];
      var order' := if name in stats then order else order + [name];
      Tally(created[name := AddVideo(created[name], v)], order') == Step(table, Tally(stats, order), v)
  {
    var name := LabelOf(table, v);
    if name !in stats {
      var g := AddVideo(Group(name, 0, 0, 0, []), v);
      assert stats[name := Group(name, 0, 0, 0, [])][name := g] == stats[name := g];
    }
  }

  lemma StepGroups(table: map<string, string>, acc: Tally, videos: seq<Video>, v: Video)
    requires Tallies(table, acc, videos)
    ensures forall nm :: nm in Step(table, acc, v).stats ==> Step(table, acc, v).stats[nm] == GroupOf(table, videos + [v], nm)
  {
    forall nm | nm in Step(table, acc, v).stats ensures Step(table, acc, v).stats[nm] == GroupOf(table, videos + [v], nm) {
      StepGroup(table, acc, videos, v, nm);
    }
  }

  lemma StepOrder(table: map<string, string>, acc: Tally, videos: seq<Video>, v: Video)
    requires Tallies(table, acc, videos)
    ensures Step(table, acc, v).order == Dedup(LabelsOf(table, videos + [v]))
    ensures forall nm :: nm in Step(table, acc, v).stats <==> nm in Step(table, acc, v).order
  {
    LabelsSnoc(table, videos, v);
    DedupSnoc(LabelsOf(table, videos), LabelOf(table, v));
  }

  lemma StepGroup(table: map<string, string>, acc: Tally, videos: seq<Video>, v: Video, nm: string)
    requires Tallies(table, acc, videos)
    requires nm in Step(table, acc, v).stats
    ensures Step(table, acc, v).stats[nm] == GroupOf(table, videos + [v], nm)
  {
    var name := LabelOf(table, v);
    GroupStep(table, videos, v, nm);
    if nm != name {
      assert Step(table, acc, v).stats[nm] == acc.stats[nm];
    } else if name !in acc.stats {
      GroupOfAbsent(table, videos, name);
    }
  }

  /** `Object.values`: the groups in key order. */
  function Values(acc: Tally): seq<Group>
  {
    seq(|acc.order|, i requires 0 <= i < |acc.order| => if acc.order[i] in acc.stats then acc.stats[acc.order[i]] else Group(acc.order[i], 0, 0, 0, []))
  }

  /** Reading a tally's groups in key order gives one group per name, in order of first appearance. */
  lemma TallyValues(table: map<string, string>, acc: Tally, videos: seq<Video>)
    requires Tallies(table, acc, videos)
    ensures Values(acc) == Groups(table, videos)
  {
    var a, b := Values(acc), Groups(table, videos);
    forall i | 0 <= i < |a| ensures a[i] == b[i] {
      TallyValueAt(table, acc, videos, i);
    }
  }

  lemma TallyValueAt(table: map<string, string>, acc: Tally, videos: seq<Video>, i: int)
    requires Tallies(table, acc, videos) && 0 <= i < |acc.order|
    ensures Values(acc)[i] == Groups(table, videos)[i]
  {
    var ns := Dedup(LabelsOf(table, videos));
    GroupsForAt(table, videos, ns, i);
    assert acc.order[i] == ns[i] && ns[i] in acc.stats;
  }

  /**
    The `reduce` over the videos into a dictionary keyed by category name,
    then `Object.values` (insertion order: names are not integer-like).
   */
  method GroupByCategory(videos: seq<Video>) returns (groups: seq<Group>)
    ensures groups == Groups(CategoryNames, videos)
  {
    var stats: map<string, Group> := map[];
    var order: seq<string> := [];
    var n := 0;
    while n < |videos|
      invariant 0 <= n <= |videos|
      invariant Tallies(CategoryNames, Tally(stats, order), videos[..n])
    {
      var video := videos[n];
      var name := LabelOf(CategoryNames, video);
      StepKeepsTallies(CategoryNames, stats, order, videos, n);
      if name !in stats {
        stats := stats[name := Group(name, 0, 0, 0, [])];
        order := order + [name];
      }
      stats := stats[name := AddVideo(stats[name], video)];
      n := n + 1;
    }
    PrefixAll(videos, n);
    TallyValues(CategoryNames, Tally(stats, order), videos);
    groups := Values(Tally(stats, order));
  }

  lemma LabelsSnoc(table: map<string, string>, videos: seq<Video>, v: Video)
    ensures LabelsOf(table, videos + [v]) == LabelsOf(table, videos) + [LabelOf(table, v)]
  {
  }

  /** The group counts over the distinct names ns add up to the number of videos carrying one of them. */
  lemma {:induction false} GroupsForCount(table: map<string, string>, videos: seq<Video>, ns: seq<string>)
    requires NoDup(ns)
    ensures SumBy(GroupsFor(table, videos, ns), (g: Group) => g.count) == |Filter(videos, InNames(table, ns))|
  {
    if ns == [] {
      FilterNone(videos, InNames(table, ns));
    } else {
      NoDupInit(ns);
      GroupsForCount(table, videos, ns[..|ns| - 1]);
      GroupsForCountStep(table, videos, ns);
    }
  }

  lemma GroupsForCountStep(table: map<string, string>, videos: seq<Video>, ns: seq<string>)
    requires ns != [] && NoDup(ns)
    requires SumBy(GroupsFor(table, videos, ns[..|ns| - 1]), (g: Group) => g.count) == |Filter(videos, InNames(table, ns[..|ns| - 1]))|
    ensures SumBy(GroupsFor(table, videos, ns), (g: Group) => g.count) == |Filter(videos, InNames(table, ns))|
  {
    var init, x := ns[..|ns| - 1], ns[|ns| - 1];
    NamesUnion(table, videos, ns, ViewsOf);
    GroupsForSnoc(table, videos, ns);
    SumBySnoc(GroupsFor(table, videos, init), GroupOf(table, videos, x), (g: Group) => g.count);
  }

  /**
    A per-group total that adds up a per-video measure over the group's
    videos, summed over the groups of the distinct names ns, is the sum of
    that measure over the videos carrying one of those names.
   */
  lemma {:induction false} GroupsForTotal(table: map<string, string>, videos: seq<Video>, ns: seq<string>, f: Video -> int, total: Group -> int)
    requires NoDup(ns)
    requires forall nm :: total(GroupOf(table, videos, nm)) == SumBy(Members(table, videos, nm), f)
    ensures SumBy(GroupsFor(table, videos, ns), total) == SumBy(Filter(videos, InNames(table, ns)), f)
  {
    if ns == [] {
      FilterNone(videos, InNames(table, ns));
    } else {
      NoDupInit(ns);
      GroupsForTotal(table, videos, ns[..|ns| - 1], f, total);
      GroupsForTotalStep(table, videos, ns, f, total);
    }
  }

  lemma GroupsForTotalStep(table: map<string, string>, videos: seq<Video>, ns: seq<string>, f: Video -> int, total: Group -> int)
    requires ns != [] && NoDup(ns)
    requires total(GroupOf(table, videos, ns[|ns| - 1])) == SumBy(Members(table, videos, ns[|ns| - 1]), f)
    requires SumBy(GroupsFor(table, videos, ns[..|ns| - 1]), total) == SumBy(Filter(videos, InNames(table, ns[..|ns| - 1])), f)
    ensures SumBy(GroupsFor(table, videos, ns), total) == SumBy(Filter(videos, InNames(table, ns)), f)
  {
    var init, x := ns[..|ns| - 1], ns[|ns| - 1];
    NamesUnion(table, videos, ns, f);
    GroupsForSnoc(table, videos, ns);
    SumBySnoc(GroupsFor(table, videos, init), GroupOf(table, videos, x), total);
  }

  /** The videos of distinct names ns split into those of its prefix and those of its last name. */
  lemma NamesUnion(table: map<string, string>, videos: seq<Video>, ns: seq<string>, f: Video -> int)
    requires ns != [] && NoDup(ns)
    ensures |Filter(videos, InNames(table, ns[..|ns| - 1]))| + |Members(table, videos, ns[|ns| - 1])| == |Filter(videos, InNames(table, ns))|
    ensures SumBy(Filter(videos, InNames(table, ns[..|ns| - 1])), f) + SumBy(Members(table, videos, ns[|ns| - 1]), f)
      == SumBy(Filter(videos, InNames(table, ns)), f)
  {
    var init, x := ns[..|ns| - 1], ns[|ns| - 1];
    NamesSplit(ns);
    FilterDisjoint(videos, InNames(table, init), Named(table, x), InNames(table, ns), f);
  }

  lemma NoDupInit(ns: seq<string>)
    requires ns != [] && NoDup(ns)
    ensures NoDup(ns[..|ns| - 1])
  {
  }

  /** With distinct names, a name is in ns exactly when it is in its prefix or, exclusively, its last. */
  lemma NamesSplit(ns: seq<string>)
    requires ns != [] && NoDup(ns)
    ensures ns[|ns| - 1] !in ns[..|ns| - 1]
    ensures forall y :: y in ns <==> y in ns[..|ns| - 1] || y == ns[|ns| - 1]
  {
    assert ns == ns[..|ns| - 1] + [ns[|ns| - 1]];
  }

  /**
    The groups partition the videos: their counts add up to the number of
    videos and their view and like totals to the totals over all videos
    (malformed counts read as 0); sorting by count keeps all three.
   */
  lemma CategoryDataPartition(table: map<string, string>, videos: seq<Video>)
    ensures var cats := CategoryData(table, videos);
      && SumBy(cats, (g: Group) => g.count) == |videos|
      && SumBy(cats, (g: Group) => g.totalViews) == SumBy(videos, ViewsOf)
      && SumBy(cats, (g: Group) => g.totalLikes) == SumBy(videos, LikesOf)
  {
    var ls := LabelsOf(table, videos);
    var ns := Dedup(ls);
    GroupsForCount(table, videos, ns);
    GroupsForTotal(table, videos, ns, ViewsOf, (g: Group) => g.totalViews);
    GroupsForTotal(table, videos, ns, LikesOf, (g: Group) => g.totalLikes);
    assert forall i :: 0 <= i < |videos| ==> ls[i] in ns;
    FilterAll(videos, InNames(table, ns));
    var key := CountKey;
    SumBySortDesc(Groups(table, videos), key, (g: Group) => g.count);
    SumBySortDesc(Groups(table, videos), key, (g: Group) => g.totalViews);
    SumBySortDesc(Groups(table, videos), key, (g: Group) => g.totalLikes);
  }

  /** Each group is non-empty and is the group of its own name. */
  lemma GroupNonEmpty(table: map<string, string>, videos: seq<Video>, i: int)
    requires 0 <= i < |Groups(table, videos)|
    ensures Groups(table, videos)[i].count >= 1 && Groups(table, videos)[i] == GroupOf(table, videos, Groups(table, videos)[i].name)
  {
    var ls := LabelsOf(table, videos);
    var ns := Dedup(ls);
    var name := ns[i];
    GroupsForAt(table, videos, ns, i);
    assert name in ls;
    var j :| 0 <= j < |ls| && ls[j] == name;
    FilterNonEmpty(videos, Named(table, name), j);
    assert Groups(table, videos)[i] == GroupOf(table, videos, name);
  }

  /** No group occurs twice: their names differ. */
  lemma GroupsNoDup(table: map<string, string>, videos: seq<Video>)
    ensures NoDup(Groups(table, videos))
  {
    var gs := Groups(table, videos);
    var ns := Dedup(LabelsOf(table, videos));
    forall i, j | 0 <= i < j < |gs| ensures gs[i] != gs[j] {
      GroupsForAt(table, videos, ns, i);
      GroupsForAt(table, videos, ns, j);
      assert gs[i].name == ns[i] && gs[j].name == ns[j];
    }
  }

  /** The same holds after sorting by count. */
  lemma CategoryDataMember(table: map<string, string>, videos: seq<Video>, i: int)
    requires 0 <= i < |CategoryData(table, videos)|
    ensures CategoryData(table, videos)[i].count >= 1
    ensures CategoryData(table, videos)[i] == GroupOf(table, videos, CategoryData(table, videos)[i].name)
  {
    var k := PermutationIndex(Groups(table, videos), CategoryData(table, videos), i);
    GroupNonEmpty(table, videos, k);
  }

  /**
    Every group of `categoryData` is non-empty, holds exactly the videos
    of its name in input order, and names differ between groups; the list
    is ordered by count, largest first.
   */
  lemma CategoryDataShape(table: map<string, string>, videos: seq<Video>)
    ensures var cats := CategoryData(table, videos);
      && SortedDesc(cats, CountKey)
      && (forall i :: 0 <= i < |cats| ==> cats[i].count >= 1 && cats[i] == GroupOf(table, videos, cats[i].name))
      && (forall i, j :: 0 <= i < j < |cats| ==> cats[i].name != cats[j].name)
  {
    var cats := CategoryData(table, videos);
    forall i | 0 <= i < |cats| ensures cats[i].count >= 1 && cats[i] == GroupOf(table, videos, cats[i].name) {
      CategoryDataMember(table, videos, i);
    }
    GroupsNoDup(table, videos);
    NoDupPermutation(Groups(table, videos), cats);
  }

  /** One slice of the pie chart. */
  datatype PieSlice = PieSlice(name: string, value: nat, views: int, likes: int)

  /** `pieData`: the seven largest groups. */
  function PieData(cats: seq<Group>): (r: seq<PieSlice>)
    ensures |r| == Min(7, |cats|)
    ensures forall i :: 0 <= i < |r| ==>
      r[i] == PieSlice(cats[i].name, cats[i].count, cats[i].totalViews, cats[i].totalLikes)
  {
    var t := Take(cats, 7);
    seq(|t|, i requires 0 <= i < |t| => PieSlice(t[i].name, t[i].count, t[i].totalViews, t[i].totalLikes))
  }

  /** One bar of the bar chart. */
  datatype Bar = Bar(name: string, views: int, videos: nat)

  /** `barData`: the eight largest groups, first word of the name, rounded average views. */
  function BarData(cats: seq<Group>): (r: seq<Bar>)
    requires forall i :: 0 <= i < |cats| ==> cats[i].count >= 1
    ensures |r| == Min(8, |cats|)
    ensures forall i :: 0 <= i < |r| ==>
      && IsPrefix(r[i].name, cats[i].name) && ' ' !in r[i].name
      && (r[i].name == cats[i].name || cats[i].name[|r[i].name|] == ' ')
      && r[i].videos == cats[i].count
      && -1.0 / 2.0 < r[i].views as real - cats[i].totalViews as real / cats[i].count as real <= 1.0 / 2.0
  {
    var t := Take(cats, 8);
    seq(|t|, i requires 0 <= i < |t| =>
      Bar(FirstWord(t[i].name), MathRound(t[i].totalViews as real / t[i].count as real), t[i].count))
  }

  /** `topCategory`: the first group of `categoryData` (read before the in-place re-sort). */
  function TopCategory(cats: seq<Group>): (top: Option<Group>)
    ensures top.None? <==> cats == []
    ensures top.Some? ==> top.value == cats[0]
  {
    if cats == [] then None else Some(cats[0])
  }

  /**
    The top category has the most videos, and is absent exactly when there
    are no videos. Among names with equally many videos the stable sort keeps
    the one whose first video comes earliest: it is the first group of
    maximal count in `Object.values` order, and no video of another name
    with as many videos comes before the first video of the top name.
   */
  lemma TopCategoryIsLargest(table: map<string, string>, videos: seq<Video>)
    ensures var top := TopCategory(CategoryData(table, videos));
      && (top.None? <==> videos == [])
      && (top.Some? ==> forall i :: 0 <= i < |CategoryData(table, videos)| ==> CategoryData(table, videos)[i].count <= top.value.count)
      && (top.Some? ==> exists i :: IsFirstMax(Groups(table, videos), i, CountKey) && top.value == Groups(table, videos)[i])
      && (top.Some? ==> var ls := LabelsOf(table, videos);
            top.value.name in ls &&
            forall k :: 0 <= k < |videos| && GroupOf(table, videos, ls[k]).count == top.value.count ==>
              IndexOf(ls, top.value.name) <= k)
  {
    CategoryDataShape(table, videos);
    var ls := LabelsOf(table, videos);
    if videos != [] {
      assert ls[0] in Dedup(ls);
      TopIsFirstAppearing(table, videos);
    }
  }

  /** The tie-break of `TopCategoryIsLargest`, through the first largest group. */
  lemma TopIsFirstAppearing(table: map<string, string>, videos: seq<Video>)
    requires videos != []
    ensures var gs, ls := Groups(table, videos), LabelsOf(table, videos);
      && gs != []
      && (exists i :: IsFirstMax(gs, i, CountKey) && CategoryData(table, videos)[0] == gs[i])
      && CategoryData(table, videos)[0].name in ls
      && forall k :: 0 <= k < |videos| && GroupOf(table, videos, ls[k]).count == CategoryData(table, videos)[0].count ==>
           IndexOf(ls, CategoryData(table, videos)[0].name) <= k
  {
    var gs, ls := Groups(table, videos), LabelsOf(table, videos);
    var ns := Dedup(ls);
    assert ls[0] in ns;
    SortDescHead(gs, CountKey);
    var i :| IsFirstMax(gs, i, CountKey) && CategoryData(table, videos)[0] == gs[i];
    GroupsForAt(table, videos, ns, i);
    var top := gs[i];
    assert top.name == ns[i];
    forall k | 0 <= k < |videos| && GroupOf(table, videos, ls[k]).count == top.count
      ensures IndexOf(ls, top.name) <= k
    {
      var x := ls[k];
      assert x in ns;
      var j := IndexOf(ns, x);
      GroupsForAt(table, videos, ns, j);
      assert CountKey(gs[j]) == CountKey(gs[i]);
      if k < IndexOf(ls, x) {
        IndexOfFirst(ls, x, k);
      }
      if j != i {
        assert i < j;
      }
    }
  }

  /**
    "Avg Views/Category": the rounded mean of the group view totals. The
    division is unguarded; with no groups the source shows `NaN`, here None.
   */
  function AvgViewsPerCategory(cats: seq<Group>): (r: Option<int>)
    ensures r.None? <==> cats == []
    ensures r.Some? ==>
      -1.0 / 2.0 < r.value as real - SumBy(cats, (g: Group) => g.totalViews) as real / |cats| as real <= 1.0 / 2.0
  {
    if cats == [] then None
    else Some(MathRound(SumBy(cats, (g: Group) => g.totalViews) as real / |cats| as real))
  }

  /** Over `categoryData`, the mean is the total views of all videos over the number of names. */
  lemma AvgViewsPerCategoryIsViewsPerName(table: map<string, string>, videos: seq<Video>)
    requires videos != []
    ensures var cats := CategoryData(table, videos);
      AvgViewsPerCategory(cats).Some? &&
      AvgViewsPerCategory(cats).value == MathRound(SumBy(videos, ViewsOf) as real / |cats| as real)
  {
    CategoryDataPartition(table, videos);
    TopCategoryIsLargest(table, videos);
  }

  /**
    Average views of a group, the "Most Viral" sort key. Groups are never
    empty (`CategoryDataShape`); an empty one would give `NaN` in the
    source and is given 0 here.
   */
  function AvgViews(g: Group): real
  {
    if g.count == 0 then 0.0 else g.totalViews as real / g.count as real
  }

  /**
    The "Most Viral" card: `categoryData.sort(by average views)` on the
    memoised array itself, then the first word of the first name. The
    array ends in the stable order, so among categories tied on the top
    average the one listed first is named. Because the memoised array is
    the one sorted, a later render that reuses the memo reads `topCategory`,
    `pieData` and `barData` in this average-views order; re-rendering is not
    part of this model.
   */
  method MostViral(a: array<Group>) returns (viral: Option<string>)
    modifies a
    ensures a[..] == SortDesc(old(a[..]), AvgViews)
    ensures multiset(a[..]) == multiset(old(a[..]))
    ensures SortedDesc(a[..], AvgViews)
    ensures viral.None? <==> a.Length == 0
    ensures viral.Some? ==> viral.value == FirstWord(a[0].name)
    ensures viral.Some? ==> exists i :: IsFirstMax(old(a[..]), i, AvgViews) && viral.value == FirstWord(old(a[..])[i].name)
  {
    SortInPlaceDesc(a, AvgViews);
    if a.Length == 0 {
      viral := None;
    } else {
      SortDescHead(old(a[..]), AvgViews);
      viral := Some(FirstWord(a[0].name));
    }
  }

  /**
    The detail list: the first ten entries of the array as the "Most
    Viral" card left it, that is, by average views.
   */
  method DetailList(a: array<Group>) returns (details: seq<Group>)
    ensures |details| <= 10 && details == a[..Min(10, a.Length)]
  {
    details := a[..Min(10, a.Length)];
  }
}
