# youtube-trends in Dafny

A model of the data logic behind the youtube-trends dashboard: a Next.js
site that fetches the most popular YouTube videos of a region and shows
them as filterable, sortable lists, charts and metric cards. The model
covers:

- the shared helpers: the compact count format, the relative age label
  and the publish-time window test;
- the YouTube client: how one API item becomes a video record, and the
  two ways a fetch fails;
- the home page's filter and sort pipeline, its category list and its
  active-filter count;
- the analysis components: the time buckets, the category groups, the
  summary tiles, the chart rows and the per-region cache of the map;
- the FAQ page's category filter and accordion;
- the four metric cards: engagement rate, view velocity, retention rate
  and subscriber conversion.

Each source file is one module named after it. The shared modules are:

- `Numbers`: `Option`/`Result`, `Math.round`, `Math.floor` and the value
  that `toFixed` denotes.
- `Text`: `parseInt`, number-to-text, lower-casing, trimming and
  `includes`.
- `Seqs`: filters, the stable descending sort and sums.
- `Thresholds`: the first-match threshold cascades the badges use.

Code that updates state step by step is written as methods over arrays
or a class, each proved against a function that specifies it:

- the time buckets' `forEach` over four datasets;
- the category `reduce` over a map;
- the in-place sorts of the time and category cards, each proved to
  leave exactly the stable sort `Seqs.SortDesc` of the old contents;
- the region cache.

Counts stay the decimal strings the API sends and are read with
`parseInt`. A `NaN` that the source lets through is `None`. Numbers are
exact reals, and `toFixed` is the rounded value it denotes. The wall
clock is the parameter `now`, in milliseconds, and a publication time is
a millisecond timestamp. The local hour, weekday and month of each
publication time are an input parallel to the video list. The category
grouping is stated for any id-to-name table and used with the
component's own table.

## Model

| member | source | states |
|---|---|---|
| Utils.FormatNumber | lib/utils.ts:8-22 | the formatted count is never empty |
| Utils.FormatCountValue | lib/utils.ts:12-21 | from a billion the text is the count in tenths of a billion, rounded, written with one decimal and followed by "B"; likewise "M" in tenths of a million on [1e6, 1e9) and "K" in tenths of a thousand on [1e3, 1e6); below a thousand it reads back as the integer |
| Utils.FormatCountAsText | components/time-analysis.tsx:125-130 | the cards' own number format on an integer is the shared format of its decimal text |
| Utils.FormatViewCount | lib/utils.ts:24-25 | `formatViewCount` gives exactly what `formatNumber` gives |
| Utils.FormatNumberUnparsable | lib/utils.ts:9-10 | text with no parsable integer is shown as "0" |
| Utils.FormatNumberTiers | lib/utils.ts:12-21 | the suffix is B exactly from a billion, M exactly on [1e6, 1e9), K exactly on [1e3, 1e6), and what precedes it is the count in tenths of that unit, rounded, with one decimal; below a thousand the text reads back as the integer |
| Utils.FormatNumberBelowMillion | lib/utils.ts:15-19 | the tier is chosen before rounding, so "999999" is shown as "1000.0K" |
| Utils.GetTimeAgoByHours | lib/utils.ts:27-45 | the label is decided by the whole hours elapsed: "Just now" below one hour (future dates too), then hours, days, weeks below 28 days, then 30-day months |
| Utils.LabelForHoursInteger | lib/utils.ts:34-44 | the chain of `Math.floor` divisions equals integer division at every step |
| Utils.LabelWeeks | lib/utils.ts:37-41 | from 7 to 27 days the label counts whole weeks |
| Utils.LabelMonths | lib/utils.ts:40-44 | from 28 days on the label counts whole 30-day months |
| Utils.GetTimeAgoZeroMonths | lib/utils.ts:40-44 | every age from 28 days up to 30 days is labelled "0mo ago" |
| Utils.GetTimeAgoCorrectedPositive | lib/utils.ts:40-44 | with months floored at one, every label other than "Just now" starts with a non-zero digit |
| Utils.WithinTimeRangeMs | lib/utils.ts:47-67 | the window test is elapsed milliseconds at most 24, 168 or 720 hours for "24h", "7d" and "30d"; every other range admits everything |
| Utils.WindowsNest | lib/utils.ts:56-66 | inside 24 hours implies inside 7 days implies inside 30 days; a future date is inside every window |
| YouTube.CategoryName | lib/youtube.ts:92-95 | a listed id gets its table name, any other id gets "Unknown" |
| YouTube.UnknownOnlyForUnlisted | lib/youtube.ts:24-56 | "Unknown" marks exactly the ids missing from the table |
| YouTube.CountOrZero | lib/youtube.ts:86-88 | an absent or empty count becomes "0", any other count is kept |
| YouTube.ToVideo | lib/youtube.ts:81-98 | the record keeps the item's id, category id, title, channel title, thumbnail URL, publication time and description, keeps its tags or has none when it has none, keeps each count string, an absent or empty one becoming "0", names its category and builds the watch URL from the id |
| YouTube.MapItems | lib/youtube.ts:81 | one record per item, in item order |
| YouTube.VideoUrlRoundTrip | lib/youtube.ts:97 | the id can be read back from the watch URL |
| YouTube.SameIdSameName | lib/youtube.ts:92-95 | records with the same category id carry the same category name |
| YouTube.GetTrendingVideos | lib/youtube.ts:61-109 | a missing or empty key fails with the configuration message; otherwise a response that is not OK fails with its status; it succeeds exactly when both checks pass, and then holds the mapped items, the region and the total |
| YouTube.MissingKeyIgnoresResponse | lib/youtube.ts:65-67 | without a key the outcome does not depend on any response |
| YouTube.ApiErrorNamesStatus | lib/youtube.ts:74-76 | the error message of a failed response reads back as its status |
| HomePage.ByCategory | components/pages/home-page.tsx:49-54 | the category step keeps exactly the videos whose id equals the selection, and everything for "all" |
| HomePage.ByTime | components/pages/home-page.tsx:56-61 | the time step keeps exactly the videos inside the window, and everything for "all" |
| HomePage.BySearch | components/pages/home-page.tsx:63-72 | the search step keeps exactly the videos whose lowercased title, channel or category name contains the lowercased query, and everything when the trimmed query is empty |
| HomePage.FilterChainIsKeep | components/pages/home-page.tsx:46-72 | the three filters in a row keep, in order, exactly the videos that pass all three |
| HomePage.FilteredAndSortedSpec | components/pages/home-page.tsx:46-94 | the list is a permutation of the kept videos, ordered by the sort key largest first, and videos with equal keys keep their input order |
| HomePage.OutputPassesFilters | components/pages/home-page.tsx:46-72 | every listed video is one of the input videos and passes every active filter; the category match is exact |
| HomePage.KeptVideoListed | components/pages/home-page.tsx:46-94 | every input video that passes the filters is listed |
| HomePage.NoFiltersKeepsAll | components/pages/home-page.tsx:47-72 | with every filter off the list is a reordering of all the videos |
| HomePage.SearchCaseInsensitive | components/pages/home-page.tsx:64-71 | queries that lowercase alike match the same videos |
| HomePage.FirstOfEachIdSpec | components/pages/home-page.tsx:98-106 | the `reduce` collects distinct ids, includes every video's id, and names each entry after the first video with that id |
| HomePage.FirstOfEachIdDistinct | components/pages/home-page.tsx:98-106 | no id is collected twice |
| HomePage.FirstOfEachIdCovers | components/pages/home-page.tsx:98-106 | every video's category id is collected |
| HomePage.FirstOfEachIdNamed | components/pages/home-page.tsx:98-106 | each entry carries the id and name of the first video with that id |
| HomePage.InsertByName | components/pages/home-page.tsx:108 | one insertion step of the name sort adds exactly the new entry |
| HomePage.InsertByNameSorted | components/pages/home-page.tsx:108 | inserting into a name-ordered list keeps it ordered |
| HomePage.SortByName | components/pages/home-page.tsx:108 | the name sort is a permutation ordered by name |
| HomePage.SortByNameStable | components/pages/home-page.tsx:108 | categories with the same name keep their input order: the sort is stable |
| HomePage.SortByNameDistinct | components/pages/home-page.tsx:108 | sorting keeps the ids distinct |
| HomePage.AvailableCategoriesSpec | components/pages/home-page.tsx:96-109 | the offered list has one entry per distinct id, covers every video's id, names each entry after the first video with that id, is ordered by name, and keeps entries of equal name in the order their ids first appear |
| HomePage.AvailableCategories | components/pages/home-page.tsx:96-109 | the loop with its `find` scan computes the specified list |
| HomePage.FilterState.constructor | components/pages/home-page.tsx:20-23 | the initial selection is "all" categories, all times, no search, sorted by views |
| HomePage.FilterState.ClearAllFilters | components/pages/home-page.tsx:111-116 | the reset restores the initial selection, and then no filter counts as active |
| HomePage.FilterState.ActiveFiltersCount | components/pages/home-page.tsx:118-123 | the count is at most 4, and it is 0 exactly when all four controls are at their reset values, a blank search counting as reset |
| HomePage.BlankSearchInactive | components/pages/home-page.tsx:63-72 | a search of only white space trims to empty and lists what an empty search lists |
| HomePage.SortAloneCounts | components/pages/home-page.tsx:118-123 | with the three filters off, the count is 1 exactly when the sort is not by views |
| TimeAnalysis.HourLabelsRead | components/time-analysis.tsx:37-42 | label h of the 24 is five characters, ends in ":00" and its leading two digits read back as h |
| TimeAnalysis.AgeIndex | components/time-analysis.tsx:100-108 | every age lands in one of the six age buckets |
| TimeAnalysis.AgeIndexInterval | components/time-analysis.tsx:100-108 | bucket i holds exactly the ages above bound i-1 and at most bound i (1, 6, 24, 168, 672 hours); a future publish time lands in bucket 0 |
| TimeAnalysis.AgeIndexMonotone | components/time-analysis.tsx:102-108 | an older video never lands in a younger bucket |
| TimeAnalysis.WithAverage | components/time-analysis.tsx:114-120 | the average pass keeps name, count and total, writes 0 for an empty bucket and otherwise the mean rounded to within one half |
| TimeAnalysis.Buckets | components/time-analysis.tsx:80-120 | a finished dataset has one entry per label, each the averaged count and total of the videos with that key |
| TimeAnalysis.Record | components/time-analysis.tsx:84-111 | adding the n-th video's views to its bucket turns the tally of n videos into the tally of n + 1 |
| TimeAnalysis.NewDataset | components/time-analysis.tsx:37-78 | a new dataset is a fresh array with one zero bucket per label |
| TimeAnalysis.FillAverages | components/time-analysis.tsx:114-120 | the averaging pass writes every bucket's average and changes nothing else |
| TimeAnalysis.TallyVideo | components/time-analysis.tsx:80-112 | one iteration counts the video in its hour, weekday, month and age bucket, keeping all four datasets equal to the tallies of the videos so far |
| TimeAnalysis.ComputeTimeData | components/time-analysis.tsx:35-123 | the two passes over four arrays compute exactly the specified four datasets |
| TimeAnalysis.Averaged | components/time-analysis.tsx:115-120 | a fully tallied dataset, once averaged, is the specified dataset |
| TimeAnalysis.BucketsPartition | components/time-analysis.tsx:80-112 | each video falls in exactly one bucket: the counts add up to the number of videos and the totals to all the views |
| TimeAnalysis.TimeDataPartition | components/time-analysis.tsx:80-112 | each of the four datasets accounts for every video and every view exactly once |
| TimeAnalysis.BestIndex | components/time-analysis.tsx:151-159 | the best bucket has the largest average, and no earlier bucket has the same average |
| TimeAnalysis.BestIndexTies | components/time-analysis.tsx:151-154 | when all averages are equal the first bucket wins |
| TimeAnalysis.NoVideosBest | components/time-analysis.tsx:151-159 | with no videos the best hour is "00:00" and the best day "Sun" |
| TimeAnalysis.FreshAndPeak | components/time-analysis.tsx:207-228 | "Fresh Content" counts the videos at most six hours old, "Peak Performance" those above six hours and at most a day old |
| TimeAnalysis.MostRecentVideos | components/time-analysis.tsx:161-166 | the caller's array is left as the stable newest-first sort of its old contents, ties in their old order, and the first three (or fewer) are returned |
| TimeAnalysis.MostRecentAreNewest | components/time-analysis.tsx:161-166 | the picked videos are newest first, and none is older than a video left out |
| CategoryAnalysis.CategoryLabel | components/category-analysis.tsx:66-68 | a listed id gets the component's own name for it, any other id "Other" |
| CategoryAnalysis.UnlistedIdsMergeIntoOther | components/category-analysis.tsx:28-43 | ids the video record names but this table lacks ("18", "29") are grouped as "Other" |
| CategoryAnalysis.GroupStep | components/category-analysis.tsx:80-83 | a video added to the input grows the group of its own name by itself, its views and its likes, and leaves every other group unchanged |
| CategoryAnalysis.StepTallies | components/category-analysis.tsx:65-86 | one `reduce` step keeps the dictionary equal to the groups of the videos seen so far, its keys in order of first appearance |
| CategoryAnalysis.StepKeepsTallies | components/category-analysis.tsx:70-83 | creating a missing group and then adding the video is that `reduce` step |
| CategoryAnalysis.TallyValues | components/category-analysis.tsx:88 | `Object.values` of such a dictionary is one group per name, in order of first appearance |
| CategoryAnalysis.GroupByCategory | components/category-analysis.tsx:65-88 | the loop over a dictionary computes exactly the specified groups |
| CategoryAnalysis.GroupNonEmpty | components/category-analysis.tsx:70-83 | every group holds at least one video and is the group of its own name |
| CategoryAnalysis.GroupsNoDup | components/category-analysis.tsx:65-88 | no group occurs twice |
| CategoryAnalysis.CategoryDataPartition | components/category-analysis.tsx:64-91 | the group counts add up to the number of videos, and the view and like totals to the totals over all videos (malformed counts read as 0); the sort keeps all three |
| CategoryAnalysis.CategoryDataShape | components/category-analysis.tsx:64-91 | `categoryData` is ordered by count, largest first; every entry is non-empty and holds exactly the videos of its name in input order; names differ between entries |
| CategoryAnalysis.PieData | components/category-analysis.tsx:93-98 | the pie has exactly min(7, n) slices for n groups, slice i carrying group i's name, count, views and likes |
| CategoryAnalysis.BarData | components/category-analysis.tsx:100-104 | there are exactly min(8, n) bars for n groups; bar i is labelled with the first word of group i's name (the whole name, or its prefix up to the first space), with its count and its average views rounded to within one half |
| CategoryAnalysis.TopCategory | components/category-analysis.tsx:134 | the top category is the first entry, and absent exactly for an empty list |
| CategoryAnalysis.TopCategoryIsLargest | components/category-analysis.tsx:88-91 | the top category has the most videos, and is absent exactly when there are no videos; among names with equally many videos it is the first group of maximal count in `Object.values` order, so no video of another name with as many videos comes before the first video of the top name |
| CategoryAnalysis.AvgViewsPerCategory | components/category-analysis.tsx:182-188 | the rounded mean of the group view totals, absent (`NaN` in the source) for an empty list |
| CategoryAnalysis.AvgViewsPerCategoryIsViewsPerName | components/category-analysis.tsx:182-188 | over `categoryData` that mean is all views over the number of names |
| CategoryAnalysis.MostViral | components/category-analysis.tsx:203-209 | the memoised array is left as the stable sort of its old contents by average views, largest first; the card names the first word of the group with the largest average, the first such in the old order, and nothing when there are no groups |
| CategoryAnalysis.DetailList | components/category-analysis.tsx:291 | the detail list is the first ten entries of the array as the in-place sort left it |
| StatsCard.TotalIsSum | components/stats-card.tsx:21-32 | a total is a number exactly when every count parses, and is then the sum of the parsed counts; one `NaN` term makes it `NaN` |
| StatsCard.AvgViewsIsFloorQuotient | components/stats-card.tsx:33 | the average is a number exactly when there are videos and every view count parses, and is then the floor of the view sum over the number of videos |
| StatsCard.RecentVideosBound | components/stats-card.tsx:34-38 | the recent count is at most the number of videos, and equal to it exactly when every video is recent |
| StatsCard.RecentWithin24h | components/stats-card.tsx:34-38 | a recent video passes the "24h" time filter, but a video exactly one day old passes the filter and is not counted as recent |
| StatsCard.NumberText | components/stats-card.tsx:49 | the text of a number, or "NaN", reads back as that number, or as no number |
| StatsCard.Stats | components/stats-card.tsx:40-77 | six tiles with the titles in display order |
| StatsCard.StatsValues | components/stats-card.tsx:40-77 | the video and recent-video tiles read back as their counts; the views, likes and comments tiles are the formatted sums of their counts, or "0" when some count is not a number; the average tile is the formatted floor of total views over the number of videos, or "0" for an empty list or an unparsable view count |
| StatsCard.CountTiles | components/stats-card.tsx:41-74 | "Total Videos" and "Recent (24h)" read back as the number of videos and of recent videos |
| StatsCard.ViewTiles | components/stats-card.tsx:47-70 | the total-views and average-views tiles as stated for StatsValues |
| StatsCard.TotalTile | components/stats-card.tsx:21-63 | a total tile shows the formatted sum of its counts when all parse, and "0" otherwise |
| StatsCard.AverageTile | components/stats-card.tsx:33-70 | the average tile shows the formatted floor of total views over the number of videos, and "0" for no videos or an unparsable view count |
| StatsCard.NaNShowsZero | components/stats-card.tsx:64-67 | `formatNumber(NaN.toString())` is "0" |
| TrendingChart.TruncateTitle | components/trending-chart.tsx:22-25 | a title longer than 25 characters keeps exactly its first 25 followed by "..."; a shorter one is unchanged |
| TrendingChart.TruncateTitleIdempotent | components/trending-chart.tsx:22-25 | shortening a shortened title changes nothing |
| TrendingChart.ChartData | components/trending-chart.tsx:20-32 | one bar for each of the first ten videos, in list order, ranked from 1 by position, carrying that video's shortened title, parsed counts and formatted counts |
| RegionMap.RegionCodeList | lib/youtube.ts:111-132 | the region codes in table order |
| RegionMap.Codes | components/region-map.tsx:8-16 | the codes of a list of region entries, position by position |
| RegionMap.InitialStats | components/region-map.tsx:32-45 | one entry per region of the table, in order, with its code and name, zero counters and not loading |
| RegionMap.UpdateRegion | components/region-map.tsx:64-77 | entries of the fetched region take the fetched videos' count, totals and floor average; every other entry is unchanged |
| RegionMap.UpdateRegionProperties | components/region-map.tsx:64-77 | an update keeps every code in place, changes at most one entry when codes are distinct, and repeating it changes nothing |
| RegionMap.LoadedHasData | components/region-map.tsx:85-94 | after a fetch that returned videos the region has data, so clicking it again does not fetch |
| RegionMap.Currents | components/region-map.tsx:96-100 | the entries of the current region |
| RegionMap.Others | components/region-map.tsx:96-100 | the entries of the other regions, by total views, largest first |
| RegionMap.SortedRegions | components/region-map.tsx:96-100 | the sorted list is a rearrangement of the list |
| RegionMap.SortedRegionsOrder | components/region-map.tsx:96-100 | the current region comes before every other, and the others follow by total views, largest first |
| RegionMap.ShownRegions | components/region-map.tsx:112 | the first ten entries of the sorted list |
| RegionMap.RegionMapState.constructor | components/region-map.tsx:24-25 | both lists start empty |
| RegionMap.RegionMapState.InitializeRegionStats | components/region-map.tsx:32-45 | the stats list becomes the initial list; the loading list is unchanged |
| RegionMap.RegionMapState.StartLoad | components/region-map.tsx:47-50 | a region already loading is left alone; otherwise its code is appended to the loading list; no region is loading twice |
| RegionMap.RegionMapState.FinishLoad | components/region-map.tsx:52-82 | on success the region's entry takes the fetched statistics, on failure the list is kept; either way the code leaves the loading list |
| RegionMap.RegionMapState.HandleRegionClick | components/region-map.tsx:85-94 | the code is always selected; a fetch starts exactly when no entry of the code has videos and the code is not loading |
| FaqsPage.CategoriesOf | components/pages/faqs-page.tsx:95 | the category of each FAQ, position by position |
| FaqsPage.CategoriesShape | components/pages/faqs-page.tsx:93-96 | the buttons are "All" followed by each category of the list exactly once, and nothing else |
| FaqsPage.ShippedCategories | components/pages/faqs-page.tsx:14-96 | for the shipped list the buttons are All, General, Features, Technical, Usage, in that order |
| FaqsPage.FirstAppearances | components/pages/faqs-page.tsx:14-88 | over the shipped pattern of categories the buttons read "All" and then the four names in order of first appearance |
| FaqsPage.FilteredFaqs | components/pages/faqs-page.tsx:98-101 | "All" shows every FAQ; any other button shows FAQs of that category, and all of them |
| FaqsPage.FilteredFaqsExact | components/pages/faqs-page.tsx:98-101 | a category filter keeps each FAQ of the category as often as the list holds it, in list order |
| FaqsPage.FilteredFaqsIdempotent | components/pages/faqs-page.tsx:98-101 | filtering the filtered list again by the same button changes nothing |
| FaqsPage.ToggleItem | components/pages/faqs-page.tsx:103-107 | the toggled position flips between open and closed, and no other position changes |
| FaqsPage.ToggleTwice | components/pages/faqs-page.tsx:103-107 | opening a closed item and closing it again gives back the same list |
| FaqsPage.ToggleTwiceOpen | components/pages/faqs-page.tsx:103-107 | toggling twice restores which items are open |
| FaqsPage.ToggleNoDup | components/pages/faqs-page.tsx:103-107 | a list without repeats keeps that shape under toggling |
| FaqsPage.SelectCategory | components/pages/faqs-page.tsx:134-137 | a category button changes the filter and leaves the open positions as they are |
| FaqsPage.ClickItem | components/pages/faqs-page.tsx:153-176 | a question click keeps the filter and flips its own position |
| EngagementRate.CalculateEngagementRate | components/metrics/engagement-rate.tsx:22-25 | 0 for a video without views; otherwise exactly the `toFixed(2)` value of likes plus comments per hundred views: a whole number of hundredths, the nearest one, a half rounded away from zero, hence within half a hundredth |
| EngagementRate.GetEngagementCategory | components/metrics/engagement-rate.tsx:28-33 | each badge holds on exactly its band of rates (5 and up, 3 to 5, 1 to 3, below 1), with its colour |
| EngagementRate.CategoryMonotone | components/metrics/engagement-rate.tsx:28-33 | a higher rate never gets a worse badge |
| EngagementRate.ZeroViewsBelowAverage | components/metrics/engagement-rate.tsx:22-23 | a video without views rates 0 and is "Below Average", whatever its likes |
| EngagementRate.BadgeUsesRoundedRate | components/metrics/engagement-rate.tsx:42-48 | the badge is read from the rounded text: a rate of 4.996 rounds to 5.00 and is "Excellent" |
| EngagementRate.DefaultExample | components/metrics/engagement-rate.tsx:13-19 | the default video rates 4.75, "Very Good" |
| EngagementRate.FormatNumber | components/metrics/engagement-rate.tsx:36-40 | from a million the text ends in "M", from a thousand in "K", below that it reads back as the number |
| EngagementRate.FormatNumberValue | components/metrics/engagement-rate.tsx:36-40 | from a million the text is the number in tenths of a million, rounded, with one decimal and "M"; from a thousand, in tenths of a thousand with "K" |
| EngagementRate.FormatNumberAgrees | components/metrics/engagement-rate.tsx:36-40 | below a billion this card writes a count as the shared formatter writes its decimal text |
| EngagementRate.SharedFormat | lib/utils.ts:8-22 | the shared formatter on any text that parses below a billion uses the M, K or plain tier |
| EngagementRate.FormatNumberBillion | components/metrics/engagement-rate.tsx:36-40 | from a billion on, the card writes the count in tenths of a million with "M" (so "1000.0M" at a billion) where the shared formatter writes it in tenths of a billion with "B": the two texts differ |
| EngagementRate.Ratio | components/metrics/engagement-rate.tsx:111-128 | a breakdown ratio is no number exactly when its divisor is 0, and is otherwise exactly the `toFixed(2)` value of the scaled quotient: the nearest whole number of hundredths, a half rounded away from zero |
| EngagementRate.RatesAddUp | components/metrics/engagement-rate.tsx:111-122 | like rate and comment rate exist exactly when there are views, and add up to the headline rate within three half-hundredths |
| EngagementRate.CommentsPerLikeNeedsLikes | components/metrics/engagement-rate.tsx:123-128 | comments per like is missing exactly for a video without likes, even one with views |
| ViewVelocity.DaysSincePublish | components/metrics/view-velocity.tsx:31 | the age in days is the elapsed time in days or 0.01, whichever is larger |
| ViewVelocity.HoursSincePublish | components/metrics/view-velocity.tsx:32 | the age in hours is the elapsed time in hours or 0.1, whichever is larger |
| ViewVelocity.AgesAgree | components/metrics/view-velocity.tsx:31-32 | from 0.01 days on, the age in hours is 24 times the age in days; at publication the floors disagree (0.1 hours against 0.24) |
| ViewVelocity.Velocity | components/metrics/view-velocity.tsx:35-36 | the rounded velocity lies within half a view of views over age |
| ViewVelocity.DailyIsTwentyFourHourly | components/metrics/view-velocity.tsx:35-36 | once the floors are inactive, the daily velocity is 24 times the hourly one up to the two roundings |
| ViewVelocity.WeekProjection | components/metrics/view-velocity.tsx:213 | the 7-day projection lies within three and a half views of seven days at the exact rate |
| ViewVelocity.CalculateAcceleration | components/metrics/view-velocity.tsx:39-58 | absent without a history of three samples; not a finite number exactly when one of the last two gaps between timestamps is 0; otherwise the last slope minus the one before |
| ViewVelocity.AccelerationLastThree | components/metrics/view-velocity.tsx:42-45 | earlier history never changes the acceleration |
| ViewVelocity.SteadyGrowthNoAcceleration | components/metrics/view-velocity.tsx:51-58 | views growing at one constant rate over the last three samples give zero acceleration, whatever their spacing |
| ViewVelocity.DefaultAcceleration | components/metrics/view-velocity.tsx:12-24 | the default history has an acceleration of -20,000 views per day per day |
| ViewVelocity.GetVelocityCategory | components/metrics/view-velocity.tsx:64-97 | each badge holds on exactly its band of bounds scaled by the age multiplier, with its colour and icon |
| ViewVelocity.VelocityBoundsByAge | components/metrics/view-velocity.tsx:66-96 | the Viral and Slow bounds are 100,000 and 1,000 views per day up to three days, 70,000 and 700 after three days, 50,000 and 500 after a week |
| ViewVelocity.RankIsTierIndex | components/metrics/view-velocity.tsx:68-96 | a badge's rank is the index of the first scaled row the velocity reaches |
| ViewVelocity.VelocityMonotone | components/metrics/view-velocity.tsx:64-97 | a faster video of the same age never gets a worse badge |
| ViewVelocity.OlderNeverLower | components/metrics/view-velocity.tsx:66 | at the same velocity an older video never gets a worse badge, because its bounds only shrink |
| ViewVelocity.FormatNumber | components/metrics/view-velocity.tsx:100-104 | from a million the text ends in "M", from a thousand in "K", below that it reads back as the rounded number |
| ViewVelocity.FormatNumberValue | components/metrics/view-velocity.tsx:100-104 | from a million the text is the number in tenths of a million, rounded, with one decimal and "M"; from a thousand, in tenths of a thousand with "K" |
| ViewVelocity.FormatNumberMatchesEngagement | components/metrics/view-velocity.tsx:100-104 | on whole numbers this card formats as the engagement card does |
| ViewVelocity.FormatTimeAgoReads | components/metrics/view-velocity.tsx:107-111 | the age text is its rounded count followed by h, d or w and " ago", and reads back as that count |
| ViewVelocity.TimeAgoBands | components/metrics/view-velocity.tsx:107-111 | for a floored age the count is 0 to 24 hours, 1 to 7 days, or the nearest number of weeks |
| ViewVelocity.Card | components/metrics/view-velocity.tsx:113-213 | the card's badge is that of the daily velocity at the age; per-day, per-hour and next-week texts are the formatted daily velocity, hourly velocity and weekly projection; the publication text is the age as "… ago"; the acceleration is that of the history |
| RetentionRate.AvgRetentionRate | components/metrics/retention-rate.tsx:38 | no number for a video of length 0; otherwise exactly the `toFixed(1)` value of average view duration per hundred seconds of video: the nearest whole number of tenths, a half rounded away from zero |
| RetentionRate.TotalRetentionRate | components/metrics/retention-rate.tsx:39 | no number when views times duration is 0; otherwise exactly the `toFixed(1)` value of total watch time per view-second, per hundred: the nearest whole number of tenths, a half rounded away from zero |
| RetentionRate.RatesConsistent | components/metrics/retention-rate.tsx:38-39 | when total watch time is views times the average view duration, the two rates agree |
| RetentionRate.DefaultRates | components/metrics/retention-rate.tsx:9-12 | the default figures give an average rate of 50.0 but a total rate of 1.7 |
| RetentionRate.BenchmarkFor | components/metrics/retention-rate.tsx:43-50 | a listed content type gets its own row of benchmarks, any other type the default row |
| RetentionRate.GetRetentionCategory | components/metrics/retention-rate.tsx:42-72 | each badge holds on exactly its band of the type's benchmarks, with its colour and icon |
| RetentionRate.RankIsTierIndex | components/metrics/retention-rate.tsx:52-71 | a badge's rank is the index of the first benchmark the rate reaches |
| RetentionRate.CategoryMonotone | components/metrics/retention-rate.tsx:42-72 | a higher rate never gets a worse badge |
| RetentionRate.BenchmarkOrder | components/metrics/retention-rate.tsx:43-50 | an unlisted type is judged as "default" and "entertainment" are; a rate never ranks worse as a review, nor better as a tutorial, than under "default" |
| RetentionRate.ReviewNoWorse | components/metrics/retention-rate.tsx:46-47 | a rate never ranks worse under the review row than under the default row |
| RetentionRate.TutorialNoBetter | components/metrics/retention-rate.tsx:44-47 | a rate never ranks better under the tutorial row than under the default row |
| RetentionRate.Badge | components/metrics/retention-rate.tsx:121 | for a video of length 0 the badge is "Excellent" for a positive average view duration and "Needs Work" otherwise |
| RetentionRate.BadgeUsesRoundedRate | components/metrics/retention-rate.tsx:38-121 | the badge is read from the rounded text: 44.96 percent rounds to 45.0 and is "Excellent" for entertainment |
| RetentionRate.Drops | components/metrics/retention-rate.tsx:103-117 | the drops found are fewer than the samples |
| RetentionRate.FindCriticalDrops | components/metrics/retention-rate.tsx:103-119 | the scan returns the first three critical drops of the curve, in curve order |
| RetentionRate.DropsInOrder | components/metrics/retention-rate.tsx:103-117 | the drops are, one for one and in increasing sample order, the samples that fall more than 10 points below the previous one, and every such sample is among them |
| RetentionRate.DropsPrefix | components/metrics/retention-rate.tsx:105-116 | one more sample adds its drop, if it falls more than 10 points |
| RetentionRate.CriticalPrefix | components/metrics/retention-rate.tsx:105-116 | earlier samples keep their drops when the curve grows |
| RetentionRate.DropsSound | components/metrics/retention-rate.tsx:105-116 | everything reported is a fall of more than 10 points between consecutive samples |
| RetentionRate.DropsComplete | components/metrics/retention-rate.tsx:105-116 | every fall of more than 10 points between consecutive samples is reported |
| RetentionRate.DefaultDrops | components/metrics/retention-rate.tsx:14-26 | the default curve has two critical drops, 15 points at 0:15 and 13 at 10:00; falls of exactly 10 are not critical |
| RetentionRate.FirstAtLeast | components/metrics/retention-rate.tsx:125 | the index found is the first sample at or after the given second, or none when every sample is earlier |
| RetentionRate.EarlyRetentionAt | components/metrics/retention-rate.tsx:125 | early retention is the retention of the first sample from second 30 on, with 0 shown as 100 |
| RetentionRate.EarlyRetentionNone | components/metrics/retention-rate.tsx:125 | a curve that ends before second 30 shows 100 |
| RetentionRate.DefaultEarlyRetention | components/metrics/retention-rate.tsx:14-26 | the default curve's early retention is 78 |
| RetentionRate.Rem60 | components/metrics/retention-rate.tsx:77 | the JavaScript remainder by 60 agrees with the Euclidean one for non-negative seconds and takes the dividend's sign otherwise |
| RetentionRate.Minutes | components/metrics/retention-rate.tsx:76 | the floor of seconds over 60 is the integer quotient |
| RetentionRate.FormatDurationReads | components/metrics/retention-rate.tsx:75-80 | a duration is written as seconds alone under a minute, otherwise minutes and 0 to 59 seconds that add back to it |
| RetentionRate.FormatTimeReads | components/metrics/retention-rate.tsx:83-87 | a time is written as minutes, a colon and exactly two digits worth the remaining seconds |
| RetentionRate.TwoDigits | components/metrics/retention-rate.tsx:86 | padding a second count under 60 gives two digits worth that count |
| SubscriberConversion.PerHundredViews | components/metrics/subscriber-conversion.tsx:47-54 | no number without views; otherwise exactly the `toFixed(2)` value of subscribers per hundred views: the nearest whole number of hundredths, a half rounded away from zero |
| SubscriberConversion.NetNotAboveGross | components/metrics/subscriber-conversion.tsx:51-54 | losing subscribers never raises the rate: the net rate is at most the gross one |
| SubscriberConversion.DailyAverage | components/metrics/subscriber-conversion.tsx:60-65 | the velocity without a history; no number for an empty history |
| SubscriberConversion.GainedBounds | components/metrics/subscriber-conversion.tsx:62 | the gains add up to between the number of days times the smallest and times the largest gain |
| SubscriberConversion.DailyAverageBounds | components/metrics/subscriber-conversion.tsx:60-65 | the daily average of a non-empty history lies between its smallest and its largest daily gain |
| SubscriberConversion.MeanBetween | components/metrics/subscriber-conversion.tsx:61-64 | the rounded mean of a sum between n times lo and n times hi lies between lo and hi |
| SubscriberConversion.GetConversionCategory | components/metrics/subscriber-conversion.tsx:68-98 | each badge holds on exactly its band of rates (3 and up, 2 to 3, 1 to 2, 0.5 to 1, below 0.5), with its colour and icon |
| SubscriberConversion.CategoryMonotone | components/metrics/subscriber-conversion.tsx:68-98 | a higher rate never gets a worse badge |
| SubscriberConversion.Badge | components/metrics/subscriber-conversion.tsx:113 | without views the badge is "Excellent" for a positive subscriber count and "Below Average" otherwise |
| SubscriberConversion.DefaultExample | components/metrics/subscriber-conversion.tsx:20-27 | the default card converts at 1.47, "Good" |
| SubscriberConversion.VsChannelAvg | components/metrics/subscriber-conversion.tsx:101-104 | no number when the channel average is 0 (the card then shows the text "0" in place of the row); otherwise exactly the `toFixed(0)` value of the percentage above the channel average: the nearest whole percent, a half rounded away from zero |
| SubscriberConversion.VsChannelAvgArrow | components/metrics/subscriber-conversion.tsx:150-162 | the arrow points up only for a rate above the channel average, and always for one at least half a percent above it |
| SubscriberConversion.SubscriberRetention | components/metrics/subscriber-conversion.tsx:116-119 | no number without new subscribers; otherwise exactly the `toFixed(1)` value of the percentage of new subscribers that stayed: the nearest whole number of tenths, a half rounded away from zero, hence within half a tenth |
| SubscriberConversion.SubscriberRetentionBounds | components/metrics/subscriber-conversion.tsx:116-119 | when no more left than joined, the share that stayed is between 0 and 100 |
| Text.ParseIntRoundTrip | lib/utils.ts:9 | `parseInt` reads the decimal text of any integer back as that integer |
| Text.ParseIntUnsigned | lib/utils.ts:9 | `parseInt` of text that starts with decimal digits, and not with "0x", is the value of those digits, whatever follows |
| Text.ParseIntNegative | lib/utils.ts:9 | `parseInt` of a minus sign followed by decimal digits, and not by "0x", is minus their value |
| Text.ParseIntHex | lib/utils.ts:9 | after "0x" the longest run of hexadecimal digits is read in radix 16; "0x" with no digit after it is `NaN` |
| Text.ParseIntNegativeHex | lib/utils.ts:9 | a minus sign before "0x" negates the hexadecimal value |
| Text.ParseIntNoNumber | lib/utils.ts:9-10 | text that starts with no sign, digit or white space, such as "NaN", is `NaN` |
| Text.SkipSpaceStrips | lib/utils.ts:9 | `parseInt` skips exactly the leading white space: what it reads on from is a suffix of the text, and all it skipped is white space |
| Text.ToFixed1Reads | lib/utils.ts:12-20 | `toFixed(1)` writes x times ten, rounded, as tenths with one decimal, and the text reads back as its whole part |
| Text.ShowsTenthsReads | lib/utils.ts:12-20 | a one-decimal text reads back as its whole part, also with a unit letter after it, and its last digit is the tenths |
| Text.ShowsScaledReads | lib/utils.ts:12-20 | a scaled count such as "1.5K" reads back with `parseInt` as its whole number of units |
| Text.ShowsTenthsUnique | lib/utils.ts:12-20 | a one-decimal text stands for a single number of tenths |
| Text.Pad2Reads | components/time-analysis.tsx:38 | `padStart(2, "0")` of an hour gives two digits that read back as the hour |
| Text.ToLower | components/pages/home-page.tsx:65-70 | lowering keeps the length and lowers each character |
| Text.Includes | components/pages/home-page.tsx:68-70 | the needle occurs in the text exactly when it occurs at some position |
| Text.TrimStart | components/pages/home-page.tsx:64 | the result is what is left of the input after a leading run of white space, and it does not start with white space (white space being the ECMAScript white-space and line-terminator characters) |
| Text.TrimEnd | components/pages/home-page.tsx:64 | the result is what is left of the input before a trailing run of white space, and it does not end with white space |
| Text.TrimEmptyIffBlank | components/pages/home-page.tsx:64 | a trimmed string is empty exactly when every character of the input is white space |
| Text.LexLeqTotal | components/pages/home-page.tsx:108 | any two names are ordered one way or the other |
| Text.LexLeqTransitive | components/pages/home-page.tsx:108 | the name order is transitive |
| Seqs.SortDesc | components/pages/home-page.tsx:75-90 | sorting by a key, largest first, gives a rearrangement of the input in which keys never increase |
| Seqs.SortDescStable | components/region-map.tsx:96-100 | elements with equal keys keep their input order |
| Seqs.SortInPlaceDesc | components/category-analysis.tsx:205-209 | sorting an array in place by a key, largest first, leaves exactly `SortDesc` of its old contents: a rearrangement in which keys never increase and equal keys keep their order |
| Seqs.SortDescHead | components/category-analysis.tsx:205-209 | the first element of the sort is the earliest element with the largest key |
| Seqs.Dedup | components/pages/faqs-page.tsx:95 | the distinct elements, each once, all of them and nothing else, in order of first appearance (the iteration order of a `Set`) |
| Seqs.Take | components/trending-chart.tsx:20 | `slice(0, n)`: the first n elements, or all when there are fewer |
| Thresholds.TierIndexInterval | components/metrics/engagement-rate.tsx:28-33 | in a cascade of descending bounds, the row chosen is i exactly when the value reaches row i's bound and not row i-1's |
| Thresholds.TierIndexMonotone | components/metrics/engagement-rate.tsx:28-33 | a larger value never lands on a later row of a cascade |
| Thresholds.LowerBoundsNoWorse | components/metrics/view-velocity.tsx:66-96 | lowering every bound of a cascade never moves a value to a later row |

## Left out

- The HTTP request of `getTrendingVideos` (lib/youtube.ts:70-72) is not modelled. Its outcome is a parameter: the OK flag, the status and the decoded items. The URL, `maxResults`, the reading of `process.env` and the `catch`/rethrow path are left out. The API key is an `Option<string>` parameter.
- Dates are not modelled. `new Date()` is the millisecond parameter `now`. The source reads the clock again for every record: `isWithinTimeRange` calls `new Date()` on each call (lib/utils.ts:52) and the stats card calls `Date.now()` once per video (components/stats-card.tsx:36). The model collapses these reads into one `now` for the whole list, so it does not capture a video near the 24 h, 7 d or 30 d edge falling on different sides of it for different records. `new Date(publishedAt)` is a millisecond timestamp. An ISO string that does not parse, and the `NaN` dates it would give, are left out.
- The local hour, weekday and month come from the browser's time zone (`getHours`, `getDay`, `getMonth` in components/time-analysis.tsx:80-99). They are an input parallel to the videos.
- The view-velocity and subscriber-conversion cards read the clock too. The milliseconds since publication are their parameter.
- JavaScript numbers are modelled as exact reals and unbounded integers. The model does not capture floating-point rounding, overflow to `Infinity`, or integers above 2^53.
- `toFixed(k)` is the rounded value it denotes. Its text for `NaN` or `Infinity` is left out, and so is exponent notation from 10^21 up.
- A card that divides by zero shows `NaN` or `Infinity`. The model gives `None` instead, or an explicit branch where the source compares the result.
- `localeCompare` in components/pages/home-page.tsx:108 is modelled as order on Unicode scalar values (`Text.LexLeq`). That agrees with the UTF-16 code-unit order of JavaScript strings only inside the Basic Multilingual Plane. Locale collation rules are left out.
- The sort comparators subtract `parseInt` results. An unparsable count makes the comparator return `NaN`, and then the order is up to the engine. The model reads such a key as 0.
- TrendingChart.TruncateTitle: lengths count Unicode scalar values, not the UTF-16 code units that JavaScript's `length` and `substring` count. A title with characters outside the Basic Multilingual Plane is therefore cut at a different place, and the source may split a surrogate pair where the model cannot.
- Lower-casing covers ASCII letters only. Unicode case mapping is left out.
- Category and benchmark lookups index plain objects. Inherited keys such as `"constructor"` are left out: an id or content type is either in the table or not.
- React state plumbing is not modelled: `useState`, `useEffect`, `useMemo`, re-rendering, the `loading` flags and the `onRegionSelect` callback. Each state update is a function or method on the state it changes.
- Two fetches of the region map may interleave. The model treats `StartLoad` and `FinishLoad` as separate atomic steps and does not model interleavings. It also does not model that the guard reads the list from the last render.
- Logging, icons, colours, CSS classes, the SVG retention curve, the key moments, the tips and the watch-hour tile are presentation only and are left out.
- Retention samples and times are whole numbers here (seconds and percent). Fractional timestamps or retention values are not modelled.
- FAQ question and answer texts are not modelled. Only the category of each shipped FAQ is.
- Category-analysis and time-analysis each have their own `formatNumber(num)` (components/category-analysis.tsx:106-111, components/time-analysis.tsx:125-130). Both are `Utils.FormatCount`, and `Utils.FormatCountAsText` relates it to the shared formatter.
- The subscriber card's `formatNumber` (components/metrics/subscriber-conversion.tsx:107-111) is the view-velocity card's, `ViewVelocity.FormatNumber`.
- The subscriber card's rendering with `NaN` is not modelled. When there are no views, `vsChannelAvg` divides `NaN` by the channel average. `SubscriberConversion.VsChannelAvg` takes the rate as a number. With a channel average of 0 the card renders the number 0 as the text "0" where the comparison row would be (components/metrics/subscriber-conversion.tsx:149). The model gives `None` there and does not model that text.
- The subscriber card's projected-subscribers line (components/metrics/subscriber-conversion.tsx:282) is not modelled.
- `getTimeAgo` is used by `components/video-card.tsx`. That file is not part of this model.
- ViewVelocity.AgeMultiplier: its own contract states only that the multiplier lies in (0, 1]. The exact values are stated through `VelocityBoundsByAge` and `GetVelocityCategory`.
- Utils.FormatNumber: its own contract states only that the text is non-empty. The tiers are stated by `Utils.FormatNumberTiers`, `Utils.FormatNumberBelowMillion` and `Utils.FormatNumberUnparsable`.
- RetentionRate.Drops: its own contract bounds only its length. `DropsSound` and `DropsComplete` characterise its contents.

## Findings

| source | as written | input that shows it | evidently intended | confidence | as-written member | corrected member |
|---|---|---|---|---|---|---|
| lib/utils.ts:43-44 | once four weeks have passed, the label counts whole 30-day months, so from 28 to 29 days it is "0mo ago" | any age from 28 days up to 30 days, for instance exactly 28 days | a label that never shows a zero count: at least "1mo ago" once the weeks tier is passed | not executed; the input follows from the floor divisions | Utils.GetTimeAgoZeroMonths | Utils.GetTimeAgoCorrectedPositive |
