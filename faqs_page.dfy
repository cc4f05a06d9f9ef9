/**
  `components/pages/faqs-page.tsx`: the FAQ list with a category filter and
  expandable answers. The page state is the selected category and
  `openItems`, the indices (into the filtered list) of the expanded items.
  Question and answer texts are not part of the model; only the category
  column of the shipped list is.
 */
module FaqsPage {
  import opened Seqs

  datatype Faq = Faq(question: string, answer: string, category: string)

  /** The categories of the shipped `faqs` array, in array order. */
  const FaqCategories: seq<string> := [
    "General", "General",
    "Features", "Features", "Features", "Features",
    "Technical", "Technical",
    "Usage", "Usage",
    "Technical",
    "Features"
  ]

  function CategoriesOf(faqs: seq<Faq>): (cs: seq<string>)
    ensures |cs| == |faqs| && forall i :: 0 <= i < |faqs| ==> cs[i] == faqs[i].category
  {
    seq(|faqs|, i requires 0 <= i < |faqs| => faqs[i].category)
  }

  /**
    `["All", ...Array.from(new Set(faqs.map(faq => faq.category)))]`: a
    `Set` iterates in first-insertion order.
   */
  function Categories(faqs: seq<Faq>): (cs: seq<string>)
  {
    ["All"] + Dedup(CategoriesOf(faqs))
  }

  /**
    The buttons: "All" first, then each category of the list exactly once,
    and nothing else.
   */
  lemma CategoriesShape(faqs: seq<Faq>)
    ensures Categories(faqs)[0] == "All"
    ensures forall i :: 0 <= i < |faqs| ==> faqs[i].category in Categories(faqs)[1..]
    ensures forall c :: c in Categories(faqs)[1..] ==> exists i :: 0 <= i < |faqs| && faqs[i].category == c
    ensures NoDup(Categories(faqs)[1..])
  {
    var cs := CategoriesOf(faqs);
    assert Categories(faqs)[1..] == Dedup(cs);
    forall i | 0 <= i < |faqs| ensures faqs[i].category in Dedup(cs) {
      assert cs[i] in Dedup(cs);
    }
    forall c | c in Dedup(cs) ensures exists i :: 0 <= i < |faqs| && faqs[i].category == c {
      var i :| 0 <= i < |cs| && cs[i] == c;
    }
  }

  /** For the shipped list the buttons read All, General, Features, Technical, Usage. */
  lemma ShippedCategories(faqs: seq<Faq>)
    requires CategoriesOf(faqs) == FaqCategories
    ensures Categories(faqs) == ["All", "General", "Features", "Technical", "Usage"]
  {
    var g, f, t, u := "General", "Features", "Technical", "Usage";
    assert g[0] != f[0] && g[0] != t[0] && g[0] != u[0] && f[0] != t[0] && f[0] != u[0] && t[0] != u[0];
    FirstAppearances(faqs, g, f, t, u);
  }

  /** The buttons for the shipped pattern of categories, over any four distinct names. */
  lemma FirstAppearances(faqs: seq<Faq>, a: string, b: string, c: string, d: string)
    requires a != b && a != c && a != d && b != c && b != d && c != d
    requires CategoriesOf(faqs) == [a, a, b, b, b, b, c, c, d, d, c, b]
    ensures Categories(faqs) == ["All", a, b, c, d]
  {
    DedupPattern(a, b, c, d);
  }

  /** Dedup over the shipped pattern, stepped one element at a time. */
  lemma DedupPattern<T>(a: T, b: T, c: T, d: T)
    requires a != b && a != c && a != d && b != c && b != d && c != d
    ensures Dedup([a, a, b, b, b, b, c, c, d, d, c, b]) == [a, b, c, d]
  {
    var s := [a, a, b, b, b, b, c, c, d, d, c, b];
    Appearances12(s, a, b, c, d);
    assert s[..12] == s;
  }

  lemma Appearances3<T>(s: seq<T>, a: T, b: T, c: T, d: T)
    requires a != b && a != c && a != d && b != c && b != d && c != d
    requires s == [a, a, b, b, b, b, c, c, d, d, c, b]
    ensures Dedup(s[..3]) == [a, b]
  {
    assert s[..0] == [];
    DedupGrow(s, 0, [], a, [a]);
    DedupKeep(s, 1, [a]);
    DedupGrow(s, 2, [a], b, [a, b]);
  }

  lemma Appearances6<T>(s: seq<T>, a: T, b: T, c: T, d: T)
    requires a != b && a != c && a != d && b != c && b != d && c != d
    requires s == [a, a, b, b, b, b, c, c, d, d, c, b]
    ensures Dedup(s[..6]) == [a, b]
  {
    Appearances3(s, a, b, c, d);
    DedupKeep(s, 3, [a, b]);
    DedupKeep(s, 4, [a, b]);
    DedupKeep(s, 5, [a, b]);
  }

  lemma Appearances9<T>(s: seq<T>, a: T, b: T, c: T, d: T)
    requires a != b && a != c && a != d && b != c && b != d && c != d
    requires s == [a, a, b, b, b, b, c, c, d, d, c, b]
    ensures Dedup(s[..9]) == [a, b, c, d]
  {
    Appearances6(s, a, b, c, d);
    DedupGrow(s, 6, [a, b], c, [a, b, c]);
    DedupKeep(s, 7, [a, b, c]);
    DedupGrow(s, 8, [a, b, c], d, [a, b, c, d]);
  }

  lemma Appearances12<T>(s: seq<T>, a: T, b: T, c: T, d: T)
    requires a != b && a != c && a != d && b != c && b != d && c != d
    requires s == [a, a, b, b, b, b, c, c, d, d, c, b]
    ensures Dedup(s[..12]) == [a, b, c, d]
  {
    Appearances9(s, a, b, c, d);
    DedupKeep(s, 9, [a, b, c, d]);
    DedupKeep(s, 10, [a, b, c, d]);
    DedupKeep(s, 11, [a, b, c, d]);
  }

  function HasCategory(selected: string): Faq -> bool
  {
    (faq: Faq) => faq.category == selected
  }

  /** `filteredFAQs`: every FAQ under "All", otherwise the FAQs of the selected category. */
  function FilteredFaqs(faqs: seq<Faq>, selected: string): (r: seq<Faq>)
    ensures selected == "All" ==> r == faqs
    ensures selected != "All" ==> forall i :: 0 <= i < |r| ==> r[i] in faqs && r[i].category == selected
    ensures selected != "All" ==> forall i :: 0 <= i < |faqs| && faqs[i].category == selected ==> faqs[i] in r
  {
    if selected == "All" then faqs
    else
      FilterMembers(faqs, HasCategory(selected));
      Filter(faqs, HasCategory(selected))
  }

  /**
    A category filter keeps exactly the FAQs of that category, each as
    often as the list holds it, in list order: a FAQ added at the end
    shows at the end or not at all.
   */
  lemma FilteredFaqsExact(faqs: seq<Faq>, selected: string, faq: Faq)
    requires selected != "All"
    ensures multiset(FilteredFaqs(faqs, selected))[faq] ==
      if faq.category == selected then multiset(faqs)[faq] else 0
    ensures FilteredFaqs(faqs + [faq], selected) ==
      FilteredFaqs(faqs, selected) + if faq.category == selected then [faq] else []
  {
    FilterCount(faqs, HasCategory(selected), faq);
    FilterSnoc(faqs, faq, HasCategory(selected));
  }

  /** Filtering the filtered list again by the same button changes nothing. */
  lemma FilteredFaqsIdempotent(faqs: seq<Faq>, selected: string)
    ensures FilteredFaqs(FilteredFaqs(faqs, selected), selected) == FilteredFaqs(faqs, selected)
  {
    if selected != "All" {
      var r := FilteredFaqs(faqs, selected);
      FilterAll(r, HasCategory(selected));
    }
  }

  /** `openItems.includes(index)`: the answer at this position of the filtered list is shown. */
  predicate IsOpen(openItems: seq<int>, index: int)
  {
    index in openItems
  }

  /**
    `toggleItem`: a present index is removed (every copy of it), an absent
    one is appended; only that index changes state.
   */
  function ToggleItem(prev: seq<int>, index: int): (r: seq<int>)
    ensures IsOpen(r, index) <==> !IsOpen(prev, index)
    ensures forall j :: j != index ==> (IsOpen(r, j) <==> IsOpen(prev, j))
  {
    if index in prev then
      FilterMembers(prev, (i: int) => i != index);
      Filter(prev, (i: int) => i != index)
    else prev + [index]
  }

  /** Opening an item and closing it again gives back the very same list. */
  lemma ToggleTwice(prev: seq<int>, index: int)
    requires index !in prev
    ensures ToggleItem(ToggleItem(prev, index), index) == prev
  {
    var p := (i: int) => i != index;
    FilterSnoc(prev, index, p);
    FilterAll(prev, p);
  }

  /** Toggling twice restores which items are open, whatever the list held. */
  lemma ToggleTwiceOpen(prev: seq<int>, index: int, j: int)
    ensures IsOpen(ToggleItem(ToggleItem(prev, index), index), j) <==> IsOpen(prev, j)
  {
    var once := ToggleItem(prev, index);
    if j != index {
      assert IsOpen(once, j) <==> IsOpen(prev, j);
    }
  }

  /** A list without repeats keeps that shape under toggling. */
  lemma ToggleNoDup(prev: seq<int>, index: int)
    requires NoDup(prev)
    ensures NoDup(ToggleItem(prev, index))
  {
    if index in prev {
      FilterNoDup(prev, (i: int) => i != index);
    }
  }

  /** The page's state: the highlighted category button and the open positions. */
  datatype PageState = PageState(selectedCategory: string, openItems: seq<int>)

  const InitialPage := PageState("All", [])

  /** A category button: the filter changes, the open positions do not. */
  function SelectCategory(page: PageState, category: string): (r: PageState)
    ensures r.selectedCategory == category && r.openItems == page.openItems
  {
    page.(selectedCategory := category)
  }

  /** A question click toggles its position in the filtered list. */
  function ClickItem(page: PageState, index: int): (r: PageState)
    ensures r.selectedCategory == page.selectedCategory
    ensures IsOpen(r.openItems, index) != IsOpen(page.openItems, index)
  {
    page.(openItems := ToggleItem(page.openItems, index))
  }

}
