/**
 * The page controller: the filter over the loaded entries, the sorted view of
 * the filtered entries, the category options, and the handlers that update the
 * page's state.
 */
module Page {
  import opened Optional
  import opened Sequences
  import opened Text
  import opened Career
  import Card

  // ---------------------------------------------------------------- filtering

  /** The text search: the lower-cased query occurs in the lower-cased name, location or category. */
  predicate MatchesQuery(a: Attraction, q: string)
    ensures q == "" ==> MatchesQuery(a, q)
    ensures q == ToLower(a.name) ==> MatchesQuery(a, q)
  {
    Includes(ToLower(a.name), q) || Includes(ToLower(a.location), q) || Includes(ToLower(a.category), q)
  }

  /** The rule an entry must meet to be shown, stated in one place. */
  predicate Kept(a: Attraction, f: FilterState)
    ensures f.query == "" && f.category == AllCategories ==> Kept(a, f)
    ensures Kept(a, f) && f.category != AllCategories ==> a.category == f.category
    ensures f.category != AllCategories && a.category != f.category ==> !Kept(a, f)
  {
    (f.query == "" || MatchesQuery(a, ToLower(f.query))) &&
    (f.category == AllCategories || a.category == f.category)
  }

  /**
   * The filtering effect: the text filter runs only for a non-empty query, then
   * the category filter runs only when the selector is not "all".
   */
  function FilterEntries(attractions: seq<Attraction>, f: FilterState): (r: seq<Attraction>)
    ensures |r| <= |attractions|
  {
    var afterQuery :=
      if f.query != "" then Select(attractions, (a: Attraction) => MatchesQuery(a, ToLower(f.query)))
      else attractions;
    if f.category != AllCategories then Select(afterQuery, (a: Attraction) => a.category == f.category)
    else afterQuery
  }

  /** The two filters in sequence are one pass with the combined rule. */
  lemma FilterIsSinglePass(attractions: seq<Attraction>, f: FilterState)
    ensures FilterEntries(attractions, f) == Select(attractions, (a: Attraction) => Kept(a, f))
  {
    var q := ToLower(f.query);
    var text := (a: Attraction) => MatchesQuery(a, q);
    var cat := (a: Attraction) => a.category == f.category;
    var kept := (a: Attraction) => Kept(a, f);
    if f.query != "" && f.category != AllCategories {
      SelectFusion(attractions, text, cat, kept);
    } else if f.query != "" {
      SelectCongruent(attractions, text, kept);
    } else if f.category != AllCategories {
      SelectCongruent(attractions, cat, kept);
    } else {
      SelectKeepsAll(attractions, kept);
    }
  }

  lemma {:induction false} SelectCongruent<T>(s: seq<T>, p: T -> bool, q: T -> bool)
    requires forall x :: p(x) == q(x)
    ensures Select(s, p) == Select(s, q)
  {
    if s != [] {
      SelectCongruent(s[1..], p, q);
    }
  }

  /** An entry is shown iff it is loaded and meets both conditions. */
  lemma FilterKeepsExactly(attractions: seq<Attraction>, f: FilterState, a: Attraction)
    ensures a in FilterEntries(attractions, f) <==> a in attractions && Kept(a, f)
  {
    FilterIsSinglePass(attractions, f);
    var r := Select(attractions, (x: Attraction) => Kept(x, f));
    if a in r {
      var i :| 0 <= i < |r| && r[i] == a;
    }
    if a in attractions && Kept(a, f) {
      var i :| 0 <= i < |attractions| && attractions[i] == a;
    }
  }

  /** The shown entries keep the loaded order. */
  lemma FilterIsSubsequence(attractions: seq<Attraction>, f: FilterState)
    ensures IsSubsequence(FilterEntries(attractions, f), attractions)
  {
    FilterIsSinglePass(attractions, f);
    SelectIsSubsequence(attractions, (a: Attraction) => Kept(a, f));
  }

  /** Filtering the filtered list again with the same settings changes nothing. */
  lemma FilterIdempotent(attractions: seq<Attraction>, f: FilterState)
    ensures FilterEntries(FilterEntries(attractions, f), f) == FilterEntries(attractions, f)
  {
    FilterIsSinglePass(attractions, f);
    FilterIsSinglePass(FilterEntries(attractions, f), f);
    SelectIdempotent(attractions, (a: Attraction) => Kept(a, f));
  }

  /** An empty query with the "all" selector shows every loaded entry. */
  lemma EmptyFilterShowsAll(attractions: seq<Attraction>, f: FilterState)
    requires f.query == "" && f.category == AllCategories
    ensures FilterEntries(attractions, f) == attractions
  {
  }

  // ---------------------------------------------------------------- sorting

  /**
   * `x` may stand before `y` in the sorted view: a comparator result of at most
   * zero. Chronological compares start dates, later first; ByName compares names.
   */
  predicate Precedes(option: SortOption, x: Attraction, y: Attraction)
    ensures x == y ==> Precedes(option, x, y)
    ensures option == Chronological ==> (Precedes(option, x, y) <==> y.startDate <= x.startDate)
  {
    match option
    case Chronological => x.startDate >= y.startDate
    case ByName => LexLe(x.name, y.name)
  }

  lemma PrecedesTotal(option: SortOption, x: Attraction, y: Attraction)
    ensures Precedes(option, x, y) || Precedes(option, y, x)
  {
    if option == ByName {
      LexLeTotal(x.name, y.name);
    }
  }

  lemma PrecedesTransitive(option: SortOption, x: Attraction, y: Attraction, z: Attraction)
    requires Precedes(option, x, y) && Precedes(option, y, z)
    ensures Precedes(option, x, z)
  {
    if option == ByName {
      LexLeTransitive(x.name, y.name, z.name);
    }
  }

  predicate SortedBy(option: SortOption, s: seq<Attraction>) {
    forall i, j :: 0 <= i < j < |s| ==> Precedes(option, s[i], s[j])
  }

  /** `copy.sort(comparator)`: an insertion sort, in place. */
  method SortInPlace(a: array<Attraction>, option: SortOption)
    modifies a
    ensures SortedBy(option, a[..])
    ensures multiset(a[..]) == multiset(old(a[..]))
    ensures SortedBy(option, old(a[..])) ==> a[..] == old(a[..])
  {
    ghost var inOrder := SortedBy(option, a[..]);
    var i := 0;
    while i < a.Length
      invariant 0 <= i <= a.Length
      invariant forall k, m :: 0 <= k < m < i ==> Precedes(option, a[k], a[m])
      invariant multiset(a[..]) == multiset(old(a[..]))
      invariant inOrder ==> a[..] == old(a[..])
    {
      if inOrder && 0 < i {
        assert Precedes(option, old(a[..])[i - 1], old(a[..])[i]);
      }
      InsertIntoSortedPrefix(a, option, i);
      i := i + 1;
    }
  }

  /**
   * One round of the insertion sort: moves `a[i]` left by adjacent swaps
   * until the prefix `a[..i + 1]` is sorted. An element already in place
   * is not moved.
   */
  method InsertIntoSortedPrefix(a: array<Attraction>, option: SortOption, i: nat)
    requires i < a.Length
    requires forall k, m :: 0 <= k < m < i ==> Precedes(option, a[k], a[m])
    modifies a
    ensures forall k, m :: 0 <= k < m <= i ==> Precedes(option, a[k], a[m])
    ensures multiset(a[..]) == multiset(old(a[..]))
    ensures multiset(a[..i + 1]) == multiset(old(a[..i + 1]))
    ensures a[i + 1..] == old(a[i + 1..])
    ensures (i == 0 || Precedes(option, old(a[i - 1]), old(a[i]))) ==> a[..] == old(a[..])
  {
    var j := i;
    if 0 < i && !Precedes(option, a[i - 1], a[i]) {
      j := SinkLeft(a, option, i);
    }
    InsertionStopsSorted(option, a[..], i, j);
    SamePrefixMultiset(old(a[..]), a[..], i + 1);
  }

  /**
   * The swaps of one round: carries `a[i]` left past every entry of the
   * sorted prefix that should come after it, and touches nothing past `i`.
   */
  method SinkLeft(a: array<Attraction>, option: SortOption, i: nat) returns (j: nat)
    requires i < a.Length
    requires forall k, m :: 0 <= k < m < i ==> Precedes(option, a[k], a[m])
    modifies a
    ensures j <= i
    ensures forall k, m :: 0 <= k < m <= i && k != j && m != j ==> Precedes(option, a[k], a[m])
    ensures forall m :: j < m <= i ==> Precedes(option, a[j], a[m])
    ensures j == 0 || Precedes(option, a[j - 1], a[j])
    ensures multiset(a[..]) == multiset(old(a[..]))
    ensures a[i + 1..] == old(a[i + 1..])
  {
    j := i;
    while 0 < j && !Precedes(option, a[j - 1], a[j])
      invariant 0 <= j <= i
      invariant forall k, m :: 0 <= k < m <= i && k != j && m != j ==> Precedes(option, a[k], a[m])
      invariant forall m :: j < m <= i ==> Precedes(option, a[j], a[m])
      invariant multiset(a[..]) == multiset(old(a[..]))
      invariant forall m :: i < m < a.Length ==> a[m] == old(a[m])
    {
      PrecedesTotal(option, a[j - 1], a[j]);
      Swap(a, j - 1, j);
      j := j - 1;
    }
  }

  /** Exchanges two neighbouring entries and leaves the rest of the array alone. */
  method Swap(a: array<Attraction>, p: nat, q: nat)
    requires p < q < a.Length
    modifies a
    ensures a[p] == old(a[q]) && a[q] == old(a[p])
    ensures forall m :: 0 <= m < a.Length && m != p && m != q ==> a[m] == old(a[m])
    ensures multiset(a[..]) == multiset(old(a[..]))
  {
    a[p], a[q] := a[q], a[p];
  }

  /** Where the insertion stops, the whole prefix up to `i` is sorted. */
  lemma InsertionStopsSorted(option: SortOption, s: seq<Attraction>, i: nat, j: nat)
    requires j <= i < |s|
    requires forall k, m :: 0 <= k < m <= i && k != j && m != j ==> Precedes(option, s[k], s[m])
    requires forall m :: j < m <= i ==> Precedes(option, s[j], s[m])
    requires j == 0 || Precedes(option, s[j - 1], s[j])
    ensures forall k, m :: 0 <= k < m <= i ==> Precedes(option, s[k], s[m])
  {
    forall k | 0 <= k < j
      ensures Precedes(option, s[k], s[j])
    {
      if k < j - 1 {
        PrecedesTransitive(option, s[k], s[j - 1], s[j]);
      }
    }
  }

  /**
   * The `sorted` memo: spread the filtered entries into a fresh copy and sort
   * the copy, so the filtered list itself is left as it was.
   */
  method SortedView(filtered: seq<Attraction>, option: SortOption) returns (sorted: seq<Attraction>)
    ensures |sorted| == |filtered|
    ensures multiset(sorted) == multiset(filtered)
    ensures SortedBy(option, sorted)
    ensures SortedBy(option, filtered) ==> sorted == filtered
  {
    var copy := new Attraction[|filtered|](i requires 0 <= i < |filtered| => filtered[i]);
    assert copy[..] == filtered;
    SortInPlace(copy, option);
    sorted := copy[..];
    assert |multiset(sorted)| == |multiset(filtered)|;
  }

  // ---------------------------------------------------------------- categories

  function CategoryColumn(attractions: seq<Attraction>): (cs: seq<string>)
    ensures |cs| == |attractions|
    ensures forall i :: 0 <= i < |cs| ==> cs[i] == attractions[i].category
  {
    seq(|attractions|, i requires 0 <= i < |attractions| => attractions[i].category)
  }

  /** The category options: "all", then each category of the loaded entries once, first seen first. */
  function Categories(attractions: seq<Attraction>): (r: seq<string>)
    ensures |r| >= 1 && r[0] == AllCategories
    ensures forall a :: a in attractions ==> a.category in r
    ensures forall i :: 1 <= i < |r| ==> exists a :: a in attractions && a.category == r[i]
  {
    var cs := CategoryColumn(attractions);
    var d := Distinct(cs);
    assert forall a :: a in attractions ==> a.category in cs;
    forall i | 0 <= i < |d|
      ensures exists a :: a in attractions && a.category == d[i]
    {
      var k :| 0 <= k < |cs| && cs[k] == d[i];
      assert attractions[k] in attractions;
    }
    [AllCategories] + d
  }

  /** When no entry's category is literally "all", the sentinel appears only in front and every category appears once. */
  lemma CategoriesAreDistinct(attractions: seq<Attraction>)
    requires forall a :: a in attractions ==> a.category != AllCategories
    ensures NoDuplicates(Categories(attractions))
  {
    var cs := CategoryColumn(attractions);
    var d := Distinct(cs);
    assert Categories(attractions) == [AllCategories] + d;
    forall i | 0 <= i < |d|
      ensures d[i] != AllCategories
    {
      var k :| 0 <= k < |cs| && cs[k] == d[i];
      assert attractions[k] in attractions;
    }
  }

  /** The categories after "all" keep the order in which they are first seen in the loaded entries. */
  lemma CategoriesInFirstSeenOrder(attractions: seq<Attraction>, i: int, j: int)
    requires 1 <= i < j < |Categories(attractions)|
    ensures Categories(attractions)[i] in CategoryColumn(attractions)
    ensures Categories(attractions)[j] in CategoryColumn(attractions)
    ensures FirstIndex(CategoryColumn(attractions), Categories(attractions)[i]) <
            FirstIndex(CategoryColumn(attractions), Categories(attractions)[j])
  {
    var cs := CategoryColumn(attractions);
    var d := Distinct(cs);
    var r := Categories(attractions);
    assert r == [AllCategories] + d;
    assert r[i] == d[i - 1] && r[j] == d[j - 1];
    DistinctFirstSeenOrder(cs);
  }

  // ---------------------------------------------------------------- page state

  /** The state the page holds once the entries are loaded. */
  datatype PageState = PageState(
    attractions: seq<Attraction>,
    filters: FilterState,
    sortOption: SortOption,
    focused: Option<Attraction>)

  /** The state right after a successful load: empty query, "all", chronological, nothing focused. */
  function Loaded(attractions: seq<Attraction>): (p: PageState)
    ensures p.attractions == attractions
    ensures p.filters.query == "" && p.filters.minRating == 0.0
    ensures p.filters.category == AllCategories && p.filters.skillFilter == None
    ensures p.sortOption == Chronological && p.focused == None
    ensures Filtered(p) == attractions
  {
    PageState(attractions, FilterState("", 0.0, AllCategories, None), Chronological, None)
  }

  /** The `filtered` state the filtering effect derives. */
  function Filtered(p: PageState): seq<Attraction> {
    FilterEntries(p.attractions, p.filters)
  }

  /** `handleSearch`: replaces the query and nothing else. */
  function HandleSearch(p: PageState, value: string): (next: PageState)
    ensures next.filters.query == value
    ensures next.filters.minRating == p.filters.minRating
    ensures next.filters.category == p.filters.category
    ensures next.filters.skillFilter == p.filters.skillFilter
    ensures next.attractions == p.attractions && next.sortOption == p.sortOption
    ensures next.focused == p.focused
  {
    p.(filters := p.filters.(query := value))
  }

  /** `handleCategoryFilter`: replaces the category selector and nothing else. */
  function HandleCategoryFilter(p: PageState, value: string): (next: PageState)
    ensures next.filters.category == value
    ensures next.filters.minRating == p.filters.minRating
    ensures next.filters.query == p.filters.query
    ensures next.filters.skillFilter == p.filters.skillFilter
    ensures next.attractions == p.attractions && next.sortOption == p.sortOption
    ensures next.focused == p.focused
  {
    p.(filters := p.filters.(category := value))
  }

  /** `handleSortChange`: replaces the sort option; the filtered list is unaffected. */
  function HandleSortChange(p: PageState, value: SortOption): (next: PageState)
    ensures next.sortOption == value
    ensures next.attractions == p.attractions && next.filters == p.filters && next.focused == p.focused
    ensures Filtered(next) == Filtered(p)
  {
    p.(sortOption := value)
  }

  /** `focusAttraction`: records the focused entry; the filtered list is unaffected. */
  function FocusAttraction(p: PageState, a: Attraction): (next: PageState)
    ensures next.focused == Some(a)
    ensures next.attractions == p.attractions && next.filters == p.filters && next.sortOption == p.sortOption
    ensures Filtered(next) == Filtered(p)
  {
    p.(focused := Some(a))
  }

  /** The two filter handlers touch different fields, so their order does not matter. */
  lemma HandlersCommute(p: PageState, query: string, category: string)
    ensures HandleCategoryFilter(HandleSearch(p, query), category) ==
            HandleSearch(HandleCategoryFilter(p, category), query)
  {
  }

  /** Choosing a concrete category narrows the view to loaded entries of that category. */
  lemma CategorySelectionNarrows(p: PageState, category: string)
    requires category != AllCategories
    ensures forall a :: a in Filtered(HandleCategoryFilter(p, category)) ==>
      a.category == category && a in p.attractions
  {
    forall a | a in Filtered(HandleCategoryFilter(p, category))
      ensures a.category == category && a in p.attractions
    {
      FilterKeepsExactly(p.attractions, HandleCategoryFilter(p, category).filters, a);
    }
  }

  /** Clearing the query and choosing "all" shows every loaded entry again. */
  lemma ClearingFiltersShowsAll(p: PageState)
    ensures Filtered(HandleCategoryFilter(HandleSearch(p, ""), AllCategories)) == p.attractions
  {
  }

  /** The props the list passes to each card: every entry's card has a company, a duration and its achievements. */
  function CardFor(a: Attraction): (props: Card.CardProps)
    ensures props.title == a.name && props.image == a.image && props.location == a.location
    ensures Card.RenderCard(props).companyLine.Some? <==> a.company != ""
    ensures Card.RenderCard(props).durationBadge.Some? <==> a.duration != ""
    ensures Card.RenderCard(props).achievements.Some? <==> |a.achievements| > 0
    ensures Card.RenderCard(props).companyLine.Some? ==> Card.RenderCard(props).companyLine.value == a.company
    ensures Card.RenderCard(props).durationBadge.Some? ==> Card.RenderCard(props).durationBadge.value == a.duration
    ensures Card.RenderCard(props).achievements.Some? ==>
      Card.RenderCard(props).achievements.value == Card.Summarise(a.achievements)
  {
    Card.CardProps(a.name, a.image, a.location, Some(a.company), Some(a.duration), Some(a.achievements))
  }

  /** The readout "Showing n of m": the sorted view never holds more than the loaded entries. */
  method CountReadout(p: PageState) returns (shown: nat, total: nat)
    ensures shown == |Filtered(p)| && total == |p.attractions|
    ensures shown <= total
  {
    var sorted := SortedView(Filtered(p), p.sortOption);
    shown, total := |sorted|, |p.attractions|;
    FilterIsSubsequence(p.attractions, p.filters);
    SubsequenceIsShorter(Filtered(p), p.attractions);
  }
}
