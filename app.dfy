/**
 * The list view (src/App.jsx): the filters and the sort applied to the list of the active tab,
 * the facet lists the filter bar offers, and the state changes of a tab switch and a search.
 */
module App {
  import opened Wrappers
  import opened Text
  import opened Records
  import opened Seqs
  import opened Sorting

  // ---------------------------------------------------------------- filters

  /** The four filter values; the empty string means "no filter". */
  datatype Filters = Filters(genre: string, status: string, service: string, search: string)

  const NO_FILTERS: Filters := Filters("", "", "", "")

  /** `item[field]?.toLowerCase().includes(want.toLowerCase())`; a missing field does not match. */
  predicate FieldContains(item: Record, field: string, want: string) {
    match TextOf(item, field)
    case Some(s) => Contains(Lower(s), Lower(want))
    case None => false
  }

  /** `item[field]?.toLowerCase() === want.toLowerCase()`; a missing field does not match. */
  predicate FieldEquals(item: Record, field: string, want: string) {
    match TextOf(item, field)
    case Some(s) => Lower(s) == Lower(want)
    case None => false
  }

  /** The filter callback of `applyFilters`: every non-empty filter value must match. */
  predicate Keep(f: Filters, item: Record) {
    && (f.genre == "" || FieldContains(item, "genre", f.genre))
    && (f.status == "" || FieldEquals(item, "status", f.status))
    && (f.service == "" || FieldEquals(item, "service", f.service))
    && (f.search == "" || FieldContains(item, "title", f.search))
  }

  /** `applyFilters`: the items that pass every filter, in their original order. */
  function ApplyFilters(items: seq<Record>, f: Filters): (r: seq<Record>)
    ensures IsSubsequence(r, items)
    ensures forall x :: x in r <==> x in items && Keep(f, x)
    ensures multiset(r) <= multiset(items)
    ensures forall x :: x in items ==> multiset(r)[x] == if Keep(f, x) then multiset(items)[x] else 0
  {
    FilterIsSubsequence(items, x => Keep(f, x));
    FilterCounts(items, x => Keep(f, x));
    Filter(items, x => Keep(f, x))
  }

  /** Every kept item meets each filter that is set, compared without regard to letter case. */
  lemma KeptMeetFilters(items: seq<Record>, f: Filters, x: Record)
    requires x in ApplyFilters(items, f)
    ensures f.genre != "" ==> TextOf(x, "genre").Some? && Contains(Lower(TextOf(x, "genre").value), Lower(f.genre))
    ensures f.status != "" ==> TextOf(x, "status").Some? && Lower(TextOf(x, "status").value) == Lower(f.status)
    ensures f.service != "" ==> TextOf(x, "service").Some? && Lower(TextOf(x, "service").value) == Lower(f.service)
    ensures f.search != "" ==> TextOf(x, "title").Some? && Contains(Lower(TextOf(x, "title").value), Lower(f.search))
  {
  }

  /** An item without the field a set filter looks at is never shown. */
  lemma MissingFieldExcluded(items: seq<Record>, f: Filters, x: Record)
    requires (f.genre != "" && "genre" !in x) || (f.status != "" && "status" !in x) ||
             (f.service != "" && "service" !in x) || (f.search != "" && "title" !in x)
    ensures x !in ApplyFilters(items, f)
  {
  }

  /** With every filter empty the list is shown as it is. */
  lemma NoFiltersIdentity(items: seq<Record>)
    ensures ApplyFilters(items, NO_FILTERS) == items
  {
    FilterAll(items, x => Keep(NO_FILTERS, x));
  }

  /** Filtering the filtered list again changes nothing. */
  lemma ApplyFiltersIdempotent(items: seq<Record>, f: Filters)
    ensures ApplyFilters(ApplyFilters(items, f), f) == ApplyFilters(items, f)
  {
    FilterIdempotent(items, x => Keep(f, x));
  }

  // ---------------------------------------------------------------- sort

  /** `parseInt(item.year || 0)`: a falsy year counts as 0; `None` is NaN. */
  function YearKey(item: Record): Option<int> {
    match Get(item, "year")
    case Str(s) => if s == "" then Some(0) else ParseInt(s)
    case Num(n) => Some(n)
    case _ => Some(0)
  }

  /** A falsy year counts as 0, and a year written out in decimal reads as that year. */
  lemma YearKeyValues(item: Record, n: int)
    ensures !Truthy(Get(item, "year")) ==> YearKey(item) == Some(0)
    ensures Get(item, "year") == Str(IntToString(n)) ==> YearKey(item) == Some(n)
  {
    if Get(item, "year") == Str(IntToString(n)) {
      ParseIntRoundTrip(n);
    }
  }

  /**
   * `parseFloat(item.rating || 0)`, with the number parsing given as `parseFloat` (`None` is NaN);
   * a falsy rating counts as 0.
   */
  function RatingKey(item: Record, parseFloat: string -> Option<real>): Option<real> {
    match Get(item, "rating")
    case Str(s) => if s == "" then Some(0.0) else parseFloat(s)
    case Num(n) => Some(n as real)
    case _ => Some(0.0)
  }

  function IntKey(k: Option<int>): Option<real> {
    match k
    case Some(n) => Some(n as real)
    case None => None
  }

  /** `x - y` as the sort sees it: a NaN operand makes the difference NaN, which counts as 0. */
  function Diff(x: Option<real>, y: Option<real>): real {
    if x.Some? && y.Some? then x.value - y.value else 0.0
  }

  /** The comparator of `applySort` for the sort mode `sort`. */
  function Compare(sort: string, parseFloat: string -> Option<real>, a: Record, b: Record): real {
    if sort == "rating" then Diff(RatingKey(b, parseFloat), RatingKey(a, parseFloat))
    else if sort == "year-desc" then Diff(IntKey(YearKey(b)), IntKey(YearKey(a)))
    else if sort == "year-asc" then Diff(IntKey(YearKey(a)), IntKey(YearKey(b)))
    else 0.0
  }

  /** `a` belongs after `b`: the comparator is positive. */
  predicate After(sort: string, parseFloat: string -> Option<real>, a: Record, b: Record) {
    Compare(sort, parseFloat, a, b) > 0.0
  }

  /** `applySort`: no sort mode keeps the list; otherwise a stable sort of a copy. */
  function ApplySort(items: seq<Record>, sort: string, parseFloat: string -> Option<real>): (r: seq<Record>)
    ensures sort == "" ==> r == items
    ensures multiset(r) == multiset(items)
  {
    if sort == "" then items
    else Sort(items, (a, b) => After(sort, parseFloat, a, b))
  }

  /** A sort mode the comparator does not know keeps the order of the list. */
  lemma UnknownSortKeepsOrder(items: seq<Record>, sort: string, parseFloat: string -> Option<real>)
    requires sort != "rating" && sort != "year-desc" && sort != "year-asc"
    ensures ApplySort(items, sort, parseFloat) == items
  {
    if sort != "" {
      SortIdentity(items, (a, b) => After(sort, parseFloat, a, b));
    }
  }

  /** Every year of `items` is empty or reads as a number. */
  predicate YearsKnown(items: seq<Record>) {
    forall x :: x in items ==> YearKey(x).Some?
  }

  /** With every year known, the year comparators are consistent on the list. */
  lemma YearCompareConsistent(items: seq<Record>, sort: string, parseFloat: string -> Option<real>)
    requires sort == "year-asc" || sort == "year-desc"
    requires YearsKnown(items)
    ensures Consistent(multiset(items), (a, b) => After(sort, parseFloat, a, b))
  {
  }

  /** Two known years the ascending comparator leaves in place are in ascending order. */
  lemma YearAscPair(a: Record, b: Record, parseFloat: string -> Option<real>)
    requires YearKey(a).Some? && YearKey(b).Some? && !After("year-asc", parseFloat, a, b)
    ensures YearKey(a).value <= YearKey(b).value
  {
  }

  /** Two known years the descending comparator leaves in place are in descending order. */
  lemma YearDescPair(a: Record, b: Record, parseFloat: string -> Option<real>)
    requires YearKey(a).Some? && YearKey(b).Some? && !After("year-desc", parseFloat, a, b)
    ensures YearKey(a).value >= YearKey(b).value
  {
  }

  /** 'year-asc' with every year known gives years that never decrease. */
  lemma YearAscSorted(items: seq<Record>, parseFloat: string -> Option<real>)
    requires YearsKnown(items)
    ensures var r := ApplySort(items, "year-asc", parseFloat);
      forall i, j :: 0 <= i < j < |r| ==>
        (YearKey(r[i]).Some? && YearKey(r[j]).Some? && YearKey(r[i]).value <= YearKey(r[j]).value)
  {
    var after := (a, b) => After("year-asc", parseFloat, a, b);
    YearCompareConsistent(items, "year-asc", parseFloat);
    SortSorted(items, after);
    var r := Sort(items, after);
    assert ApplySort(items, "year-asc", parseFloat) == r;
    forall i, j | 0 <= i < j < |r|
      ensures YearKey(r[i]).Some? && YearKey(r[j]).Some? && YearKey(r[i]).value <= YearKey(r[j]).value
    {
      assert r[i] in multiset(items) && r[j] in multiset(items);
      YearAscPair(r[i], r[j], parseFloat);
    }
  }

  /** 'year-desc' with every year known gives years that never increase. */
  lemma YearDescSorted(items: seq<Record>, parseFloat: string -> Option<real>)
    requires YearsKnown(items)
    ensures var r := ApplySort(items, "year-desc", parseFloat);
      forall i, j :: 0 <= i < j < |r| ==>
        (YearKey(r[i]).Some? && YearKey(r[j]).Some? && YearKey(r[i]).value >= YearKey(r[j]).value)
  {
    var after := (a, b) => After("year-desc", parseFloat, a, b);
    YearCompareConsistent(items, "year-desc", parseFloat);
    SortSorted(items, after);
    var r := Sort(items, after);
    assert ApplySort(items, "year-desc", parseFloat) == r;
    forall i, j | 0 <= i < j < |r|
      ensures YearKey(r[i]).Some? && YearKey(r[j]).Some? && YearKey(r[i]).value >= YearKey(r[j]).value
    {
      assert r[i] in multiset(items) && r[j] in multiset(items);
      YearDescPair(r[i], r[j], parseFloat);
    }
  }

  /** Every rating of `items` is empty or reads as a number. */
  predicate RatingsKnown(items: seq<Record>, parseFloat: string -> Option<real>) {
    forall x :: x in items ==> RatingKey(x, parseFloat).Some?
  }

  /** With every rating known, the rating comparator is consistent on the list. */
  lemma RatingCompareConsistent(items: seq<Record>, parseFloat: string -> Option<real>)
    requires RatingsKnown(items, parseFloat)
    ensures Consistent(multiset(items), (a, b) => After("rating", parseFloat, a, b))
  {
  }

  /** Two known ratings the rating comparator leaves in place are in descending order. */
  lemma RatingPair(a: Record, b: Record, parseFloat: string -> Option<real>)
    requires RatingKey(a, parseFloat).Some? && RatingKey(b, parseFloat).Some? && !After("rating", parseFloat, a, b)
    ensures RatingKey(a, parseFloat).value >= RatingKey(b, parseFloat).value
  {
  }

  /** 'rating' with every rating known gives ratings that never increase. */
  lemma RatingSorted(items: seq<Record>, parseFloat: string -> Option<real>)
    requires RatingsKnown(items, parseFloat)
    ensures var r := ApplySort(items, "rating", parseFloat);
      forall i, j :: 0 <= i < j < |r| ==>
        (RatingKey(r[i], parseFloat).Some? && RatingKey(r[j], parseFloat).Some? &&
         RatingKey(r[i], parseFloat).value >= RatingKey(r[j], parseFloat).value)
  {
    var after := (a, b) => After("rating", parseFloat, a, b);
    RatingCompareConsistent(items, parseFloat);
    SortSorted(items, after);
    var r := Sort(items, after);
    assert ApplySort(items, "rating", parseFloat) == r;
    forall i, j | 0 <= i < j < |r|
      ensures RatingKey(r[i], parseFloat).Some? && RatingKey(r[j], parseFloat).Some? &&
              RatingKey(r[i], parseFloat).value >= RatingKey(r[j], parseFloat).value
    {
      assert r[i] in multiset(items) && r[j] in multiset(items);
      RatingPair(r[i], r[j], parseFloat);
    }
  }

  /**
   * Titles of one year keep their list order under either year sort. With every year readable the
   * comparator is consistent, and a stable sort then keeps equal titles in order.
   */
  lemma SameYearKeepsOrder(items: seq<Record>, sort: string, parseFloat: string -> Option<real>, year: Option<int>)
    requires sort == "year-asc" || sort == "year-desc"
    requires YearsKnown(items)
    ensures Filter(ApplySort(items, sort, parseFloat), x => YearKey(x) == year) ==
      Filter(items, x => YearKey(x) == year)
  {
    var after := (a, b) => After(sort, parseFloat, a, b);
    var p := x => YearKey(x) == year;
    assert Unordered(multiset(items), p, after);
    SortStable(items, after, p);
    assert ApplySort(items, sort, parseFloat) == Sort(items, after);
  }

  /** Titles of one rating keep their list order under the rating sort, every rating readable. */
  lemma SameRatingKeepsOrder(items: seq<Record>, parseFloat: string -> Option<real>, rating: Option<real>)
    requires RatingsKnown(items, parseFloat)
    ensures Filter(ApplySort(items, "rating", parseFloat), x => RatingKey(x, parseFloat) == rating) ==
      Filter(items, x => RatingKey(x, parseFloat) == rating)
  {
    var after := (a, b) => After("rating", parseFloat, a, b);
    var p := x => RatingKey(x, parseFloat) == rating;
    assert Unordered(multiset(items), p, after);
    SortStable(items, after, p);
    assert ApplySort(items, "rating", parseFloat) == Sort(items, after);
  }

  // ---------------------------------------------------------------- facets

  /**
   * `item.genre?.split(',').map(g => g.trim()) || []`: no pieces without a genre text,
   * otherwise one piece per comma-separated part, each trimmed, in order.
   */
  function GenrePieces(item: Record): (r: seq<string>)
    ensures TextOf(item, "genre").None? ==> r == []
    ensures TextOf(item, "genre").Some? ==>
      var parts := Split(TextOf(item, "genre").value, ',');
      && |r| == |parts| == multiset(TextOf(item, "genre").value)[','] + 1
      && forall k :: 0 <= k < |r| ==> r[k] == Trim(parts[k])
  {
    match TextOf(item, "genre")
    case Some(g) => TrimmedSplit(g, ',')
    case None => []
  }

  /** `items.flatMap(GenrePieces)`. */
  function AllGenrePieces(items: seq<Record>): (r: seq<string>)
    ensures forall p :: p in r <==> exists i :: 0 <= i < |items| && p in GenrePieces(items[i])
  {
    FlatMap(items, GenrePieces)
  }

  /** The non-empty strings among the `field` values of `items`: `items.map(i => i[field]).filter(Boolean)`. */
  function FieldTexts(items: seq<Record>, field: string): (r: seq<string>)
    ensures forall t :: t in r <==> t != "" && exists i :: 0 <= i < |items| && TextOf(items[i], field) == Some(t)
  {
    if items == [] then []
    else
      var n := |items| - 1;
      var rest := FieldTexts(items[..n], field);
      assert forall i :: 0 <= i < n ==> items[..n][i] == items[i];
      match TextOf(items[n], field)
      case Some(t) => if t == "" then rest else rest + [t]
      case None => rest
  }

  /** `a` belongs after `b` under the default sort, which compares strings. */
  predicate StringAfter(a: string, b: string) {
    Less(b, a)
  }

  /** The default `sort()` of a list of strings. */
  function SortStrings(xs: seq<string>): (r: seq<string>)
    ensures multiset(r) == multiset(xs)
  {
    Sort(xs, StringAfter)
  }

  /** Distinct strings come out of the default sort in strictly increasing order. */
  lemma SortStringsIncreasing(xs: seq<string>)
    requires NoDup(xs)
    ensures var r := SortStrings(xs);
      NoDup(r) && forall i, j :: 0 <= i < j < |r| ==> Less(r[i], r[j])
  {
    forall a, b | StringAfter(a, b)
      ensures !StringAfter(b, a)
    {
      LessAsymmetric(b, a);
    }
    forall a, b, c | !StringAfter(a, b) && !StringAfter(b, c)
      ensures !StringAfter(a, c)
    {
      if StringAfter(a, c) {
        if a == b {
        } else if b == c {
        } else {
          LessTotal(a, b);
          LessTotal(b, c);
          LessTransitive(a, b, c);
          LessAsymmetric(c, a);
        }
      }
    }
    SortSorted(xs, StringAfter);
    var r := SortStrings(xs);
    NoDupPermutation(xs, r);
    forall i, j | 0 <= i < j < |r|
      ensures Less(r[i], r[j])
    {
      LessTotal(r[i], r[j]);
    }
  }

  /** The genres facet: distinct trimmed comma pieces, empty pieces dropped, sorted. */
  function Genres(items: seq<Record>): seq<string> {
    SortStrings(Filter(Distinct(AllGenrePieces(items)), g => g != ""))
  }

  /** The statuses facet: the distinct non-empty statuses, sorted. */
  function Statuses(items: seq<Record>): seq<string> {
    SortStrings(Distinct(FieldTexts(items, "status")))
  }

  /** The services facet: the distinct non-empty services, sorted. */
  function Services(items: seq<Record>): seq<string> {
    SortStrings(Distinct(FieldTexts(items, "service")))
  }

  /** The list is strictly increasing, so sorted and free of duplicates. */
  predicate Increasing(r: seq<string>) {
    forall i, j :: 0 <= i < j < |r| ==> Less(r[i], r[j])
  }

  /** A filter keeps a list without duplicates free of them. */
  lemma FilterNoDup(s: seq<string>, p: string -> bool)
    requires NoDup(s)
    ensures NoDup(Filter(s, p))
  {
    var idx := FilterEmbedding(s, p);
  }

  /**
   * The genres are strictly increasing and non-empty, and a string is one of them exactly when it
   * is a trimmed comma piece of some item's genre.
   */
  lemma GenresFacet(items: seq<Record>)
    ensures Increasing(Genres(items))
    ensures forall g :: g in Genres(items) <==> g != "" && exists i :: 0 <= i < |items| && g in GenrePieces(items[i])
  {
    var all := AllGenrePieces(items);
    GenresOf(all);
    assert Genres(items) == SortStrings(Filter(Distinct(all), g => g != ""));
  }

  /** The sorted non-empty distinct strings of `all` increase and are exactly its non-empty strings. */
  lemma GenresOf(all: seq<string>)
    ensures var r := SortStrings(Filter(Distinct(all), g => g != ""));
      Increasing(r) && forall g :: g in r <==> g != "" && g in all
  {
    var d := Filter(Distinct(all), g => g != "");
    FilterNoDup(Distinct(all), g => g != "");
    SortStringsIncreasing(d);
    var r := SortStrings(d);
    forall g
      ensures g in r <==> g in d
    {
      assert g in r <==> g in multiset(r);
    }
  }

  /** The statuses are strictly increasing, and are exactly the non-empty statuses of the items. */
  lemma StatusesFacet(items: seq<Record>)
    ensures Increasing(Statuses(items))
    ensures forall s :: s in Statuses(items) <==>
      s != "" && exists i :: 0 <= i < |items| && TextOf(items[i], "status") == Some(s)
  {
    var d := Distinct(FieldTexts(items, "status"));
    SortStringsIncreasing(d);
    forall s
      ensures s in Statuses(items) <==> s in d
    {
      assert s in Statuses(items) <==> s in multiset(Statuses(items));
    }
  }

  /** The services are strictly increasing, and are exactly the non-empty services of the items. */
  lemma ServicesFacet(items: seq<Record>)
    ensures Increasing(Services(items))
    ensures forall s :: s in Services(items) <==>
      s != "" && exists i :: 0 <= i < |items| && TextOf(items[i], "service") == Some(s)
  {
    var d := Distinct(FieldTexts(items, "service"));
    SortStringsIncreasing(d);
    forall s
      ensures s in Services(items) <==> s in d
    {
      assert s in Services(items) <==> s in multiset(Services(items));
    }
  }

  // ---------------------------------------------------------------- view state

  /** The state of the list view. */
  datatype View = View(activeTab: string, selected: Option<Record>, filters: Filters, sort: string, posterSize: string)

  const INITIAL_VIEW: View := View("movies", None, NO_FILTERS, "", "md")

  /** The list of the active tab: the movies for 'movies', the series for any other tab. */
  function TabItems(v: View, movies: seq<Record>, series: seq<Record>): seq<Record> {
    if v.activeTab == "movies" then movies else series
  }

  /** The list the grid shows: the active tab's items, filtered, then sorted. */
  function Displayed(v: View, movies: seq<Record>, series: seq<Record>, parseFloat: string -> Option<real>): (r: seq<Record>)
    ensures v.sort == "" ==> r == ApplyFilters(TabItems(v, movies, series), v.filters)
    ensures multiset(r) == multiset(ApplyFilters(TabItems(v, movies, series), v.filters))
  {
    ApplySort(ApplyFilters(TabItems(v, movies, series), v.filters), v.sort, parseFloat)
  }

  /** `handleTabChange`: switch tab, clear every filter and the sort. */
  function TabChange(v: View, tab: string): (v': View)
    ensures v'.activeTab == tab && v'.filters == NO_FILTERS && v'.sort == ""
    ensures v'.selected == v.selected && v'.posterSize == v.posterSize
  {
    v.(activeTab := tab, filters := NO_FILTERS, sort := "")
  }

  /** After a tab change the grid shows the whole list of the new tab, in sheet order. */
  lemma TabChangeShowsAll(v: View, tab: string, movies: seq<Record>, series: seq<Record>,
                          parseFloat: string -> Option<real>)
    ensures Displayed(TabChange(v, tab), movies, series, parseFloat) == (if tab == "movies" then movies else series)
  {
    NoFiltersIdentity(if tab == "movies" then movies else series);
  }

  /** The header's search box: only the search filter changes. */
  function SetSearch(v: View, search: string): (v': View)
    ensures v'.filters == v.filters.(search := search)
    ensures v'.activeTab == v.activeTab && v'.sort == v.sort && v'.selected == v.selected
    ensures v'.posterSize == v.posterSize
  {
    v.(filters := v.filters.(search := search))
  }

  /**
   * The correction callback of the detail view: `prev => ({ ...prev, ...newData })`. The new
   * fields win, the other fields of the selected item stay; spreading `null` adds nothing, so
   * with no item selected the new fields alone become the selection.
   */
  function Corrected(v: View, newData: Record): (v': View)
    ensures v'.selected.Some?
    ensures forall k :: k in newData ==> k in v'.selected.value && v'.selected.value[k] == newData[k]
    ensures v.selected.Some? ==> forall k :: k in v.selected.value && k !in newData ==>
      k in v'.selected.value && v'.selected.value[k] == v.selected.value[k]
    ensures v'.selected.value.Keys == newData.Keys + (if v.selected.Some? then v.selected.value.Keys else {})
    ensures v'.activeTab == v.activeTab && v'.filters == v.filters && v'.sort == v.sort
    ensures v'.posterSize == v.posterSize
  {
    match v.selected
    case Some(item) => v.(selected := Some(item + newData))
    case None => v.(selected := Some(map[] + newData))
  }
}
