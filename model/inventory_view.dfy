/** The inventory view of the settings page: every report in one table that
    can be searched, filtered by type, sorted by a column in either
    direction and paged seven rows at a time, under cards that count the
    reports by type and total the revenue and the raw-material cost. */
module InventoryView {
  import opened Wrappers
  import opened Seqs
  import opened JsText
  import opened StableSort
  import opened Reports
  import opened Calendar
  import opened KeyedSums
  import opened Distinct
  import opened Paging
  import opened TableIVS

  const ItemsPerPage: nat := 7

  /** The columns whose headers sort the table. */
  const Columns: set<string> := {"name", "type", "displayDate", "mainMetric"}

  /** `sortConfig`: the column and whether the direction is 'asc'. */
  datatype SortConfig = SortConfig(key: string, asc: bool)

  const InitialSort := SortConfig("displayDate", false)

  /* ---------- sorting by a column ---------- */

  /** `handleSort`: the clicked column, ascending only when it was already
      sorted descending. */
  function NextSort(prev: SortConfig, key: string): SortConfig
  {
    SortConfig(key, prev.key == key && !prev.asc)
  }

  /** A new column starts descending, and clicking the same column again
      flips the direction back and forth. */
  lemma NextSortAlternates(prev: SortConfig, key: string)
    ensures NextSort(prev, key).key == key
    ensures prev.key != key ==> !NextSort(prev, key).asc
    ensures NextSort(NextSort(prev, key), key).asc == !NextSort(prev, key).asc
    ensures NextSort(NextSort(NextSort(prev, key), key), key) == NextSort(prev, key)
  {
  }

  /** `getSortIcon` */
  function SortIcon(config: SortConfig, column: string): (icon: string)
    ensures icon == "ArrowUpDown" <==> config.key != column
    ensures icon == "ChevronUp" <==> config.key == column && config.asc
    ensures icon == "ChevronDown" <==> config.key == column && !config.asc
  {
    if config.key != column then "ArrowUpDown"
    else if config.asc then "ChevronUp" else "ChevronDown"
  }

  /** The time the date column sorts by: `new Date(fullDateISO || displayDate)`,
      `None` for an invalid date. */
  function DateValue(r: Report): Option<int>
  {
    IsoDateKey(if r.fullDateISO.Some? then OrElse(r.fullDateISO.value, r.displayDate) else r.displayDate)
  }

  /** The amount the metric column shows and sorts by: the day's sales
      for a daily report, `mainMetricValue` for the others. */
  function MetricValue(r: Report): int
  {
    if r.kind == Daily then r.totalSales else r.mainMetric
  }

  /** `aValue < bValue` for each sortable column. */
  function NameLess(a: Report, b: Report): bool
  {
    StrLt(a.name, b.name)
  }

  function TypeLess(a: Report, b: Report): bool
  {
    StrLt(TypeName(a.kind), TypeName(b.kind))
  }

  /** A comparison with an invalid date is false both ways. */
  function DateLess(a: Report, b: Report): bool
  {
    DateValue(a).Some? && DateValue(b).Some? && DateValue(a).value < DateValue(b).value
  }

  function MetricLess(a: Report, b: Report): bool
  {
    MetricValue(a) < MetricValue(b)
  }

  function Less(key: string): (Report, Report) -> bool
    requires key in Columns
  {
    if key == "name" then NameLess
    else if key == "type" then TypeLess
    else if key == "displayDate" then DateLess
    else MetricLess
  }

  /** The comparator: -1 puts `a` first, 1 puts `b` first, 0 keeps the
      order; `before(a, b)` holds when it does not return 1. */
  function Cmp<T>(less: (T, T) -> bool, asc: bool): (T, T) -> bool
  {
    (a: T, b: T) => if less(a, b) then asc else if less(b, a) then !asc else true
  }

  /** `less` orders the elements of `s` by a key: irreflexive, transitive,
      and with ties that are transitive too. */
  ghost predicate StrictWeakOn<T>(s: seq<T>, less: (T, T) -> bool)
  {
    && (forall a :: a in s ==> !less(a, a))
    && (forall a, b, c :: a in s && b in s && c in s && less(a, b) && less(b, c) ==> less(a, c))
    && (forall a, b, c :: a in s && b in s && c in s && !less(a, b) && !less(b, c) ==> !less(a, c))
  }

  /** Such an order makes a consistent comparator in either direction. */
  lemma CmpConsistent<T>(s: seq<T>, less: (T, T) -> bool, asc: bool)
    requires StrictWeakOn(s, less)
    ensures ConsistentOn(s, Cmp(less, asc))
    ensures forall a, b :: a in s && b in s ==> Cmp(less, asc)(a, b) == if asc then !less(b, a) else !less(a, b)
  {
    var before := Cmp(less, asc);
    forall a, b | a in s && b in s && less(a, b)
      ensures !less(b, a)
    {
    }
    forall a, b | a in s && b in s
      ensures before(a, b) == if asc then !less(b, a) else !less(a, b)
    {
    }
  }

  /** Sorting with the comparator keeps the elements and leaves them
      non-decreasing ('asc') or non-increasing ('desc') in the order. */
  lemma SortedByLess<T>(s: seq<T>, less: (T, T) -> bool, asc: bool)
    requires StrictWeakOn(s, less)
    ensures var out := Sort(s, Cmp(less, asc));
      && |out| == |s| && multiset(out) == multiset(s)
      && (asc ==> forall i, j :: 0 <= i < j < |out| ==> !less(out[j], out[i]))
      && (!asc ==> forall i, j :: 0 <= i < j < |out| ==> !less(out[i], out[j]))
  {
    var before := Cmp(less, asc);
    var out := Sort(s, before);
    CmpConsistent(s, less, asc);
    SortPermutes(s, before);
    SortSorted(s, before);
    forall i, j | 0 <= i < j < |out|
      ensures if asc then !less(out[j], out[i]) else !less(out[i], out[j])
    {
      assert before(out[i], out[j]);
      assert out[i] in multiset(s) && out[j] in multiset(s);
    }
  }

  lemma StrLtAsymmetric(a: string, b: string)
    requires StrLt(a, b)
    ensures !StrLt(b, a)
  {
    if StrLt(b, a) {
      StrLtTransitive(a, b, a);
      StrLtIrreflexive(a);
    }
  }

  /** Not being after is transitive in string order. */
  lemma StrLtNegTransitive(a: string, b: string, c: string)
    requires !StrLt(a, b) && !StrLt(b, c)
    ensures !StrLt(a, c)
  {
    if a != b && b != c {
      StrLtTotal(a, b);
      StrLtTotal(b, c);
      StrLtTransitive(c, b, a);
      StrLtAsymmetric(c, a);
    }
  }

  /** Ordering reports by a text key is a strict weak order. */
  lemma TextKeyStrictWeak(s: seq<Report>, key: Report -> string, less: (Report, Report) -> bool)
    requires forall a, b :: less(a, b) == StrLt(key(a), key(b))
    ensures StrictWeakOn(s, less)
  {
    forall a | a in s
      ensures !less(a, a)
    {
      StrLtIrreflexive(key(a));
    }
    forall a, b, c | a in s && b in s && c in s && less(a, b) && less(b, c)
      ensures less(a, c)
    {
      StrLtTransitive(key(a), key(b), key(c));
    }
    forall a, b, c | a in s && b in s && c in s && !less(a, b) && !less(b, c)
      ensures !less(a, c)
    {
      StrLtNegTransitive(key(a), key(b), key(c));
    }
  }

  function NameOf(r: Report): string
  {
    r.name
  }

  function TypeOf(r: Report): string
  {
    TypeName(r.kind)
  }

  /** Every column orders the reports consistently, except that the date
      column needs every report to carry a valid date. */
  lemma LessStrictWeak(s: seq<Report>, key: string)
    requires key in Columns
    requires key == "displayDate" ==> forall r :: r in s ==> DateValue(r).Some?
    ensures StrictWeakOn(s, Less(key))
  {
    if key == "name" {
      TextKeyStrictWeak(s, NameOf, NameLess);
    } else if key == "type" {
      TextKeyStrictWeak(s, TypeOf, TypeLess);
    }
  }

  /* ---------- filtering, sorting and paging ---------- */

  /** The search box: name or report number contains the term, ignoring case. */
  predicate MatchesSearch(r: Report, term: string)
  {
    Includes(Lower(r.name), Lower(term)) || Includes(Lower(r.reportNumber), Lower(term))
  }

  /** The type select: "all" or the report's own type. */
  predicate MatchesType(r: Report, typeFilter: string)
  {
    typeFilter == "all" || TypeName(r.kind) == typeFilter
  }

  function Matches(term: string, typeFilter: string): Report -> bool
  {
    (r: Report) => MatchesSearch(r, term) && MatchesType(r, typeFilter)
  }

  /** `filteredAndSortedReports` */
  function Visible(all: seq<Report>, term: string, typeFilter: string, config: SortConfig): seq<Report>
    requires config.key in Columns
  {
    Sort(Filter(all, Matches(term, typeFilter)), Cmp(Less(config.key), config.asc))
  }

  /** The table lists each report that matches the search and the type,
      as often as the data holds it, and no other. */
  lemma VisibleMembers(all: seq<Report>, term: string, typeFilter: string, config: SortConfig)
    requires config.key in Columns
    ensures var shown := Visible(all, term, typeFilter, config);
      && multiset(shown) == multiset(Filter(all, Matches(term, typeFilter)))
      && forall r :: r in shown <==> r in all && MatchesSearch(r, term) && MatchesType(r, typeFilter)
  {
    var f := Filter(all, Matches(term, typeFilter));
    SortPermutes(f, Cmp(Less(config.key), config.asc));
    forall r
      ensures r in Visible(all, term, typeFilter, config) <==> r in all && MatchesSearch(r, term) && MatchesType(r, typeFilter)
    {
      SortMember(f, Cmp(Less(config.key), config.asc), r);
      FilterMembership(all, Matches(term, typeFilter), r);
    }
  }

  /** Sorted by name or type the table is in string order, ascending or
      descending as the column's direction says. */
  lemma VisibleTextOrder(all: seq<Report>, term: string, typeFilter: string, config: SortConfig)
    requires config.key == "name" || config.key == "type"
    ensures var shown := Visible(all, term, typeFilter, config);
      var key := if config.key == "name" then NameOf else TypeOf;
      && (config.asc ==> forall i, j :: 0 <= i < j < |shown| ==> !StrLt(key(shown[j]), key(shown[i])))
      && (!config.asc ==> forall i, j :: 0 <= i < j < |shown| ==> !StrLt(key(shown[i]), key(shown[j])))
  {
    var f := Filter(all, Matches(term, typeFilter));
    LessStrictWeak(f, config.key);
    SortedByLess(f, Less(config.key), config.asc);
  }

  /** Sorted by the metric column the amounts rise ('asc') or fall ('desc'). */
  lemma VisibleMetricOrder(all: seq<Report>, term: string, typeFilter: string, asc: bool)
    ensures var shown := Visible(all, term, typeFilter, SortConfig("mainMetric", asc));
      && (asc ==> forall i, j :: 0 <= i < j < |shown| ==> MetricValue(shown[i]) <= MetricValue(shown[j]))
      && (!asc ==> forall i, j :: 0 <= i < j < |shown| ==> MetricValue(shown[i]) >= MetricValue(shown[j]))
  {
    var f := Filter(all, Matches(term, typeFilter));
    LessStrictWeak(f, "mainMetric");
    SortedByLess(f, MetricLess, asc);
  }

  /** When every report has a valid date, sorting by date puts them in time
      order, oldest first ('asc') or newest first ('desc'). */
  lemma VisibleDateOrder(all: seq<Report>, term: string, typeFilter: string, asc: bool)
    requires forall r :: r in all ==> DateValue(r).Some?
    ensures var shown := Visible(all, term, typeFilter, SortConfig("displayDate", asc));
      && (forall r :: r in shown ==> DateValue(r).Some?)
      && (asc ==> forall i, j :: 0 <= i < j < |shown| ==> DateValue(shown[i]).value <= DateValue(shown[j]).value)
      && (!asc ==> forall i, j :: 0 <= i < j < |shown| ==> DateValue(shown[i]).value >= DateValue(shown[j]).value)
  {
    var f := Filter(all, Matches(term, typeFilter));
    forall r | r in f
      ensures DateValue(r).Some?
    {
      FilterMembership(all, Matches(term, typeFilter), r);
    }
    LessStrictWeak(f, "displayDate");
    SortedByLess(f, DateLess, asc);
    var shown := Visible(all, term, typeFilter, SortConfig("displayDate", asc));
    forall r | r in shown
      ensures DateValue(r).Some?
    {
      assert r in multiset(shown);
    }
  }

  /** `Math.ceil(filteredAndSortedReports.length / 7)` */
  function TotalPages(shown: seq<Report>): nat
  {
    PageCount(|shown|, ItemsPerPage)
  }

  /* ---------- the summary cards ---------- */

  datatype InventoryStats = InventoryStats(
    total: nat, daily: int, monthly: int, material: int,
    totalRevenue: int, totalMaterialCost: int)

  function One(r: Report): int
  {
    1
  }

  /** What a report adds to `totalRevenue`. */
  function Revenue(r: Report): int
  {
    if r.kind == Daily then r.totalSales else if r.kind == Monthly then r.mainMetric else 0
  }

  function IsKind(k: Kind): Report -> bool
  {
    (r: Report) => r.kind == k
  }

  function MainMetricValue(r: Report): int
  {
    r.mainMetric
  }

  function DaySales(r: Report): int
  {
    r.totalSales
  }

  /** `reportStats`: the per-type counts kept in an object keyed by type,
      the revenue of daily and monthly reports and the cost of material
      reports. */
  function StatsOf(all: seq<Report>): InventoryStats
  {
    var byType := SumsOf(all, TypeOf, One).total;
    InventoryStats(|all|, Get(byType, "daily"), Get(byType, "monthly"), Get(byType, "material"),
                   Sum(all, Revenue), Sum(Filter(all, IsKind(Material)), MainMetricValue))
  }

  lemma {:induction false} SumOfOnes(s: seq<Report>)
    ensures Sum(s, One) == |s|
  {
    if s != [] {
      SumOfOnes(s[..|s| - 1]);
    }
  }

  /** Reports of one type: the type key selects exactly that kind. */
  lemma TypeKeyIsKind(s: seq<Report>, k: Kind)
    ensures Filter(s, KeyIs(TypeOf, TypeName(k))) == Filter(s, IsKind(k))
  {
    FilterSame(s, KeyIs(TypeOf, TypeName(k)), IsKind(k));
  }

  lemma {:induction false} FilterSame<T>(s: seq<T>, p: T -> bool, q: T -> bool)
    requires forall x :: p(x) == q(x)
    ensures Filter(s, p) == Filter(s, q)
  {
    if s != [] {
      FilterSame(s[..|s| - 1], p, q);
    }
  }

  /** A type card counts the reports of that type, 0 when there are none. */
  lemma TypeCount(all: seq<Report>, k: Kind)
    ensures Get(SumsOf(all, TypeOf, One).total, TypeName(k)) == Count(all, IsKind(k))
  {
    var t := SumsOf(all, TypeOf, One);
    SumsOfSpec(all, TypeOf, One);
    TypeKeyIsKind(all, k);
    if TypeName(k) in t.total {
      SumOfOnes(Filter(all, KeyIs(TypeOf, TypeName(k))));
    } else {
      UniqFacts(Map(all, TypeOf));
      assert forall i :: 0 <= i < |all| ==> TypeOf(all[i]) in Map(all, TypeOf);
      FilterNone(all, KeyIs(TypeOf, TypeName(k)));
    }
  }

  /** The three type cards count every report once. */
  lemma {:induction false} KindsAddUp(s: seq<Report>)
    ensures Count(s, IsKind(Daily)) + Count(s, IsKind(Monthly)) + Count(s, IsKind(Material)) == |s|
  {
    if s != [] {
      KindsAddUp(s[..|s| - 1]);
    }
  }

  /** Revenue is the daily sales plus the monthly main metric, and nothing
      of the material reports. */
  lemma {:induction false} RevenueSplit(s: seq<Report>)
    ensures Sum(s, Revenue) == Sum(Filter(s, IsKind(Daily)), DaySales) + Sum(Filter(s, IsKind(Monthly)), MainMetricValue)
  {
    if s != [] {
      var pre, x := s[..|s| - 1], s[|s| - 1];
      RevenueSplit(pre);
      assert s == pre + [x];
      FilterSumStep(pre, x, IsKind(Daily), DaySales);
      FilterSumStep(pre, x, IsKind(Monthly), MainMetricValue);
    }
  }

  /** The cards: the total is the number of reports and the type counts
      add up to it; each type count is the number of reports of that type;
      revenue sums the daily and monthly figures only and the material
      cost the material reports only. */
  lemma StatsSpec(all: seq<Report>)
    ensures var st := StatsOf(all);
      && st.total == |all|
      && st.daily == Count(all, IsKind(Daily))
      && st.monthly == Count(all, IsKind(Monthly))
      && st.material == Count(all, IsKind(Material))
      && st.daily + st.monthly + st.material == st.total
      && st.totalRevenue == Sum(Filter(all, IsKind(Daily)), DaySales) + Sum(Filter(all, IsKind(Monthly)), MainMetricValue)
  {
    TypeCount(all, Daily);
    TypeCount(all, Monthly);
    TypeCount(all, Material);
    KindsAddUp(all);
    RevenueSplit(all);
  }

  /** One report more adds one to the total and to its own type's count,
      its sales (daily) or main metric (monthly) to the revenue and, for a
      material report only, its main metric to the material cost. */
  lemma StatsAppend(all: seq<Report>, r: Report)
    ensures var before, after := StatsOf(all), StatsOf(all + [r]);
      && after.total == before.total + 1
      && after.daily == before.daily + (if r.kind == Daily then 1 else 0)
      && after.monthly == before.monthly + (if r.kind == Monthly then 1 else 0)
      && after.material == before.material + (if r.kind == Material then 1 else 0)
      && after.totalRevenue == before.totalRevenue + (if r.kind == Daily then r.totalSales else if r.kind == Monthly then r.mainMetric else 0)
      && after.totalMaterialCost == before.totalMaterialCost + (if r.kind == Material then r.mainMetric else 0)
  {
    var s := all + [r];
    assert s[..|all|] == all;
    StatsSpec(all);
    StatsSpec(s);
    FilterSumStep(all, r, IsKind(Material), MainMetricValue);
    CountStep(all, r, Daily);
    CountStep(all, r, Monthly);
    CountStep(all, r, Material);
  }

  lemma CountStep(all: seq<Report>, r: Report, k: Kind)
    ensures Count(all + [r], IsKind(k)) == Count(all, IsKind(k)) + (if r.kind == k then 1 else 0)
  {
    assert (all + [r])[..|all|] == all;
  }

  /* ---------- the component's state ---------- */

  /** The view's state: the search box, the type select, the page and the
      sort column. */
  class InventoryTable {
    var searchTerm: string
    var typeFilter: string
    var currentPage: int
    var sortConfig: SortConfig

    ghost predicate Valid()
      reads this
    {
      currentPage >= 1 && sortConfig.key in Columns
    }

    constructor()
      ensures Valid()
      ensures searchTerm == "" && typeFilter == "all" && currentPage == 1 && sortConfig == InitialSort
    {
      searchTerm := "";
      typeFilter := "all";
      currentPage := 1;
      sortConfig := InitialSort;
    }

    /** The rows after filtering and sorting. */
    function Shown(all: seq<Report>): seq<Report>
      reads this
      requires Valid()
    {
      Visible(all, searchTerm, typeFilter, sortConfig)
    }

    /** `currentReports`: the rows of the current page. */
    function CurrentReports(all: seq<Report>): seq<Report>
      reads this
      requires Valid()
    {
      PageOf(Shown(all), currentPage, ItemsPerPage)
    }

    /** A header click. */
    method HandleSort(key: string)
      requires Valid() && key in Columns
      modifies this
      ensures Valid()
      ensures sortConfig == NextSort(old(sortConfig), key)
      ensures searchTerm == old(searchTerm) && typeFilter == old(typeFilter) && currentPage == old(currentPage)
    {
      sortConfig := NextSort(sortConfig, key);
    }

    /** Typing in the search box; the effect on `[searchTerm, typeFilter]`
        goes back to page 1 when the term changed. */
    method SetSearchTerm(term: string)
      requires Valid()
      modifies this
      ensures Valid()
      ensures searchTerm == term && typeFilter == old(typeFilter) && sortConfig == old(sortConfig)
      ensures currentPage == if term == old(searchTerm) then old(currentPage) else 1
    {
      if term != searchTerm {
        searchTerm := term;
        currentPage := 1;
      }
    }

    /** Choosing a type; back to page 1 when it changed. */
    method SetTypeFilter(t: string)
      requires Valid()
      modifies this
      ensures Valid()
      ensures typeFilter == t && searchTerm == old(searchTerm) && sortConfig == old(sortConfig)
      ensures currentPage == if t == old(typeFilter) then old(currentPage) else 1
    {
      if t != typeFilter {
        typeFilter := t;
        currentPage := 1;
      }
    }

    /** The "Anterior" button. */
    method GoPrevious()
      requires Valid()
      modifies this
      ensures Valid()
      ensures currentPage == PreviousPage(old(currentPage))
      ensures searchTerm == old(searchTerm) && typeFilter == old(typeFilter) && sortConfig == old(sortConfig)
    {
      currentPage := PreviousPage(currentPage);
    }

    /** The "Siguiente" button, enabled only when there are pages and the
        current one is not the last. */
    method GoNext(all: seq<Report>)
      requires Valid()
      requires TotalPages(Shown(all)) != 0 && currentPage != TotalPages(Shown(all))
      modifies this
      ensures Valid()
      ensures currentPage == NextPage(old(currentPage), TotalPages(Shown(all)))
      ensures old(currentPage) < TotalPages(Shown(all)) ==> currentPage == old(currentPage) + 1
      ensures searchTerm == old(searchTerm) && typeFilter == old(typeFilter) && sortConfig == old(sortConfig)
    {
      currentPage := NextPage(currentPage, TotalPages(Shown(all)));
    }
  }

  /** The current page shows at most seven rows, each the row at its
      position counted from `(currentPage - 1) * 7`, and on a page in
      range the label counts exactly those rows. */
  lemma CurrentPageSpec(shown: seq<Report>, page: int)
    requires page >= 1
    ensures var rows := PageOf(shown, page, ItemsPerPage);
      && |rows| <= ItemsPerPage
      && (forall i :: 0 <= i < |rows| ==> PageStart(page, ItemsPerPage) + i < |shown|
                                          && rows[i] == shown[PageStart(page, ItemsPerPage) + i])
      && (rows != [] <==> page <= TotalPages(shown))
      && (page <= TotalPages(shown) ==>
            var (from, to) := RangeLabel(PageStart(page, ItemsPerPage), |rows|);
            shown[from - 1..to] == rows)
  {
    PageOfSpec(shown, page, ItemsPerPage);
    if page <= TotalPages(shown) {
      RangeLabelSpec(shown, page, ItemsPerPage);
    }
  }
}
