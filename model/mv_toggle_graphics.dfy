/** The monthly-reports charts of the reports page: the bar chart of every
    product's estimated sales summed over all monthly reports, the trend of
    the last two months, the pie chart of one chosen month, and the months
    offered by the month selector. */
module MVToggleGraphics {
  import opened Wrappers
  import opened Seqs
  import opened StableSort
  import opened FirstWins
  import opened Distinct
  import opened Reports
  import opened KeyedSums
  import opened Trends

  /** One entry of `topProductsThisMonth`. */
  datatype TopProduct = TopProduct(product: string, estimatedSalesCount: int)

  /** A stored monthly report as the charts read it. `topProducts` is
      `None` when the field is missing or not an array; `totalSalesForMonth`
      holds 0 when absent, since it is only read through `|| 0`. */
  datatype MonthlyReport = MonthlyReport(
    month: string, year: NumVal, monthNumber: NumVal, totalSalesForMonth: int,
    topProducts: Option<seq<TopProduct>>)

  const BarColors: seq<string> := ["#0A7E8C", "#00563F", "#003153", "#1560BD", "#1A9ABF"]

  const PieColors: seq<string> := [
    "#FF6B6B", "#4ECDC4", "#45B7D1", "#FFA07A", "#98D8AA",
    "#DAA06D", "#A87A9A", "#78C0E0", "#D4AF37", "#50C878"]

  /* ---------- bar chart ---------- */

  /** One bar: a product, its summed sales and its colour. */
  datatype Bar = Bar(product: string, estimatedSalesCount: int, fill: string)

  function ProductOf(p: TopProduct): string { p.product }

  function CountOf(p: TopProduct): int { p.estimatedSalesCount }

  function BarCount(b: Bar): int { b.estimatedSalesCount }

  function BarProduct(b: Bar): string { b.product }

  /** The products a report lists, none when the list is missing. */
  function Products(r: MonthlyReport): seq<TopProduct>
  {
    if r.topProducts.Some? then r.topProducts.value else []
  }

  /** Every listed product entry, report by report. */
  function AllProducts(rs: seq<MonthlyReport>): seq<TopProduct>
  {
    if rs == [] then [] else AllProducts(rs[..|rs| - 1]) + Products(rs[|rs| - 1])
  }

  /** The distinct product names in the order they are first listed. */
  function ProductNames(rs: seq<MonthlyReport>): seq<string>
  {
    Uniq(Map(AllProducts(rs), ProductOf))
  }

  /** The sales of one product over all reports. */
  function ProductSales(rs: seq<MonthlyReport>, name: string): int
  {
    Sum(Filter(AllProducts(rs), KeyIs(ProductOf, name)), CountOf)
  }

  /** `productSalesMap` after the two nested `forEach` loops. */
  function SalesMap(rs: seq<MonthlyReport>): Sums
  {
    SumsOf(AllProducts(rs), ProductOf, CountOf)
  }

  /** `Array.from(productSalesMap).map(...)`: a bar per entry in insertion
      order, coloured by its position there. */
  function Colored(t: Sums): (bars: seq<Bar>)
    ensures |bars| == |t.keys|
  {
    seq(|t.keys|, k requires 0 <= k < |t.keys| => Bar(t.keys[k], Get(t.total, t.keys[k]), BarColors[k % 5]))
  }

  /** `barChartData` once sorted by sales, largest first. */
  function BarData(rs: seq<MonthlyReport>): seq<Bar>
  {
    Sort(Colored(SalesMap(rs)), KeyDesc(BarCount))
  }

  /** The outer `forEach` over the reports filling `productSalesMap`. */
  method SumSales(rs: seq<MonthlyReport>) returns (keys: seq<string>, totals: map<string, int>)
    ensures Sums(keys, totals) == SalesMap(rs)
  {
    keys, totals := [], map[];
    for i := 0 to |rs|
      invariant Sums(keys, totals) == SalesMap(rs[..i])
    {
      keys, totals := AddReport(keys, totals, Products(rs[i]), AllProducts(rs[..i]));
      assert rs[..i + 1][..i] == rs[..i];
    }
    assert rs[..|rs|] == rs;
  }

  /** The inner `forEach` over one report's products: `set(product,
      (get(product) || 0) + estimatedSalesCount)`. */
  method AddReport(keys0: seq<string>, totals0: map<string, int>, ps: seq<TopProduct>, ghost done: seq<TopProduct>)
    returns (keys: seq<string>, totals: map<string, int>)
    requires Sums(keys0, totals0) == SumsOf(done, ProductOf, CountOf)
    ensures Sums(keys, totals) == SumsOf(done + ps, ProductOf, CountOf)
  {
    keys, totals := keys0, totals0;
    ghost var read := done;
    assert done + ps[..0] == done;
    for j := 0 to |ps|
      invariant read == done + ps[..j]
      invariant Sums(keys, totals) == SumsOf(read, ProductOf, CountOf)
    {
      var p := ps[j];
      ghost var before := Sums(keys, totals);
      var current := Get(totals, p.product);
      if p.product !in keys {
        keys := keys + [p.product];
      }
      totals := totals[p.product := current + p.estimatedSalesCount];
      assert Sums(keys, totals) == Add(before, ProductOf(p), CountOf(p));
      assert ps[..j + 1] == ps[..j] + [p];
      read := read + [p];
    }
    assert ps[..|ps|] == ps;
  }

  /** The `map` over the entries, which also raises `maxSalesValue` to the
      largest total seen. */
  method ColorBars(t: Sums) returns (colored: seq<Bar>, maxSales: int)
    ensures colored == Colored(t)
    ensures 0 <= maxSales && forall b :: b in colored ==> b.estimatedSalesCount <= maxSales
    ensures maxSales == 0 || exists b :: b in colored && b.estimatedSalesCount == maxSales
  {
    colored := [];
    maxSales := 0;
    for k := 0 to |t.keys|
      invariant colored == Colored(t)[..k]
      invariant 0 <= maxSales && forall b :: b in colored ==> b.estimatedSalesCount <= maxSales
      invariant maxSales == 0 || exists b :: b in colored && b.estimatedSalesCount == maxSales
    {
      var count := Get(t.total, t.keys[k]);
      if count > maxSales {
        maxSales := count;
      }
      colored := colored + [Bar(t.keys[k], count, BarColors[k % 5])];
    }
  }

  /** The bar computation: sum, colour, then sort by sales. */
  method BuildBars(rs: seq<MonthlyReport>) returns (bars: seq<Bar>, maxSales: int)
    ensures bars == BarData(rs)
    ensures 0 <= maxSales && forall b :: b in bars ==> b.estimatedSalesCount <= maxSales
    ensures maxSales == 0 || exists b :: b in bars && b.estimatedSalesCount == maxSales
  {
    var keys, totals := SumSales(rs);
    var colored;
    colored, maxSales := ColorBars(Sums(keys, totals));
    bars := Sort(colored, KeyDesc(BarCount));
    SortPermutes(colored, KeyDesc(BarCount));
    PermutedMembers(colored, bars);
  }

  /** Before the sort: the bar at each position is the product first listed
      at that position among the distinct products, with its total. */
  lemma ColoredSpec(rs: seq<MonthlyReport>)
    ensures |Colored(SalesMap(rs))| == |ProductNames(rs)|
    ensures forall k :: 0 <= k < |ProductNames(rs)| ==>
      Colored(SalesMap(rs))[k] == Bar(ProductNames(rs)[k], ProductSales(rs, ProductNames(rs)[k]), BarColors[k % 5])
    ensures forall i, j :: 0 <= i < j < |ProductNames(rs)| ==> ProductNames(rs)[i] != ProductNames(rs)[j]
  {
    var t := SalesMap(rs);
    var names := ProductNames(rs);
    SumsOfSpec(AllProducts(rs), ProductOf, CountOf);
    UniqFacts(Map(AllProducts(rs), ProductOf));
    forall k | 0 <= k < |names|
      ensures Colored(t)[k] == Bar(names[k], ProductSales(rs, names[k]), BarColors[k % 5])
    {
      assert names[k] in t.total;
    }
  }

  /** The unsorted bars as a set: one per product, at its listing position. */
  lemma ColoredMembers(rs: seq<MonthlyReport>)
    ensures forall b :: b in Colored(SalesMap(rs)) <==>
      exists k :: 0 <= k < |ProductNames(rs)| &&
        b == Bar(ProductNames(rs)[k], ProductSales(rs, ProductNames(rs)[k]), BarColors[k % 5])
    ensures |Colored(SalesMap(rs))| == |ProductNames(rs)|
    ensures DistinctKeys(Colored(SalesMap(rs)), BarProduct)
  {
    var names := ProductNames(rs);
    var colored := Colored(SalesMap(rs));
    ColoredSpec(rs);
    forall b
      ensures b in colored <==> exists k :: 0 <= k < |names| && b == Bar(names[k], ProductSales(rs, names[k]), BarColors[k % 5])
    {
      if b in colored {
        var k :| 0 <= k < |colored| && colored[k] == b;
        assert b == Bar(names[k], ProductSales(rs, names[k]), BarColors[k % 5]);
      }
      if exists k :: 0 <= k < |names| && b == Bar(names[k], ProductSales(rs, names[k]), BarColors[k % 5]) {
        var k :| 0 <= k < |names| && b == Bar(names[k], ProductSales(rs, names[k]), BarColors[k % 5]);
        assert colored[k] == b;
      }
    }
  }

  /** Every bar is a distinct product with its total over all reports,
      coloured by the position of its first listing among the products;
      every listed product has a bar; larger totals come first. */
  lemma BarDataSpec(rs: seq<MonthlyReport>)
    ensures |BarData(rs)| == |ProductNames(rs)|
    ensures forall b :: b in BarData(rs) <==>
      exists k :: 0 <= k < |ProductNames(rs)| &&
        b == Bar(ProductNames(rs)[k], ProductSales(rs, ProductNames(rs)[k]), BarColors[k % 5])
    ensures forall i, j :: 0 <= i < j < |BarData(rs)| ==> BarData(rs)[i].estimatedSalesCount >= BarData(rs)[j].estimatedSalesCount
    ensures DistinctKeys(BarData(rs), BarProduct)
  {
    var colored := Colored(SalesMap(rs));
    var bars := BarData(rs);
    ColoredMembers(rs);
    SortByKeyDesc(colored, BarCount);
    PermutedMembers(colored, bars);
    DistinctKeysAfterPermute(colored, bars, BarProduct);
  }

  /** Whatever a product's position, its bar's colour is one of the five. */
  lemma BarColorsCycle(rs: seq<MonthlyReport>)
    ensures forall b :: b in BarData(rs) ==> b.fill in BarColors
  {
    BarDataSpec(rs);
  }

  /** `barChartData` as the component shows it: the summed bars for the
      monthly tab when the reports are there, nothing otherwise. */
  function BarChartData(allReports: Option<seq<MonthlyReport>>, currentType: string): (r: seq<Bar>)
    ensures currentType != "monthly" || allReports.None? ==> r == []
    ensures currentType == "monthly" && allReports.Some? ==> |r| == |ProductNames(allReports.value)|
  {
    if currentType == "monthly" && allReports.Some? then
      BarDataSpec(allReports.value);
      BarData(allReports.value)
    else []
  }

  /* ---------- trend ---------- */

  /** The footer's trend line: only with bars and at least two months, and
      only when the month before last sold something. */
  function TrendOf(monthly: seq<MonthlyReport>, barCount: nat): Trend
  {
    if barCount == 0 || |monthly| < 2 then NoTrend
    else
      var last := monthly[|monthly| - 1].totalSalesForMonth;
      var previous := monthly[|monthly| - 2].totalSalesForMonth;
      if previous <= 0 then NoTrend else Compare(last, previous)
  }

  /** With bars, two months and sales in the month before last, the trend
      rises exactly when the last month sold more, falls exactly when it sold
      less, and is steady otherwise; the percentage is the relative change.
      In every other case there is no trend line. */
  lemma TrendSpec(monthly: seq<MonthlyReport>, barCount: nat)
    ensures TrendOf(monthly, barCount) != NoTrend <==>
      barCount > 0 && |monthly| >= 2 && monthly[|monthly| - 2].totalSalesForMonth > 0
    ensures TrendOf(monthly, barCount) != NoTrend ==>
      var last, previous := monthly[|monthly| - 1].totalSalesForMonth, monthly[|monthly| - 2].totalSalesForMonth;
      && (TrendOf(monthly, barCount).Rising? <==> last > previous)
      && (TrendOf(monthly, barCount).Falling? <==> last < previous)
      && (TrendOf(monthly, barCount) == Steady <==> last == previous)
      && (TrendOf(monthly, barCount).Rising? || TrendOf(monthly, barCount).Falling? ==>
            TrendOf(monthly, barCount).percent * previous as real
            == (if last > previous then last - previous else previous - last) as real * 100.0)
  {
    if barCount > 0 && |monthly| >= 2 && monthly[|monthly| - 2].totalSalesForMonth > 0 {
      CompareSpec(monthly[|monthly| - 1].totalSalesForMonth, monthly[|monthly| - 2].totalSalesForMonth);
    }
  }

  /* ---------- pie chart ---------- */

  /** One slice of the pie. */
  datatype Slice = Slice(product: string, salesCount: int, fill: string)

  /** What the pie card shows: the chosen month's slices and total, a
      "no data for this month" note, a prompt to choose a month, or the
      "only monthly reports" note. */
  datatype Pie =
    | Shown(slices: seq<Slice>, total: int, report: MonthlyReport)
    | NoData(month: NumVal)
    | Choose
    | Unavailable

  /** `report.monthNumber === activePieMonth`; the empty string, `None`,
      equals no month number, and `NaN` equals nothing. */
  function MonthIs(active: Option<NumVal>): MonthlyReport -> bool
  {
    (r: MonthlyReport) => active.Some? && r.monthNumber == active.value && !r.monthNumber.NaN?
  }

  function Slices(ps: seq<TopProduct>): (r: seq<Slice>)
    ensures |r| == |ps|
    ensures forall k :: 0 <= k < |ps| ==> r[k] == Slice(ps[k].product, ps[k].estimatedSalesCount, PieColors[k % 10])
  {
    seq(|ps|, k requires 0 <= k < |ps| => Slice(ps[k].product, ps[k].estimatedSalesCount, PieColors[k % 10]))
  }

  /** The pie for the active month. */
  function PieFor(allReports: Option<seq<MonthlyReport>>, currentType: string, active: Option<NumVal>): (p: Pie)
    ensures p.Unavailable? <==> currentType != "monthly" || allReports.None?
    ensures p.Shown? ==>
      exists i :: 0 <= i < |allReports.value| && allReports.value[i] == p.report
        && MonthIs(active)(p.report) && p.report.topProducts.Some?
        && (forall j :: 0 <= j < i ==> !MonthIs(active)(allReports.value[j]))
        && p.slices == Slices(p.report.topProducts.value) && p.total == p.report.totalSalesForMonth
    ensures p.NoData? ==> active == Some(p.month) && p.month.Truthy()
    ensures p.Choose? ==> !(active.Some? && active.value.Truthy())
    ensures p.NoData? || p.Choose? ==>
      forall i :: 0 <= i < |allReports.value| && MonthIs(active)(allReports.value[i]) ==>
        exists j :: 0 <= j <= i && MonthIs(active)(allReports.value[j]) && allReports.value[j].topProducts.None?
  {
    if currentType == "monthly" && allReports.Some? then
      var monthly := allReports.value;
      match Find(monthly, MonthIs(active))
      case Some(i) =>
        if monthly[i].topProducts.Some? then
          Shown(Slices(monthly[i].topProducts.value), monthly[i].totalSalesForMonth, monthly[i])
        else if active.Some? && active.value.Truthy() then NoData(active.value)
        else Choose
      case None =>
        if active.Some? && active.value.Truthy() then NoData(active.value) else Choose
    else Unavailable
  }

  /* ---------- month selector ---------- */

  /** One entry of `availableMonths`; `caption` is its `label`. */
  datatype MonthOption = MonthOption(value: NumVal, caption: string, color: string)

  /** `fixedPieColors[parseInt(monthNumber) % 10] || 'gray'`: a negative
      remainder or `NaN` indexes nothing. */
  function MonthColor(n: NumVal): (c: string)
    ensures n.Int? && n.v >= 0 ==> c == PieColors[n.v % 10]
    ensures !(n.Int? && n.v >= 0) ==> c == "gray"
  {
    if n.Int? && n.v >= 0 then PieColors[n.v % 10] else "gray"
  }

  function ToOption(r: MonthlyReport): MonthOption
  {
    MonthOption(r.monthNumber, r.month + " " + r.year.ToText(), MonthColor(r.monthNumber))
  }

  /** `parseInt(value)`, `None` for `NaN`. */
  function OptionKey(o: MonthOption): Option<int>
  {
    if o.value.Int? then Some(o.value.v) else None
  }

  /** `availableMonths` */
  function AvailableMonths(allReports: Option<seq<MonthlyReport>>): seq<MonthOption>
  {
    if allReports.None? then [] else Sort(Map(allReports.value, ToOption), OptKeyAsc(OptionKey))
  }

  /** Every report's month number is a number. */
  predicate AllMonthNumbers(rs: seq<MonthlyReport>)
  {
    forall i :: 0 <= i < |rs| ==> rs[i].monthNumber.Int?
  }

  /** Options whose values are numbers, in increasing order. */
  predicate ByMonthNumber(out: seq<MonthOption>)
  {
    forall i, j :: 0 <= i < j < |out| ==> out[i].value.Int? && out[j].value.Int? && out[i].value.v <= out[j].value.v
  }

  /** One option per report, each with its report's value, label and colour;
      when every month number is a number the options go by increasing
      month number. */
  lemma AvailableMonthsSpec(allReports: Option<seq<MonthlyReport>>)
    ensures allReports.None? ==> AvailableMonths(allReports) == []
    ensures allReports.Some? ==>
      |AvailableMonths(allReports)| == |allReports.value|
      && multiset(AvailableMonths(allReports)) == multiset(Map(allReports.value, ToOption))
    ensures allReports.Some? && AllMonthNumbers(allReports.value) ==> ByMonthNumber(AvailableMonths(allReports))
  {
    if allReports.Some? {
      SortPermutes(Map(allReports.value, ToOption), OptKeyAsc(OptionKey));
      if AllMonthNumbers(allReports.value) {
        OptionsOrdered(allReports.value);
      }
    }
  }

  lemma OptionsOrdered(rs: seq<MonthlyReport>)
    requires AllMonthNumbers(rs)
    ensures ByMonthNumber(AvailableMonths(Some(rs)))
  {
    var opts := Map(rs, ToOption);
    forall i | 0 <= i < |opts|
      ensures OptionKey(opts[i]).Some?
    {
      assert opts[i] == ToOption(rs[i]);
    }
    SortByOptKeyAsc(opts, OptionKey);
    var out := Sort(opts, OptKeyAsc(OptionKey));
    forall i, j | 0 <= i < j < |out|
      ensures out[i].value.Int? && out[j].value.Int? && out[i].value.v <= out[j].value.v
    {
      assert OptionKey(out[i]).Some? && OptionKey(out[j]).Some?;
    }
  }

  /* ---------- component state ---------- */

  /** The component's one piece of state, `activePieMonth`, with `None` for
      the initial empty string. */
  class Graphics {
    var activePieMonth: Option<NumVal>

    constructor()
      ensures activePieMonth == None
    {
      activePieMonth := None;
    }

    /** The effect run when the tab or the reports change: on the monthly
        tab with reports, the last report's month if it is truthy, else the
        first report's if that is, else no change; otherwise the empty
        string. */
    method SyncActiveMonth(allReports: Option<seq<MonthlyReport>>, currentType: string)
      modifies this
      ensures currentType == "monthly" && allReports.Some? && |allReports.value| > 0 ==>
        var monthly := allReports.value;
        if monthly[|monthly| - 1].monthNumber.Truthy() then activePieMonth == Some(monthly[|monthly| - 1].monthNumber)
        else if monthly[0].monthNumber.Truthy() then activePieMonth == Some(monthly[0].monthNumber)
        else activePieMonth == old(activePieMonth)
      ensures !(currentType == "monthly" && allReports.Some? && |allReports.value| > 0) ==> activePieMonth == None
      ensures activePieMonth.Some? && activePieMonth != old(activePieMonth) ==> activePieMonth.value.Truthy()
    {
      if currentType == "monthly" && allReports.Some? && |allReports.value| > 0 {
        var monthly := allReports.value;
        var lastMonth := monthly[|monthly| - 1].monthNumber;
        if lastMonth.Truthy() {
          activePieMonth := Some(lastMonth);
        } else if monthly[0].monthNumber.Truthy() {
          activePieMonth := Some(monthly[0].monthNumber);
        }
      } else {
        activePieMonth := None;
      }
    }

    /** The month selector's `setActivePieMonth`. */
    method SelectMonth(m: NumVal)
      modifies this
      ensures activePieMonth == Some(m)
    {
      activePieMonth := Some(m);
    }

    /** The pie the component renders for its current state. */
    function Pie(allReports: Option<seq<MonthlyReport>>, currentType: string): (p: Pie)
      reads this
      ensures p.Shown? ==> MonthIs(activePieMonth)(p.report)
    {
      PieFor(allReports, currentType, activePieMonth)
    }
  }

  /** After the effect on the monthly tab, when the last report has a month
      number and every report lists its products, the pie shows the first
      report of that month. */
  lemma LatestMonthShown(monthly: seq<MonthlyReport>)
    requires |monthly| > 0 && monthly[|monthly| - 1].monthNumber.Truthy()
    requires forall i :: 0 <= i < |monthly| ==> monthly[i].topProducts.Some?
    ensures PieFor(Some(monthly), "monthly", Some(monthly[|monthly| - 1].monthNumber)).Shown?
  {
    var active := Some(monthly[|monthly| - 1].monthNumber);
    assert MonthIs(active)(monthly[|monthly| - 1]);
    var i := Find(monthly, MonthIs(active)).value;
    assert monthly[i].monthNumber == monthly[|monthly| - 1].monthNumber;
  }
}
