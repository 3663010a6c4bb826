/** The home page's best-selling products widget: the daily reports' dates
    read back from their Spanish long form, the months, days and years on
    offer, the default period, and the five products with the most bread
    sold in the chosen period. */
module TopSalesProduct {
  import opened Wrappers
  import opened Seqs
  import opened JsText
  import opened Calendar
  import opened SpanishDates
  import opened StableSort
  import opened FirstWins
  import opened Distinct
  import opened Reports
  import opened FavoriteReports
  import opened KeyedSums

  /* ---------- dates ---------- */

  /** `parseDailyReportDate`: the case-sensitive `[a-zA-Z]+` pattern, the
      month word looked up in lower case, then `new Date(year, month, day)`;
      no match, an unknown month (an `Invalid Date`) or the empty string
      give `None`. */
  function ParseDailyReportDate(s: string): (r: Option<Date>)
    ensures r.Some? ==> ValidDate(r.value)
    ensures s == "" ==> r.None?
  {
    if s == "" then None
    else
      match Search(s, 0, false, true)
      case None => None
      case Some(h) =>
        match MonthIndex(h.monthWord)
        case None => None
        case Some(i) => Some(Construct(DigitsValueOf(h.yearDigits), i, DigitsValueOf(h.dayDigits)))
  }

  /** A long date of a real day is read back as that day. */
  lemma ParseLongDate(day: nat, monthIndex: nat, year: nat)
    requires monthIndex < 12 && 1000 <= year <= 9999 && 1 <= day <= DaysIn(year, monthIndex + 1)
    ensures ParseDailyReportDate(LongDate(day, monthIndex, year)) == Some(Date(year, monthIndex + 1, day))
  {
    var s := LongDate(day, monthIndex, year);
    assert day <= 31;
    LongDateNotIso(day, monthIndex, year);
    var h := HumanDate(NatToString(day), MonthNames[monthIndex], NatToString(year));
    LongDateMatches(day, monthIndex, year, false, true);
    assert Search(s, 0, false, true) == Some(h);
    NatToStringDigits(day);
    NatToStringDigits(year);
    assert DigitsValueOf(h.dayDigits) == day && DigitsValueOf(h.yearDigits) == year;
    MonthNameLetters(monthIndex);
    MonthIndexOfName(monthIndex, MonthNames[monthIndex]);
    assert MonthIndex(h.monthWord) == Some(monthIndex);
    ConstructValid(year, monthIndex, day);
  }

  /** A matched date whose month word is no Spanish month is rejected. */
  lemma ParseUnknownMonth(s: string, h: HumanDate)
    requires s != "" && Search(s, 0, false, true) == Some(h)
    requires Lower(h.monthWord) !in MonthNames
    ensures ParseDailyReportDate(s) == None
  {
  }

  /** A report with its `parsedDate`, read from `details.date`. */
  datatype Processed = Processed(m: Marked, parsedDate: Option<Date>)

  function Process(m: Marked): Processed
  {
    Processed(m, ParseDailyReportDate(m.report.detailsDate))
  }

  /** `processedDailyReports` */
  function ProcessedReports(rs: seq<Marked>): (ps: seq<Processed>)
    ensures |ps| == |rs|
    ensures forall i :: 0 <= i < |rs| ==> ps[i].m == rs[i]
    ensures forall i :: 0 <= i < |rs| ==> ps[i].parsedDate.Some? ==> ValidDate(ps[i].parsedDate.value)
  {
    Map(rs, Process)
  }

  function Dated(p: Processed): bool
  {
    p.parsedDate.Some?
  }

  /** `yyyy-MM` as a number; for four-digit years the text order of the
      formatted keys is the order of these numbers. */
  function MonthNumberOf(m: Processed): int
  {
    match m.parsedDate
    case Some(d) => d.year * 100 + d.month
    case None => 0
  }

  /** `yyyy-MM-dd` as a number. */
  function DayNumberOf(m: Processed): int
  {
    match m.parsedDate
    case Some(d) => DayKey(d)
    case None => 0
  }

  function YearOf(m: Processed): int
  {
    match m.parsedDate
    case Some(d) => d.year
    case None => 0
  }

  /** `availableMonths`, `availableDays`, `availableYears`: the distinct
      values over the reports with a date, in increasing order. */
  function AvailableMonths(rs: seq<Processed>): seq<int>
  {
    AscendingDistinct(Map(Filter(rs, Dated), MonthNumberOf))
  }

  function AvailableDays(rs: seq<Processed>): seq<int>
  {
    AscendingDistinct(Map(Filter(rs, Dated), DayNumberOf))
  }

  function AvailableYears(rs: seq<Processed>): seq<int>
  {
    AscendingDistinct(Map(Filter(rs, Dated), YearOf))
  }

  /** A value is offered exactly when some dated report has it. */
  lemma OfferedValues(rs: seq<Processed>, f: Processed -> int, v: int)
    ensures v in AscendingDistinct(Map(Filter(rs, Dated), f)) <==> exists m :: m in rs && Dated(m) && f(m) == v
    ensures forall i, j :: 0 <= i < j < |AscendingDistinct(Map(Filter(rs, Dated), f))| ==>
      AscendingDistinct(Map(Filter(rs, Dated), f))[i] < AscendingDistinct(Map(Filter(rs, Dated), f))[j]
  {
    var dated := Filter(rs, Dated);
    AscendingDistinctSpec(Map(dated, f));
    if exists m :: m in rs && Dated(m) && f(m) == v {
      var m :| m in rs && Dated(m) && f(m) == v;
      FilterMembership(rs, Dated, m);
      var k :| 0 <= k < |dated| && dated[k] == m;
      assert Map(dated, f)[k] == v;
    }
    if v in Map(dated, f) {
      var k :| 0 <= k < |dated| && Map(dated, f)[k] == v;
      FilterMembership(rs, Dated, dated[k]);
    }
  }

  /** `new Date(year, month - 1, 1)` from the split `yyyy-MM` key. */
  function MonthStart(key: int): Date
  {
    Construct(key / 100, key % 100 - 1, 1)
  }

  /** `new Date(year, month - 1, day)` from the split `yyyy-MM-dd` key. */
  function DayOf(key: int): Date
  {
    Construct(key / 10000, (key / 100) % 100 - 1, key % 100)
  }

  /** Real dates with years of three digits or more, which `new Date`
      reads as they are. */
  ghost predicate LongYears(rs: seq<Processed>)
  {
    forall m :: m in rs && Dated(m) ==> ValidDate(m.parsedDate.value) && m.parsedDate.value.year > 99
  }

  /** The default month is the first day of the latest month with a report. */
  lemma DefaultMonthIsLatest(rs: seq<Processed>)
    requires AvailableMonths(rs) != [] && LongYears(rs)
    ensures var d := MonthStart(AvailableMonths(rs)[|AvailableMonths(rs)| - 1]);
      d.day == 1
      && (exists m :: m in rs && Dated(m) && m.parsedDate.value.year == d.year && m.parsedDate.value.month == d.month)
      && forall m :: m in rs && Dated(m) ==>
           m.parsedDate.value.year < d.year || (m.parsedDate.value.year == d.year && m.parsedDate.value.month <= d.month)
  {
    var a := AvailableMonths(rs);
    var key := a[|a| - 1];
    OfferedValues(rs, MonthNumberOf, key);
    var w :| w in rs && Dated(w) && MonthNumberOf(w) == key;
    var p := w.parsedDate.value;
    assert key / 100 == p.year && key % 100 == p.month;
    ConstructValid(p.year, p.month - 1, 1);
    forall m | m in rs && Dated(m)
      ensures m.parsedDate.value.year < p.year || (m.parsedDate.value.year == p.year && m.parsedDate.value.month <= p.month)
    {
      OfferedValues(rs, MonthNumberOf, MonthNumberOf(m));
      var k :| 0 <= k < |a| && a[k] == MonthNumberOf(m);
      assert MonthNumberOf(m) <= key;
    }
  }

  /** Splitting `yyyy-MM-dd` gives back the year, month and day. */
  lemma DayKeyParts(d: Date)
    requires ValidDate(d)
    ensures DayKey(d) / 10000 == d.year && (DayKey(d) / 100) % 100 == d.month && DayKey(d) % 100 == d.day
  {
    var k := DayKey(d);
    assert k == (d.year * 100 + d.month) * 100 + d.day;
    assert k / 100 == d.year * 100 + d.month;
  }

  /** The default day is the latest day with a report. */
  lemma DefaultDayIsLatest(rs: seq<Processed>)
    requires AvailableDays(rs) != [] && LongYears(rs)
    ensures var d := DayOf(AvailableDays(rs)[|AvailableDays(rs)| - 1]);
      (exists m :: m in rs && m.parsedDate == Some(d))
      && forall m :: m in rs && Dated(m) ==> DayKey(m.parsedDate.value) <= DayKey(d)
  {
    var a := AvailableDays(rs);
    var key := a[|a| - 1];
    OfferedValues(rs, DayNumberOf, key);
    var w :| w in rs && Dated(w) && DayNumberOf(w) == key;
    var p := w.parsedDate.value;
    DayKeyParts(p);
    ConstructValid(p.year, p.month - 1, p.day);
    forall m | m in rs && Dated(m)
      ensures DayKey(m.parsedDate.value) <= DayKey(p)
    {
      OfferedValues(rs, DayNumberOf, DayNumberOf(m));
      var k :| 0 <= k < |a| && a[k] == DayNumberOf(m);
    }
  }

  /** The default year is the latest year with a report. */
  lemma DefaultYearIsLatest(rs: seq<Processed>)
    requires AvailableYears(rs) != []
    ensures var y := AvailableYears(rs)[|AvailableYears(rs)| - 1];
      (exists m :: m in rs && Dated(m) && m.parsedDate.value.year == y)
      && forall m :: m in rs && Dated(m) ==> m.parsedDate.value.year <= y
  {
    var a := AvailableYears(rs);
    var y := a[|a| - 1];
    OfferedValues(rs, YearOf, y);
    forall m | m in rs && Dated(m)
      ensures m.parsedDate.value.year <= y
    {
      OfferedValues(rs, YearOf, YearOf(m));
      var k :| 0 <= k < |a| && a[k] == YearOf(m);
    }
  }

  /* ---------- the reports of the chosen period ---------- */

  function InMonth(y: int, mo: int): Processed -> bool
  {
    (m: Processed) => m.parsedDate.Some? && m.parsedDate.value.year == y && m.parsedDate.value.month == mo
  }

  function InYear(y: int): Processed -> bool
  {
    (m: Processed) => m.parsedDate.Some? && m.parsedDate.value.year == y
  }

  /** `toDateString()` equality: the same calendar day. */
  function OnDay(d: Date): Processed -> bool
  {
    (m: Processed) => m.parsedDate == Some(d)
  }

  /** `reportsToProcess`: none until a period of the view mode is chosen
      (a year of 0 counts as not chosen). */
  function ToProcess(rs: seq<Processed>, mode: string, date: Option<Date>, year: Option<int>): seq<Processed>
  {
    if mode == "month" && date.Some? then Filter(rs, InMonth(date.value.year, date.value.month))
    else if mode == "year" && year.Some? && year.value != 0 then Filter(rs, InYear(year.value))
    else if mode == "day" && date.Some? then Filter(rs, OnDay(date.value))
    else []
  }

  /** In month mode exactly the reports dated in the chosen month are
      processed, in list order, each as often as it is listed. */
  lemma ToProcessMonth(rs: seq<Processed>, d: Date, year: Option<int>)
    ensures Subseq(ToProcess(rs, "month", Some(d), year), rs)
    ensures forall m :: m in ToProcess(rs, "month", Some(d), year) <==>
      m in rs && Dated(m) && m.parsedDate.value.year == d.year && m.parsedDate.value.month == d.month
    ensures forall m :: multiset(ToProcess(rs, "month", Some(d), year))[m] ==
                        if Dated(m) && m.parsedDate.value.year == d.year && m.parsedDate.value.month == d.month then multiset(rs)[m] else 0
  {
    FilterSubseq(rs, InMonth(d.year, d.month));
    FilterMultiset(rs, InMonth(d.year, d.month));
    forall m
      ensures m in ToProcess(rs, "month", Some(d), year) <==>
        m in rs && Dated(m) && m.parsedDate.value.year == d.year && m.parsedDate.value.month == d.month
    {
      FilterMembership(rs, InMonth(d.year, d.month), m);
    }
  }

  /* ---------- totals per product ---------- */

  /** A report adds to the totals when it names its top product (the sales
      figures of a normalised daily report are always numbers). */
  function Counted(m: Processed): bool
  {
    m.m.report.topProduct != ""
  }

  function ProductOf(m: Processed): string
  {
    m.m.report.topProduct
  }

  function SoldAs(name: string): Processed -> bool
  {
    (m: Processed) => Counted(m) && m.m.report.topProduct == name
  }

  function BreadsOf(m: Processed): int
  {
    m.m.report.breadsSold
  }

  function SalesOf(m: Processed): int
  {
    m.m.report.totalSales
  }

  /** The keys of `productSales` in the order they were first set. */
  function ProductNames(rs: seq<Processed>): seq<string>
  {
    Uniq(Map(Filter(rs, Counted), ProductOf))
  }

  /** `productSales[name]` and `productRevenue[name]`: the sums over the
      reports naming that product. */
  function Quantity(rs: seq<Processed>, name: string): int
  {
    Sum(Filter(rs, SoldAs(name)), BreadsOf)
  }

  function Revenue(rs: seq<Processed>, name: string): int
  {
    Sum(Filter(rs, SoldAs(name)), SalesOf)
  }

  /** One product of the chart. */
  datatype ProductTotal = ProductTotal(name: string, quantity: int, totalSales: int)

  function QuantityOf(p: ProductTotal): int
  {
    p.quantity
  }

  function NameOf(p: ProductTotal): string
  {
    p.name
  }

  function TotalsFor(rs: seq<Processed>): string -> ProductTotal
  {
    (n: string) => ProductTotal(n, Quantity(rs, n), Revenue(rs, n))
  }

  /** `Object.entries(productSales).map(...)`, sorted by quantity (most
      first, ties in insertion order) and cut to five. */
  function TopProducts(rs: seq<Processed>): seq<ProductTotal>
  {
    Take(Sort(Map(ProductNames(rs), TotalsFor(rs)), KeyDesc(QuantityOf)), 5)
  }

  /** The products are the non-empty top-product names of the reports,
      each once. */
  lemma ProductNamesSpec(rs: seq<Processed>)
    ensures forall n :: n in ProductNames(rs) <==> exists m :: m in rs && Counted(m) && m.m.report.topProduct == n
    ensures forall i, j :: 0 <= i < j < |ProductNames(rs)| ==> ProductNames(rs)[i] != ProductNames(rs)[j]
  {
    var c := Filter(rs, Counted);
    UniqFacts(Map(c, ProductOf));
    forall n
      ensures n in ProductNames(rs) <==> exists m :: m in rs && Counted(m) && m.m.report.topProduct == n
    {
      if exists m :: m in rs && Counted(m) && m.m.report.topProduct == n {
        var m :| m in rs && Counted(m) && m.m.report.topProduct == n;
        FilterMembership(rs, Counted, m);
        var k :| 0 <= k < |c| && c[k] == m;
        assert Map(c, ProductOf)[k] == n;
      }
      if n in Map(c, ProductOf) {
        var k :| 0 <= k < |c| && Map(c, ProductOf)[k] == n;
        FilterMembership(rs, Counted, c[k]);
      }
    }
  }

  /** The two objects after the `forEach`, with the keys of `productSales`
      in insertion order. */
  datatype Tally = Tally(names: seq<string>, sales: map<string, int>, revenue: map<string, int>)

  /** One turn of the `forEach`: a report naming a product adds its
      figures under that name, which goes to the end of the keys if new. */
  function AddSale(t: Tally, x: Processed): Tally
  {
    if !Counted(x) then t
    else
      var name := ProductOf(x);
      Tally(if name in t.names then t.names else t.names + [name],
            t.sales[name := Get(t.sales, name) + BreadsOf(x)],
            t.revenue[name := Get(t.revenue, name) + SalesOf(x)])
  }

  /** The `forEach` read as a fold over the reports. */
  function TallyOf(rs: seq<Processed>): Tally
  {
    if rs == [] then Tally([], map[], map[])
    else AddSale(TallyOf(rs[..|rs| - 1]), rs[|rs| - 1])
  }

  /** The accumulation loop over the period's reports. */
  method Accumulate(rs: seq<Processed>) returns (names: seq<string>, sales: map<string, int>, revenue: map<string, int>)
    ensures Tally(names, sales, revenue) == TallyOf(rs)
    ensures names == ProductNames(rs)
    ensures forall n :: n in sales <==> n in names
    ensures forall n :: n in revenue <==> n in names
    ensures forall n :: n in names ==> sales[n] == Quantity(rs, n) && revenue[n] == Revenue(rs, n)
  {
    names, sales, revenue := [], map[], map[];
    for i := 0 to |rs|
      invariant Tally(names, sales, revenue) == TallyOf(rs[..i])
    {
      var x := rs[i];
      assert rs[..i + 1][..i] == rs[..i];
      if Counted(x) {
        var name := ProductOf(x);
        if name !in names {
          names := names + [name];
        }
        sales := sales[name := Get(sales, name) + BreadsOf(x)];
        revenue := revenue[name := Get(revenue, name) + SalesOf(x)];
      }
    }
    assert rs[..|rs|] == rs;
    TallySpec(rs);
  }

  /** What the loop holds after reading `rs`: the keys in insertion order,
      each with its two sums, and no report of any other product read. */
  ghost predicate Tallied(rs: seq<Processed>, t: Tally)
  {
    && t.names == ProductNames(rs)
    && (forall n :: n in t.sales <==> n in t.names)
    && (forall n :: n in t.revenue <==> n in t.names)
    && (forall n :: n in t.names ==> t.sales[n] == Quantity(rs, n) && t.revenue[n] == Revenue(rs, n))
    && (forall n :: n !in t.names ==> Filter(rs, SoldAs(n)) == [])
  }

  /** The fold holds every product's two sums. */
  lemma {:induction false} TallySpec(rs: seq<Processed>)
    ensures Tallied(rs, TallyOf(rs))
  {
    if rs != [] {
      var pre, x := rs[..|rs| - 1], rs[|rs| - 1];
      TallySpec(pre);
      assert rs == pre + [x];
      TallyStep(pre, x);
    }
  }

  /** One report more keeps the tally. */
  lemma TallyStep(pre: seq<Processed>, x: Processed)
    requires Tallied(pre, TallyOf(pre))
    ensures Tallied(pre + [x], TallyOf(pre + [x]))
  {
    var next := pre + [x];
    assert next[..|pre|] == pre;
    NamesStep(pre, x);
    forall n
      ensures var t' := TallyOf(next);
        && (n in t'.names ==> t'.sales[n] == Quantity(next, n) && t'.revenue[n] == Revenue(next, n))
        && (n !in t'.names ==> Filter(next, SoldAs(n)) == [])
    {
      TallyOne(pre, x, n);
    }
  }

  /** One report more adds its figures to its own product's sums only. */
  lemma TallyOne(pre: seq<Processed>, x: Processed, n: string)
    requires Tallied(pre, TallyOf(pre))
    ensures var t' := TallyOf(pre + [x]);
      && (n in t'.names ==> t'.sales[n] == Quantity(pre + [x], n) && t'.revenue[n] == Revenue(pre + [x], n))
      && (n !in t'.names ==> Filter(pre + [x], SoldAs(n)) == [])
  {
    var t := TallyOf(pre);
    TallyOfSnoc(pre, x);
    AddSaleAt(t, x, n);
    TotalsStep(pre, x, n);
    assert n in t.names ==> t.sales[n] == Quantity(pre, n) && t.revenue[n] == Revenue(pre, n);
    assert n !in t.names ==> Filter(pre, SoldAs(n)) == [] && n !in t.sales && n !in t.revenue;
  }

  /** What one turn does to one name's entry. */
  lemma AddSaleAt(t: Tally, x: Processed, n: string)
    ensures var t' := AddSale(t, x);
      && (n in t'.names <==> n in t.names || SoldAs(n)(x))
      && (n in t'.sales <==> n in t.sales || SoldAs(n)(x))
      && (n in t'.revenue <==> n in t.revenue || SoldAs(n)(x))
      && (n in t'.sales ==> t'.sales[n] == Get(t.sales, n) + (if SoldAs(n)(x) then BreadsOf(x) else 0))
      && (n in t'.revenue ==> t'.revenue[n] == Get(t.revenue, n) + (if SoldAs(n)(x) then SalesOf(x) else 0))
  {
  }

  /** The fold over one report more. */
  lemma TallyOfSnoc(pre: seq<Processed>, x: Processed)
    ensures TallyOf(pre + [x]) == AddSale(TallyOf(pre), x)
  {
    assert (pre + [x])[..|pre|] == pre;
  }

  /** Reading one more report adds its product, if new, at the end. */
  lemma NamesStep(pre: seq<Processed>, x: Processed)
    ensures ProductNames(pre + [x])
      == if Counted(x) && ProductOf(x) !in ProductNames(pre) then ProductNames(pre) + [ProductOf(x)] else ProductNames(pre)
  {
    assert (pre + [x])[..|pre|] == pre;
    var prev := Map(Filter(pre, Counted), ProductOf);
    if Counted(x) {
      assert Map(Filter(pre + [x], Counted), ProductOf) == prev + [ProductOf(x)];
      assert (prev + [ProductOf(x)])[..|prev|] == prev;
      KeysIdentity(ProductNames(pre), ProductOf(x));
    } else {
      assert Filter(pre + [x], Counted) == Filter(pre, Counted);
    }
  }

  /** Reading one more report adds its figures to its own product only. */
  lemma TotalsStep(pre: seq<Processed>, x: Processed, n: string)
    ensures Filter(pre + [x], SoldAs(n)) == Filter(pre, SoldAs(n)) + (if SoldAs(n)(x) then [x] else [])
    ensures Quantity(pre + [x], n) == Quantity(pre, n) + (if SoldAs(n)(x) then BreadsOf(x) else 0)
    ensures Revenue(pre + [x], n) == Revenue(pre, n) + (if SoldAs(n)(x) then SalesOf(x) else 0)
  {
    assert (pre + [x])[..|pre|] == pre;
    var f := Filter(pre, SoldAs(n));
    if SoldAs(n)(x) {
      assert Filter(pre + [x], SoldAs(n)) == f + [x];
    } else {
      assert Filter(pre + [x], SoldAs(n)) == f;
    }
    FilterSumStep(pre, x, SoldAs(n), BreadsOf);
    FilterSumStep(pre, x, SoldAs(n), SalesOf);
  }

  /** The unsorted rows: one per product name, in name order. */
  lemma RowsFacts(rs: seq<Processed>)
    ensures var names := ProductNames(rs); var rows := Map(names, TotalsFor(rs));
      && |rows| == |names|
      && DistinctKeys(rows, NameOf)
      && (forall e :: e in rows ==> e.name in names && e == TotalsFor(rs)(e.name))
  {
    var names := ProductNames(rs);
    var rows := Map(names, TotalsFor(rs));
    UniqFacts(Map(Filter(rs, Counted), ProductOf));
    assert forall k :: 0 <= k < |rows| ==> rows[k] == TotalsFor(rs)(names[k]) && rows[k].name == names[k];
    forall e | e in rows
      ensures e.name in names && e == TotalsFor(rs)(e.name)
    {
      var k :| 0 <= k < |rows| && rows[k] == e;
    }
  }

  /** The sorted rows: one per product, with its totals, most bread first. */
  lemma SortedRows(rs: seq<Processed>)
    ensures var sorted := Sort(Map(ProductNames(rs), TotalsFor(rs)), KeyDesc(QuantityOf));
      |sorted| == |ProductNames(rs)|
      && (forall i, j :: 0 <= i < j < |sorted| ==> sorted[i].quantity >= sorted[j].quantity)
      && DistinctKeys(sorted, NameOf)
      && (forall e :: e in sorted ==> e.name in ProductNames(rs) && e == TotalsFor(rs)(e.name))
  {
    var names := ProductNames(rs);
    var rows := Map(names, TotalsFor(rs));
    var sorted := Sort(rows, KeyDesc(QuantityOf));
    RowsFacts(rs);
    SortByKeyDesc(rows, QuantityOf);
    PermutedMembers(sorted, rows);
    DistinctKeysAfterPermute(rows, sorted, NameOf);
  }

  /** The chart's rows: at most five, no product twice, most bread first,
      each row the true totals of a product of the period. */
  lemma TopProductsSpec(rs: seq<Processed>)
    ensures var out := TopProducts(rs);
      |out| == (if |ProductNames(rs)| < 5 then |ProductNames(rs)| else 5)
      && (forall i, j :: 0 <= i < j < |out| ==> out[i].quantity >= out[j].quantity && out[i].name != out[j].name)
      && (forall e :: e in out ==>
            e.name in ProductNames(rs) && e.quantity == Quantity(rs, e.name) && e.totalSales == Revenue(rs, e.name))
  {
    SortedRows(rs);
    var sorted := Sort(Map(ProductNames(rs), TotalsFor(rs)), KeyDesc(QuantityOf));
    var out := Take(sorted, 5);
    assert forall e :: e in out ==> e in sorted;
  }

  /** No product left off the chart sold more bread than a product on it. */
  lemma TopProductsAreTop(rs: seq<Processed>, n: string)
    requires n in ProductNames(rs) && forall e :: e in TopProducts(rs) ==> e.name != n
    ensures forall e :: e in TopProducts(rs) ==> e.quantity >= Quantity(rs, n)
  {
    var names := ProductNames(rs);
    var rows := Map(names, TotalsFor(rs));
    var k :| 0 <= k < |names| && names[k] == n;
    assert rows[k].name == n;
    TopOfSorted(rows, QuantityOf, 5, rows[k]);
  }

  /* ---------- the widget ---------- */

  class Widget {
    /** `allDailyReportsData` */
    const reports: seq<Marked>
    /** `processedDailyReports` */
    const processed: seq<Processed>
    var viewMode: string
    var selectedDate: Option<Date>
    var selectedYear: Option<int>
    var processedData: seq<ProductTotal>

    /** The widget opens on the month view with nothing chosen and no rows. */
    constructor (all: seq<Marked>)
      ensures reports == all && processed == ProcessedReports(all) && viewMode == "month"
      ensures selectedDate.None? && selectedYear.None? && processedData == []
    {
      reports := all;
      processed := ProcessedReports(all);
      viewMode := "month";
      selectedDate, selectedYear := None, None;
      processedData := [];
    }

    /** `handleViewModeChange`: switch the view and forget the chosen period. */
    method ChangeViewMode(mode: string)
      modifies this
      ensures viewMode == mode && selectedDate.None? && selectedYear.None?
      ensures processedData == old(processedData)
    {
      viewMode := mode;
      selectedDate := None;
      selectedYear := None;
    }

    /** The default-period effect: with nothing chosen, choose the last
        month, year or day on offer for the view mode. */
    method SelectDefaults()
      modifies this
      ensures viewMode == old(viewMode) && processedData == old(processedData)
      ensures var months, years, days := AvailableMonths(processed), AvailableYears(processed), AvailableDays(processed);
        if viewMode == "month" && months != [] && old(selectedDate).None? then
          selectedDate == Some(MonthStart(months[|months| - 1])) && selectedYear == old(selectedYear)
        else if viewMode == "year" && years != [] && (old(selectedYear).None? || old(selectedYear).value == 0) then
          selectedYear == Some(years[|years| - 1]) && selectedDate == old(selectedDate)
        else if viewMode == "day" && days != [] && old(selectedDate).None? then
          selectedDate == Some(DayOf(days[|days| - 1])) && selectedYear == old(selectedYear)
        else
          selectedDate == old(selectedDate) && selectedYear == old(selectedYear)
    {
      var months, years, days := AvailableMonths(processed), AvailableYears(processed), AvailableDays(processed);
      if viewMode == "month" && |months| > 0 && selectedDate.None? {
        selectedDate := Some(MonthStart(months[|months| - 1]));
      } else if viewMode == "year" && |years| > 0 && (selectedYear.None? || selectedYear.value == 0) {
        selectedYear := Some(years[|years| - 1]);
      } else if viewMode == "day" && |days| > 0 && selectedDate.None? {
        selectedDate := Some(DayOf(days[|days| - 1]));
      }
    }

    /** The main effect: total the chosen period's sales per product and
        keep the five best sellers. */
    method Refresh()
      modifies this
      ensures viewMode == old(viewMode) && selectedDate == old(selectedDate) && selectedYear == old(selectedYear)
      ensures processedData == TopProducts(ToProcess(processed, viewMode, selectedDate, selectedYear))
    {
      if |processed| == 0 {
        processedData := [];
        assert ToProcess(processed, viewMode, selectedDate, selectedYear) == [];
        return;
      }
      var rs := ToProcess(processed, viewMode, selectedDate, selectedYear);
      var names, sales, revenue := Accumulate(rs);
      var rows := seq(|names|, k requires 0 <= k < |names| => ProductTotal(names[k], sales[names[k]], revenue[names[k]]));
      assert rows == Map(ProductNames(rs), TotalsFor(rs));
      processedData := Take(Sort(rows, KeyDesc(QuantityOf)), 5);
    }
  }
}
