/** The shared report store: the three stored lists normalised, the
    combined list (valid reports only, the first copy of each id, newest
    first) and the queries the pages ask of it. */
module UnifiedReports {
  import opened Wrappers
  import opened Seqs
  import opened JsText
  import opened Calendar
  import opened StableSort
  import opened FirstWins
  import opened Distinct
  import opened Reports

  datatype NormalizedData = NormalizedData(
    daily: seq<Report>, monthly: seq<Report>, material: seq<Report>, all: seq<Report>)

  /** What the store offers while it is loading. */
  const Empty := NormalizedData([], [], [], [])

  /** The text `Math.random()` contributes to a generated id, by kind and
      position in the stored list. */
  type Suffixes = (Kind, nat) -> string

  function NormalizeDailyList(raw: seq<RawDaily>, rnd: Suffixes): seq<Report>
  {
    seq(|raw|, i requires 0 <= i < |raw| => NormalizeDaily(raw[i], rnd(Daily, i)))
  }

  function NormalizePeriodicList(raw: seq<RawPeriodic>, kind: Kind, rnd: Suffixes): seq<Report>
    requires kind != Daily
  {
    seq(|raw|, i requires 0 <= i < |raw| => NormalizePeriodic(raw[i], kind, rnd(kind, i)))
  }

  function IsValid(r: Report): bool
  {
    r.isValid
  }

  function Id(r: Report): string
  {
    r.id
  }

  /** `report.id` is truthy. */
  function HasId(r: Report): bool
  {
    r.id != ""
  }

  /** `new Date(r.fullDateISO || r.displayDate)` as a time order. */
  function SortDate(r: Report): Option<int>
  {
    IsoDateKey(if r.fullDateISO.Some? && r.fullDateISO.value != "" then r.fullDateISO.value else r.displayDate)
  }

  /** The comparator `dateB - dateA`. */
  function NewestFirst(): (Report, Report) -> bool
  {
    OptKeyDesc(SortDate)
  }

  /** The valid reports of the three lists. */
  function ValidReports(daily: seq<Report>, monthly: seq<Report>, material: seq<Report>): seq<Report>
  {
    Filter(daily + monthly + material, IsValid)
  }

  /** The combined list: valid reports, first copy of each id, newest first. */
  function Combine(daily: seq<Report>, monthly: seq<Report>, material: seq<Report>): seq<Report>
  {
    Sort(Dedup(ValidReports(daily, monthly, material), Id, HasId), NewestFirst())
  }

  function Normalized(rawDaily: seq<RawDaily>, rawMonthly: seq<RawPeriodic>, rawMaterial: seq<RawPeriodic>,
                      rnd: Suffixes): NormalizedData
  {
    var daily := NormalizeDailyList(rawDaily, rnd);
    var monthly := NormalizePeriodicList(rawMonthly, Monthly, rnd);
    var material := NormalizePeriodicList(rawMaterial, Material, rnd);
    NormalizedData(daily, monthly, material, Combine(daily, monthly, material))
  }

  /** The memoised normalisation: empty while loading, otherwise the three
      normalised lists and their combination, de-duplicated by the loop. */
  method Normalize(rawDaily: seq<RawDaily>, rawMonthly: seq<RawPeriodic>, rawMaterial: seq<RawPeriodic>,
                   loading: bool, rnd: Suffixes) returns (data: NormalizedData)
    ensures loading ==> data == Empty
    ensures !loading ==> data == Normalized(rawDaily, rawMonthly, rawMaterial, rnd)
  {
    if loading {
      return Empty;
    }
    var daily := NormalizeDailyList(rawDaily, rnd);
    var monthly := NormalizePeriodicList(rawMonthly, Monthly, rnd);
    var material := NormalizePeriodicList(rawMaterial, Material, rnd);
    var valid := ValidReports(daily, monthly, material);
    var unique := DedupLoop(valid, Id, HasId);
    data := NormalizedData(daily, monthly, material, Sort(unique, NewestFirst()));
  }

  /** The provider's state: the stored lists, the loading flag and the
      normalised data derived from them. */
  class ReportsProvider {
    var rawDaily: seq<RawDaily>
    var rawMonthly: seq<RawPeriodic>
    var rawMaterial: seq<RawPeriodic>
    var loading: bool
    var data: NormalizedData

    ghost predicate Valid(rnd: Suffixes)
      reads this
    {
      data == if loading then Empty else Normalized(rawDaily, rawMonthly, rawMaterial, rnd)
    }

    constructor ()
      ensures rawDaily == [] && rawMonthly == [] && rawMaterial == []
      ensures loading && data == Empty
      ensures forall rnd :: Valid(rnd)
    {
      rawDaily, rawMonthly, rawMaterial := [], [], [];
      loading := true;
      data := Empty;
    }

    /** The one-time load: a source that is not an array counts as empty;
        loading ends and the data is normalised. */
    method Load(daily: Option<seq<RawDaily>>, monthly: Option<seq<RawPeriodic>>,
                material: Option<seq<RawPeriodic>>, rnd: Suffixes)
      modifies this
      ensures rawDaily == daily.GetOr([]) && rawMonthly == monthly.GetOr([]) && rawMaterial == material.GetOr([])
      ensures !loading
      ensures Valid(rnd)
    {
      rawDaily, rawMonthly, rawMaterial := daily.GetOr([]), monthly.GetOr([]), material.GetOr([]);
      loading := false;
      data := Normalize(rawDaily, rawMonthly, rawMaterial, loading, rnd);
    }
  }

  /* ---------- properties of the combined list ---------- */

  /** Every combined report is a valid, identified report of one of the lists. */
  lemma CombineMembers(daily: seq<Report>, monthly: seq<Report>, material: seq<Report>)
    ensures forall r :: r in Combine(daily, monthly, material) ==>
      r in daily + monthly + material && r.isValid && r.id != ""
  {
    var v := ValidReports(daily, monthly, material);
    var u := Dedup(v, Id, HasId);
    DedupKeys(v, Id, HasId);
    SortPermutes(u, NewestFirst());
    PermutedMembers(u, Combine(daily, monthly, material));
    forall r | r in v
      ensures r in daily + monthly + material && r.isValid
    {
      FilterMembership(daily + monthly + material, IsValid, r);
    }
  }

  /** The ids of the valid reports with an id, read off the filtered list. */
  lemma ValidIds(all: seq<Report>)
    ensures (set i | 0 <= i < |Filter(all, IsValid)| && HasId(Filter(all, IsValid)[i]) :: Id(Filter(all, IsValid)[i]))
         == set r | r in all && r.isValid && r.id != "" :: r.id
  {
    var v := Filter(all, IsValid);
    var fromV := set i | 0 <= i < |v| && HasId(v[i]) :: Id(v[i]);
    var want := set r | r in all && r.isValid && r.id != "" :: r.id;
    forall k | k in fromV
      ensures k in want
    {
      var i :| 0 <= i < |v| && HasId(v[i]) && Id(v[i]) == k;
      FilterMembership(all, IsValid, v[i]);
    }
    forall k | k in want
      ensures k in fromV
    {
      var r :| r in all && r.isValid && r.id != "" && r.id == k;
      FilterMembership(all, IsValid, r);
      var i :| 0 <= i < |v| && v[i] == r;
    }
  }

  /** Exactly the ids of valid reports appear in the combined list. */
  lemma CombineIds(daily: seq<Report>, monthly: seq<Report>, material: seq<Report>)
    ensures KeysOf(Combine(daily, monthly, material), Id)
         == set r | r in daily + monthly + material && r.isValid && r.id != "" :: r.id
  {
    var v := ValidReports(daily, monthly, material);
    var u := Dedup(v, Id, HasId);
    DedupKeys(v, Id, HasId);
    SortPermutes(u, NewestFirst());
    KeysAfterPermute(u, Combine(daily, monthly, material), Id);
    ValidIds(daily + monthly + material);
  }

  /** No id appears twice in the combined list. */
  lemma CombineUniqueIds(daily: seq<Report>, monthly: seq<Report>, material: seq<Report>)
    ensures DistinctKeys(Combine(daily, monthly, material), Id)
  {
    var u := Dedup(ValidReports(daily, monthly, material), Id, HasId);
    DedupDistinct(ValidReports(daily, monthly, material), Id, HasId);
    SortPermutes(u, NewestFirst());
    DistinctKeysAfterPermute(u, Combine(daily, monthly, material), Id);
  }

  /** The copy kept for an id is the first valid report with that id, in the
      order daily, monthly, material. */
  lemma CombineFirstWins(daily: seq<Report>, monthly: seq<Report>, material: seq<Report>, r: Report)
    requires r in Combine(daily, monthly, material)
    ensures FirstWith(ValidReports(daily, monthly, material), r.id, Id, HasId) == Some(r)
  {
    var v := ValidReports(daily, monthly, material);
    var u := Dedup(v, Id, HasId);
    SortMember(u, NewestFirst(), r);
    assert r in u;
    DedupFirstOf(v, Id, HasId, r);
  }

  /** When every kept report has a readable date, the combined list is
      ordered newest first, and reports of the same day keep the order the
      de-duplication produced. */
  lemma CombineNewestFirst(daily: seq<Report>, monthly: seq<Report>, material: seq<Report>)
    requires forall r :: r in daily + monthly + material && r.isValid && r.id != "" ==> SortDate(r).Some?
    ensures var c := Combine(daily, monthly, material);
      forall i :: 0 <= i < |c| ==> SortDate(c[i]).Some?
    ensures var c := Combine(daily, monthly, material);
      forall i, j :: 0 <= i < j < |c| ==> SortDate(c[i]).value >= SortDate(c[j]).value
    ensures var u := Dedup(ValidReports(daily, monthly, material), Id, HasId);
      forall y :: y in u ==> Filter(Combine(daily, monthly, material), Tied(y, NewestFirst())) == Filter(u, Tied(y, NewestFirst()))
  {
    var v := ValidReports(daily, monthly, material);
    var u := Dedup(v, Id, HasId);
    DedupKeys(v, Id, HasId);
    forall i | 0 <= i < |u|
      ensures SortDate(u[i]).Some?
    {
      FilterMembership(daily + monthly + material, IsValid, u[i]);
    }
    SortByOptKeyDesc(u, SortDate);
  }

  /* ---------- queries ---------- */

  const BucketNames: seq<string> := ["daily", "monthly", "material", "all"]

  /** `normalizedData[type]`; `None` stands for `undefined`. */
  function Bucket(data: NormalizedData, name: string): (r: Option<seq<Report>>)
    ensures r.Some? <==> name in BucketNames
  {
    if name == "daily" then Some(data.daily)
    else if name == "monthly" then Some(data.monthly)
    else if name == "material" then Some(data.material)
    else if name == "all" then Some(data.all)
    else None
  }

  /** `type ? normalizedData[type] : normalizedData.all`, with `None` for a
      missing or null type. */
  function Target(data: NormalizedData, kind: Option<string>): Option<seq<Report>>
  {
    if kind.None? || kind.value == "" then Some(data.all) else Bucket(data, kind.value)
  }

  /** `report.year === parseInt(year)`: a NaN year matches nothing. */
  function YearIs(year: string): Report -> bool
  {
    (r: Report) => ParseInt(year).Some? && r.year == Int(ParseInt(year).value)
  }

  /** `getReportsByYear`; an unknown type makes the call throw. */
  function ReportsByYear(data: NormalizedData, year: string, kind: Option<string>): (r: Result<seq<Report>, string>)
    ensures r.Failure? <==> kind.Some? && kind.value != "" && kind.value !in BucketNames
  {
    match Target(data, kind)
    case None => Failure("TypeError")
    case Some(t) => Success(Filter(t, YearIs(year)))
  }

  /** `report.dateKey === dateKey`; `None` is `null`. */
  function DateKeyIs(dateKey: Option<string>): Report -> bool
  {
    (r: Report) => r.dateKey == dateKey
  }

  /** `getReportsByDateKey`. */
  function ReportsByDateKey(data: NormalizedData, dateKey: Option<string>, kind: Option<string>): (r: Result<seq<Report>, string>)
    ensures r.Failure? <==> kind.Some? && kind.value != "" && kind.value !in BucketNames
  {
    match Target(data, kind)
    case None => Failure("TypeError")
    case Some(t) => Success(Filter(t, DateKeyIs(dateKey)))
  }

  /** The year query keeps, in order, exactly the reports of the chosen list
      whose year is the parsed year. */
  lemma ReportsByYearSpec(data: NormalizedData, year: string, kind: Option<string>)
    requires Target(data, kind).Some?
    ensures ReportsByYear(data, year, kind).Success?
    ensures var t, r := Target(data, kind).value, ReportsByYear(data, year, kind).value;
      Subseq(r, t)
      && (forall x :: x in r <==> x in t && ParseInt(year).Some? && x.year == Int(ParseInt(year).value))
      && forall x :: multiset(r)[x] == if ParseInt(year).Some? && x.year == Int(ParseInt(year).value) then multiset(t)[x] else 0
  {
    var t := Target(data, kind).value;
    FilterSubseq(t, YearIs(year));
    FilterMultiset(t, YearIs(year));
    forall x
      ensures x in Filter(t, YearIs(year)) <==> x in t && YearIs(year)(x)
    {
      FilterMembership(t, YearIs(year), x);
    }
  }

  /** The date-key query keeps, in order, exactly the reports of the chosen
      list with that month key. */
  lemma ReportsByDateKeySpec(data: NormalizedData, dateKey: Option<string>, kind: Option<string>)
    requires Target(data, kind).Some?
    ensures ReportsByDateKey(data, dateKey, kind).Success?
    ensures var t, r := Target(data, kind).value, ReportsByDateKey(data, dateKey, kind).value;
      Subseq(r, t) && (forall x :: x in r <==> x in t && x.dateKey == dateKey)
      && forall x :: multiset(r)[x] == if x.dateKey == dateKey then multiset(t)[x] else 0
  {
    var t := Target(data, kind).value;
    FilterSubseq(t, DateKeyIs(dateKey));
    FilterMultiset(t, DateKeyIs(dateKey));
    forall x
      ensures x in Filter(t, DateKeyIs(dateKey)) <==> x in t && DateKeyIs(dateKey)(x)
    {
      FilterMembership(t, DateKeyIs(dateKey), x);
    }
  }

  function YearTruthy(r: Report): bool
  {
    r.year.Truthy()
  }

  function YearValue(r: Report): int
  {
    if r.year.Int? then r.year.v else 0
  }

  /** `getAvailableYears`: the truthy years of the combined list, once each,
      newest first. */
  function AvailableYears(data: NormalizedData): seq<int>
  {
    DescendingDistinct(Map(Filter(data.all, YearTruthy), YearValue))
  }

  lemma AvailableYearsSpec(data: NormalizedData)
    ensures forall y :: y in AvailableYears(data) <==> y != 0 && exists r :: r in data.all && r.year == Int(y)
    ensures var ys := AvailableYears(data);
      forall i, j :: 0 <= i < j < |ys| ==> ys[i] > ys[j]
  {
    var f := Filter(data.all, YearTruthy);
    var m := Map(f, YearValue);
    DescendingDistinctSpec(m);
    forall y
      ensures y in m <==> y != 0 && exists r :: r in data.all && r.year == Int(y)
    {
      if y in m {
        var i :| 0 <= i < |m| && m[i] == y;
        FilterMembership(data.all, YearTruthy, f[i]);
      }
      if y != 0 && exists r :: r in data.all && r.year == Int(y) {
        var r :| r in data.all && r.year == Int(y);
        FilterMembership(data.all, YearTruthy, r);
        var i :| 0 <= i < |f| && f[i] == r;
        assert m[i] == y;
      }
    }
  }

  /* ---------- chart data ---------- */

  /** `a.monthNumber - b.monthNumber` operands: null counts as 0, undefined
      and NaN give NaN. */
  function MonthSortKey(r: Report): Option<int>
  {
    match r.monthNumber
    case Int(m) => Some(m)
    case Null => Some(0)
    case _ => None
  }

  /** One bar of the chart. `month` is the calendar month of
      `new Date(year, monthNumber - 1)`, whose short name is the label. */
  datatype ChartPoint = ChartPoint(month: int, desktop: int, mobile: int, report: Report)

  /** The date behind a point's label; `None` when it is an invalid date,
      on which the label formatting throws. */
  function LabelDate(r: Report): Option<Date>
  {
    match (r.year, MonthSortKey(r))
    case (Int(y), Some(m)) => Some(Construct(y, m - 1, 1))
    case _ => None
  }

  function ToPoint(r: Report): ChartPoint
    requires LabelDate(r).Some?
  {
    ChartPoint(LabelDate(r).value.month, r.mainMetric, r.secondaryMetric, r)
  }

  /** The list a chart view reads: monthly reports for 'sales', material
      reports for any other view. */
  function ChartKind(viewType: string): string
  {
    if viewType == "sales" then "monthly" else "material"
  }

  /** `getChartData`: the year's reports of the view's list, by ascending
      month number, one point each; an invalid label date throws. */
  function ChartData(data: NormalizedData, year: string, viewType: string): Result<seq<ChartPoint>, string>
  {
    assert ChartKind(viewType) in BucketNames;
    var reports := ReportsByYear(data, year, Some(ChartKind(viewType))).value;
    var sorted := Sort(reports, OptKeyAsc(MonthSortKey));
    if forall r | r in sorted :: LabelDate(r).Some? then
      Success(seq(|sorted|, i requires 0 <= i < |sorted| => ToPoint(sorted[i])))
    else Failure("RangeError: Invalid time value")
  }

  /** The reports a chart view reads: the year's reports of its list. */
  function ChartReports(data: NormalizedData, year: string, viewType: string): seq<Report>
  {
    Filter(if viewType == "sales" then data.monthly else data.material, YearIs(year))
  }

  lemma ChartReportsOf(data: NormalizedData, year: string, viewType: string)
    ensures ReportsByYear(data, year, Some(ChartKind(viewType))).value == ChartReports(data, year, viewType)
    ensures var rs := ChartReports(data, year, viewType);
      multiset(Sort(rs, OptKeyAsc(MonthSortKey))) == multiset(rs)
      && forall r :: r in Sort(rs, OptKeyAsc(MonthSortKey)) <==> r in rs
  {
    var rs := ChartReports(data, year, viewType);
    SortPermutes(rs, OptKeyAsc(MonthSortKey));
    PermutedMembers(rs, Sort(rs, OptKeyAsc(MonthSortKey)));
  }

  /** The chart fails exactly when one of its reports has an undefined or
      NaN month number (its label date is invalid). */
  lemma ChartDataFails(data: NormalizedData, year: string, viewType: string)
    ensures ChartData(data, year, viewType).Success?
        <==> forall r :: r in ChartReports(data, year, viewType) ==> MonthSortKey(r).Some?
  {
    var rs := ChartReports(data, year, viewType);
    ChartReportsOf(data, year, viewType);
    forall r | r in rs
      ensures r.year.Int?
    {
      FilterMembership(if viewType == "sales" then data.monthly else data.material, YearIs(year), r);
    }
  }

  /** The chart has one point per report of the chosen list and year, in
      ascending month order, carrying the report's two metrics. */
  lemma ChartDataSpec(data: NormalizedData, year: string, viewType: string)
    requires ChartData(data, year, viewType).Success?
    ensures var rs, pts := ChartReports(data, year, viewType), ChartData(data, year, viewType).value;
      |pts| == |rs|
      && multiset(Map(pts, (p: ChartPoint) => p.report)) == multiset(rs)
      && (forall i :: 0 <= i < |pts| ==>
            pts[i].desktop == pts[i].report.mainMetric && pts[i].mobile == pts[i].report.secondaryMetric
            && 1 <= pts[i].month <= 12)
      && (forall i :: 0 <= i < |pts| ==> MonthSortKey(pts[i].report).Some?)
      && (forall i, j :: 0 <= i < j < |pts| ==>
            MonthSortKey(pts[i].report).value <= MonthSortKey(pts[j].report).value)
  {
    var rs := ChartReports(data, year, viewType);
    ChartReportsOf(data, year, viewType);
    ChartDataFails(data, year, viewType);
    var sorted := Sort(rs, OptKeyAsc(MonthSortKey));
    var pts := ChartData(data, year, viewType).value;
    assert Map(pts, (p: ChartPoint) => p.report) == sorted;
    SortByOptKeyAsc(rs, MonthSortKey);
  }
}
