/** The summary the dashboard cards show: counts by kind and validity and
    the metric totals. */
module ReportStats {
  import opened Wrappers
  import opened Seqs
  import opened Reports
  import opened UnifiedReports

  /** `totalOverallSales` and `totalOverallCost` are absent from the
      summary of missing data, hence the options. */
  datatype Stats = Stats(
    totalReports: nat, validReports: nat, invalidReports: nat,
    daily: nat, monthly: nat, material: nat,
    dailySales: int, monthlySales: int, materialCost: int,
    overallSales: Option<int>, overallCost: Option<int>)

  function DaySales(r: Report): int
  {
    r.totalSales
  }

  function MainMetric(r: Report): int
  {
    r.mainMetric
  }

  function IsInvalid(r: Report): bool
  {
    !r.isValid
  }

  /** `useReportStats`; `None` is null data. */
  function Summary(data: Option<NormalizedData>): (s: Stats)
    ensures data.None? ==> s == Stats(0, 0, 0, 0, 0, 0, 0, 0, 0, None, None)
    ensures data.Some? ==>
      && s.totalReports == |data.value.all|
      && s.daily == |data.value.daily| && s.monthly == |data.value.monthly| && s.material == |data.value.material|
      && s.overallSales == Some(s.dailySales + s.monthlySales)
      && s.overallCost == Some(s.materialCost)
  {
    match data
    case None => Stats(0, 0, 0, 0, 0, 0, 0, 0, 0, None, None)
    case Some(d) =>
      var daily := Sum(d.daily, DaySales);
      var monthly := Sum(d.monthly, MainMetric);
      var material := Sum(d.material, MainMetric);
      Stats(|d.all|, Count(d.all, IsValid), Count(d.all, IsInvalid),
            |d.daily|, |d.monthly|, |d.material|,
            daily, monthly, material, Some(daily + monthly), Some(material))
  }

  /** Valid and invalid reports add up to the total. */
  lemma SummaryCountsAddUp(data: Option<NormalizedData>)
    ensures Summary(data).validReports + Summary(data).invalidReports == Summary(data).totalReports
  {
    if data.Some? {
      CountSplit(data.value.all, IsValid, IsInvalid);
    }
  }

  /** On the store's own data every combined report is valid. */
  lemma SummaryOfStore(rawDaily: seq<RawDaily>, rawMonthly: seq<RawPeriodic>, rawMaterial: seq<RawPeriodic>,
                       rnd: Suffixes)
    ensures var s := Summary(Some(Normalized(rawDaily, rawMonthly, rawMaterial, rnd)));
      s.validReports == s.totalReports && s.invalidReports == 0
      && s.daily == |rawDaily| && s.monthly == |rawMonthly| && s.material == |rawMaterial|
  {
    var d := Normalized(rawDaily, rawMonthly, rawMaterial, rnd);
    CombineMembers(d.daily, d.monthly, d.material);
    forall i | 0 <= i < |d.all|
      ensures !IsInvalid(d.all[i])
    {
      assert d.all[i] in d.all;
    }
    FilterNone(d.all, IsInvalid);
    SummaryCountsAddUp(Some(d));
  }

  /** Each total is additive over its list, so a report added to a list
      adds its own figure. */
  lemma SummaryAppendDaily(d: NormalizedData, r: Report)
    ensures Summary(Some(d.(daily := d.daily + [r]))).dailySales == Summary(Some(d)).dailySales + r.totalSales
    ensures Summary(Some(d.(daily := d.daily + [r]))).overallSales.value
         == Summary(Some(d)).overallSales.value + r.totalSales
  {
    SumConcat(d.daily, [r], DaySales);
    assert [r][..0] == [];
  }
}
