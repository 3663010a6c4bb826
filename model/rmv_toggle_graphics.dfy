/** The raw-material charts of the reports page: which reports count as raw
    material and where they are taken from, the bar chart of the selected
    report's key observations, the materials offered by the selector and
    their colours, the selected material kept in the list, and the radar
    series of one material over the months with its trend line. */
module RMVToggleGraphics {
  import opened Wrappers
  import opened Seqs
  import opened JsText
  import opened StableSort
  import opened Distinct
  import opened Reports
  import opened Trends

  /* ---------- material colours ---------- */

  const DefaultPastel: string := "#B8E6B8"

  const Pastels: seq<string> := ["#FFA07A", "#98D8AA", "#FF6B6B", "#41ACC5", "#4ECDC4"]

  const Two31: int := 0x8000_0000
  const Two32: int := 0x1_0000_0000

  /** ECMAScript `ToInt32` on an integer-valued number. */
  function ToInt32(x: int): (r: int)
    ensures -Two31 <= r < Two31
    ensures (r - x) % Two32 == 0
  {
    (x + Two31) % Two32 - Two31
  }

  /** One step of the hash loop: `charCode + ((hash << 5) - hash)`, where
      the shift works on the 32-bit value and the subtraction on the full
      number. */
  function HashStep(hash: int, c: char): int
  {
    c as int + (ToInt32(ToInt32(hash) * 32) - hash)
  }

  /** The hash after reading all of `s`. */
  function HashOf(s: string): int
  {
    if s == [] then 0 else HashStep(HashOf(s[..|s| - 1]), s[|s| - 1])
  }

  function Abs(x: int): nat
  {
    if x < 0 then -x else x
  }

  /** The hash grows by less than 2^32 a character, so for any name shorter
      than 2^21 characters it stays below 2^53 and the loop's floating-point
      arithmetic is exact, as the integer model takes it to be. */
  lemma {:induction false} HashBound(s: string)
    ensures Abs(HashOf(s)) <= |s| * Two32
  {
    if s != [] {
      HashBound(s[..|s| - 1]);
    }
  }

  /** `generatePastelColor`: the loop computing the hash, then the palette
      entry it selects; the empty name gets the default green. */
  method PastelColor(name: string) returns (color: string)
    ensures name == "" ==> color == DefaultPastel
    ensures name != "" ==> color == Pastels[Abs(HashOf(name)) % 5] && color in Pastels && color != DefaultPastel
  {
    if name == "" {
      return DefaultPastel;
    }
    var hash := 0;
    for i := 0 to |name|
      invariant hash == HashOf(name[..i])
    {
      hash := name[i] as int + (ToInt32(ToInt32(hash) * 32) - hash);
      assert name[..i + 1][..i] == name[..i];
    }
    assert name[..|name|] == name;
    color := Pastels[Abs(hash) % 5];
  }

  /* ---------- reports ---------- */

  /** One key observation of a raw-material report. The amounts are passed
      on as stored; `unit` is `None` when missing or empty. */
  datatype Observation = Observation(item: string, quantityUsed: NumVal, cost: NumVal, unit: Option<string>)

  /** A report as these charts read it: `type`, `reportType`, `month`,
      `year`, and `keyObservations` (`None` when missing or not an array). */
  datatype MaterialReport = MaterialReport(
    kind: string, reportType: string, month: string, year: int,
    keyObservations: Option<seq<Observation>>)

  const RawMaterialReportTypes: seq<string> := [
    "Reporte Mensual de Materia Prima", "Reporte de Materia Prima", "Raw Material Report", "Material Report"]

  /** The raw-material test applied to the listed and the selected reports. */
  predicate IsRawMaterial(r: MaterialReport)
  {
    r.kind == "material" || r.kind == "rawMaterial" || r.reportType in RawMaterialReportTypes
  }

  /** The shapes `allReports` may take: an object whose `rawMaterial`,
      `material` and `all` are `None` unless they are arrays, a plain array,
      or nothing. */
  datatype AllReports =
    | Grouped(rawMaterial: Option<seq<MaterialReport>>, material: Option<seq<MaterialReport>>, all: Option<seq<MaterialReport>>)
    | Plain(reports: seq<MaterialReport>)
    | Missing

  /** `rawMaterialReports` */
  function RawMaterialReports(a: AllReports): seq<MaterialReport>
  {
    match a
    case Grouped(raw, material, all) =>
      if raw.Some? then raw.value
      else if material.Some? then material.value
      else if all.Some? then Filter(all.value, IsRawMaterial)
      else []
    case Plain(rs) => Filter(rs, IsRawMaterial)
    case Missing => []
  }

  /** The sources are tried in the order `rawMaterial`, `material`, the
      array itself, `all`; the first two are taken whole, the other two keep,
      in order, exactly their raw-material reports, each as often as it is
      listed. */
  lemma RawMaterialReportsSpec(a: AllReports)
    ensures a.Grouped? && a.rawMaterial.Some? ==> RawMaterialReports(a) == a.rawMaterial.value
    ensures a.Grouped? && a.rawMaterial.None? && a.material.Some? ==> RawMaterialReports(a) == a.material.value
    ensures a.Grouped? && a.rawMaterial.None? && a.material.None? && a.all.None? ==> RawMaterialReports(a) == []
    ensures a.Missing? ==> RawMaterialReports(a) == []
    ensures a.Plain? || (a.Grouped? && a.rawMaterial.None? && a.material.None? && a.all.Some?) ==>
      var source := if a.Plain? then a.reports else a.all.value;
      Subseq(RawMaterialReports(a), source)
      && (forall r :: r in RawMaterialReports(a) <==> r in source && IsRawMaterial(r))
      && forall r :: multiset(RawMaterialReports(a))[r] == if IsRawMaterial(r) then multiset(source)[r] else 0
  {
    if a.Plain? || (a.Grouped? && a.rawMaterial.None? && a.material.None? && a.all.Some?) {
      var source := if a.Plain? then a.reports else a.all.value;
      FilterSubseq(source, IsRawMaterial);
      FilterMultiset(source, IsRawMaterial);
      forall r
        ensures r in RawMaterialReports(a) <==> r in source && IsRawMaterial(r)
      {
        FilterMembership(source, IsRawMaterial, r);
      }
    }
  }

  /** `isSelectedReportRawMaterial`; without one the component shows only
      the "no raw-material report" card. */
  predicate SelectedIsRawMaterial(selected: Option<MaterialReport>)
  {
    selected.Some? && IsRawMaterial(selected.value)
  }

  /* ---------- bar chart ---------- */

  /** One bar group: a material, its quantity, its cost and its unit. */
  datatype BarRow = BarRow(name: string, quantityUsed: NumVal, cost: NumVal, unit: string)

  function UnitText(u: Option<string>): string
  {
    if u.Some? then u.value else ""
  }

  function ToBarRow(o: Observation): BarRow
  {
    BarRow(o.item, o.quantityUsed, o.cost, UnitText(o.unit))
  }

  /** `barChartData`: one row per observation of a selected raw-material
      report that has some, none otherwise. */
  function BarChartData(selected: Option<MaterialReport>): (rows: seq<BarRow>)
    ensures !SelectedIsRawMaterial(selected) ==> rows == []
    ensures SelectedIsRawMaterial(selected) && selected.value.keyObservations.Some? ==>
      var obs := selected.value.keyObservations.value;
      |rows| == |obs|
      && forall i :: 0 <= i < |obs| ==>
        rows[i].name == obs[i].item && rows[i].quantityUsed == obs[i].quantityUsed && rows[i].cost == obs[i].cost
        && (obs[i].unit.Some? ==> rows[i].unit == obs[i].unit.value)
        && (obs[i].unit.None? ==> rows[i].unit == "")
  {
    if SelectedIsRawMaterial(selected) && selected.value.keyObservations.Some? && |selected.value.keyObservations.value| > 0 then
      Map(selected.value.keyObservations.value, ToBarRow)
    else []
  }

  /* ---------- materials on offer ---------- */

  function ItemOf(o: Observation): string { o.item }

  /** The items a report observes, none when it has no observations. */
  function Items(r: MaterialReport): seq<string>
  {
    if r.keyObservations.Some? then Map(r.keyObservations.value, ItemOf) else []
  }

  /** Every observed item, report by report. */
  function AllItems(rs: seq<MaterialReport>): seq<string>
  {
    if rs == [] then [] else AllItems(rs[..|rs| - 1]) + Items(rs[|rs| - 1])
  }

  /** `availableMaterials`: the nested loops adding each item to a `Set`,
      then `Array.from(set).sort()`. */
  method AvailableMaterials(rs: seq<MaterialReport>) returns (materials: seq<string>)
    ensures materials == SortedDistinctStrings(AllItems(rs))
  {
    var seen: seq<string> := [];
    for i := 0 to |rs|
      invariant seen == Uniq(AllItems(rs[..i]))
    {
      seen := AddItems(seen, Items(rs[i]), AllItems(rs[..i]));
      assert rs[..i + 1][..i] == rs[..i];
    }
    assert rs[..|rs|] == rs;
    materials := Sort(seen, StrBefore);
  }

  /** The inner loop: `materialsSet.add(material.item)` for one report. */
  method AddItems(seen0: seq<string>, items: seq<string>, ghost done: seq<string>) returns (seen: seq<string>)
    requires seen0 == Uniq(done)
    ensures seen == Uniq(done + items)
  {
    seen := seen0;
    assert done + items[..0] == done;
    for j := 0 to |items|
      invariant seen == Uniq(done + items[..j])
    {
      UniqStep(done + items[..j], items[j]);
      if items[j] !in seen {
        seen := seen + [items[j]];
      }
      assert done + items[..j + 1] == (done + items[..j]) + [items[j]];
    }
    assert items[..|items|] == items;
  }

  /** The materials on offer are exactly the observed items, each once, in
      increasing string order. */
  lemma AvailableMaterialsSpec(rs: seq<MaterialReport>)
    ensures forall m :: m in SortedDistinctStrings(AllItems(rs)) <==> m in AllItems(rs)
    ensures forall i, j :: 0 <= i < j < |SortedDistinctStrings(AllItems(rs))| ==>
      StrLt(SortedDistinctStrings(AllItems(rs))[i], SortedDistinctStrings(AllItems(rs))[j])
  {
    SortedDistinctStringsSpec(AllItems(rs));
  }

  /* ---------- the selected material ---------- */

  /** `!m`: null and the empty string are falsy. */
  predicate Truthy(m: Option<string>)
  {
    m.Some? && m.value != ""
  }

  /** What the synchronising effect leaves in `activeRadarMaterial`. */
  function Synced(active: Option<string>, materials: seq<string>): Option<string>
  {
    if |materials| > 0 then
      if !Truthy(active) || active.value !in materials then Some(materials[0]) else active
    else None
  }

  /** With materials on offer the selection is one of them, and a truthy
      selection already in the list is kept; with none it is null. A second
      run changes nothing, so the effect it re-triggers settles. */
  lemma SyncedSpec(active: Option<string>, materials: seq<string>)
    ensures |materials| == 0 ==> Synced(active, materials) == None
    ensures |materials| > 0 ==> Synced(active, materials).Some? && Synced(active, materials).value in materials
    ensures Truthy(active) && active.value in materials ==> Synced(active, materials) == active
    ensures Synced(Synced(active, materials), materials) == Synced(active, materials)
  {
  }

  /** The component's state: the material shown by the radar chart. */
  class RadarSelection {
    var activeRadarMaterial: Option<string>

    constructor()
      ensures activeRadarMaterial == None
    {
      activeRadarMaterial := None;
    }

    /** The effect on `availableMaterials` and `activeRadarMaterial`. */
    method Sync(materials: seq<string>)
      modifies this
      ensures activeRadarMaterial == Synced(old(activeRadarMaterial), materials)
      ensures |materials| > 0 ==> activeRadarMaterial.Some? && activeRadarMaterial.value in materials
    {
      if |materials| > 0 {
        if !Truthy(activeRadarMaterial) || activeRadarMaterial.value !in materials {
          activeRadarMaterial := Some(materials[0]);
        }
      } else {
        activeRadarMaterial := None;
      }
    }

    /** The selector's `onValueChange`. */
    method Select(m: string)
      modifies this
      ensures activeRadarMaterial == Some(m)
    {
      activeRadarMaterial := Some(m);
    }
  }

  /* ---------- radar series ---------- */

  const MonthAbbreviations: seq<string> := ["Ene", "Feb", "Mar", "Abr", "May", "Jun", "Jul", "Ago", "Sep", "Oct", "Nov", "Dic"]

  /** One radar point. Its `period` label is `monthPart + ". " + yearPart`;
      the two parts are kept apart, which is what splitting the label on
      `". "` gives back. */
  datatype RadarPoint = RadarPoint(monthPart: string, yearPart: string, value: int, unit: string)
  {
    function Period(): string
    {
      monthPart + ". " + yearPart
    }
  }

  function ItemIs(name: string): Observation -> bool
  {
    (o: Observation) => o.item == name
  }

  /** The report lists the material among its observations. */
  function Observes(name: string): MaterialReport -> bool
  {
    (r: MaterialReport) => r.keyObservations.Some? && Find(r.keyObservations.value, ItemIs(name)).Some?
  }

  /** `substring(0, 3)` */
  function Prefix3(s: string): string
  {
    if |s| <= 3 then s else s[..3]
  }

  /** `x || 0` on an amount. */
  function AmountOrZero(n: NumVal): int
  {
    if n.Truthy() then n.v else 0
  }

  /** The point for one report: the first observation of the material, its
      quantity or 0 and its unit or `""`. */
  function PointOf(name: string, r: MaterialReport): RadarPoint
  {
    var year := IntToString(r.year);
    var found := if r.keyObservations.Some? then Find(r.keyObservations.value, ItemIs(name)) else None;
    var value := if found.Some? then AmountOrZero(r.keyObservations.value[found.value].quantityUsed) else 0;
    var unit := if found.Some? then UnitText(r.keyObservations.value[found.value].unit) else "";
    RadarPoint(Prefix3(r.month), JsSlice(year, -2, |year|), value, unit)
  }

  function PointFor(name: string): MaterialReport -> RadarPoint
  {
    (r: MaterialReport) => PointOf(name, r)
  }

  /** `getMonthNumber`: the abbreviation's position, -1 when unknown. */
  function MonthPosition(monthPart: string): int
  {
    match IndexOf(MonthAbbreviations, Prefix3(monthPart))
    case Some(i) => i
    case None => -1
  }

  /** `parseInt("20" + yearPart, 10)` */
  function FullYear(yearPart: string): Option<int>
  {
    ParseInt("20" + yearPart)
  }

  /** `new Date(fullYear, month).getTime()` as a count of months: two-digit
      years are read as 19xx, and an out-of-range month carries into the
      year. `None` is NaN. */
  function PointKey(p: RadarPoint): Option<int>
  {
    match FullYear(p.yearPart)
    case None => None
    case Some(y) => Some((if 0 <= y <= 99 then 1900 + y else y) * 12 + MonthPosition(p.monthPart))
  }

  /** `radarChartData` */
  function RadarData(rs: seq<MaterialReport>, active: Option<string>): seq<RadarPoint>
  {
    if Truthy(active) && |rs| > 0 then
      Sort(Map(Filter(rs, Observes(active.value)), PointFor(active.value)), OptKeyAsc(PointKey))
    else []
  }

  /** Every label's year reads back as a number, since it starts with "20". */
  lemma PointKeyDefined(p: RadarPoint)
    ensures PointKey(p).Some?
  {
    ParseLeadingDigit("20" + p.yearPart);
  }

  /** A year from 2000 to 2099 is read back exactly from its last two
      digits. */
  lemma FullYearOfCentury(year: int)
    requires 2000 <= year <= 2099
    ensures FullYear(JsSlice(IntToString(year), -2, |IntToString(year)|)) == Some(year)
  {
    var s := NatToString(year);
    CenturyDigits(year);
    assert JsSlice(s, -2, |s|) == s[2..];
    assert "20" + s[2..] == s;
    ParseDigits(s);
  }

  /** The decimal text of a year from 2000 to 2099 is four digits long and
      starts with "20". */
  lemma CenturyDigits(year: int)
    requires 2000 <= year <= 2099
    ensures var s := NatToString(year);
      |s| == 4 && s[..2] == "20" && AllDigits(s) && DigitsValue(s) == year
  {
    NatToStringDigits(year);
    var tens := year / 10;
    assert tens / 10 == 20;
    assert NatToString(20) == "20";
    assert NatToString(tens) == "20" + [DigitChar(tens % 10)];
    assert NatToString(year) == NatToString(tens) + [DigitChar(year % 10)];
  }

  /** One point per report that observes the active material, each with
      that report's first observation of it; the points go in
      chronological order of their labels. */
  lemma RadarDataSpec(rs: seq<MaterialReport>, active: Option<string>)
    ensures !Truthy(active) || |rs| == 0 ==> RadarData(rs, active) == []
    ensures Truthy(active) && |rs| > 0 ==>
      var points := Map(Filter(rs, Observes(active.value)), PointFor(active.value));
      |RadarData(rs, active)| == |points|
      && multiset(RadarData(rs, active)) == multiset(points)
      && forall i, j :: 0 <= i < j < |RadarData(rs, active)| ==>
        PointKey(RadarData(rs, active)[i]).value <= PointKey(RadarData(rs, active)[j]).value
  {
    if Truthy(active) && |rs| > 0 {
      var points := Map(Filter(rs, Observes(active.value)), PointFor(active.value));
      forall i | 0 <= i < |points|
        ensures PointKey(points[i]).Some?
      {
        PointKeyDefined(points[i]);
      }
      SortByOptKeyAsc(points, PointKey);
    }
  }

  /** For a point of a year from 2000 to 2099 the key is that year and the
      month position counted in months, so the radar runs in calendar
      order; a known month abbreviation has its position in the list. */
  lemma ChronologicalKey(p: RadarPoint, year: int)
    requires 2000 <= year <= 2099
    requires p.yearPart == JsSlice(IntToString(year), -2, |IntToString(year)|)
    ensures PointKey(p) == Some(year * 12 + MonthPosition(p.monthPart))
    ensures Prefix3(p.monthPart) in MonthAbbreviations ==>
      0 <= MonthPosition(p.monthPart) < 12 && MonthAbbreviations[MonthPosition(p.monthPart)] == Prefix3(p.monthPart)
  {
    FullYearOfCentury(year);
    LongYearKey(p, year);
  }

  lemma LongYearKey(p: RadarPoint, y: int)
    requires FullYear(p.yearPart) == Some(y) && y > 99
    ensures PointKey(p) == Some(y * 12 + MonthPosition(p.monthPart))
  {
  }

  /** The radar's trend line: up, down or steady when the month before
      last is positive, up from zero, or still zero. */
  function RadarTrend(points: seq<RadarPoint>): Trend
  {
    if |points| < 2 then NoTrend
    else
      var last, previous := points[|points| - 1].value, points[|points| - 2].value;
      if previous > 0 then Compare(last, previous)
      else if last > 0 then FromZero
      else StaysZero
  }

  /** With two points or more: the comparison when the month before last
      is positive, otherwise "up from zero" exactly when the last month is
      positive. */
  lemma RadarTrendSpec(points: seq<RadarPoint>)
    ensures RadarTrend(points) == NoTrend <==> |points| < 2
    ensures |points| >= 2 ==>
      var last, previous := points[|points| - 1].value, points[|points| - 2].value;
      && (previous > 0 ==>
            (RadarTrend(points).Rising? <==> last > previous)
            && (RadarTrend(points).Falling? <==> last < previous)
            && (RadarTrend(points) == Steady <==> last == previous))
      && (previous <= 0 ==> (RadarTrend(points) == FromZero <==> last > 0))
      && (previous <= 0 ==> (RadarTrend(points) == StaysZero <==> last <= 0))
  {
    if |points| >= 2 && points[|points| - 2].value > 0 {
      CompareSpec(points[|points| - 1].value, points[|points| - 2].value);
    }
  }
}
