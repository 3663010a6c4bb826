/** One report record before and after normalisation: the daily normaliser
    and the monthly/material normaliser of the unified reports hook. */
module Reports {
  import opened Wrappers
  import opened JsText
  import opened Calendar
  import opened SpanishDates

  /** A JavaScript value in a numeric field. */
  datatype NumVal = Undefined | Null | NaN | Int(v: int)
  {
    predicate Truthy()
    {
      Int? && v != 0
    }

    /** Template-literal conversion, `${x}`. */
    function ToText(): string
    {
      match this
      case Undefined => "undefined"
      case Null => "null"
      case NaN => "NaN"
      case Int(v) => IntToString(v)
    }
  }

  /** A numeric field as stored in the data: absent, null, a number or text. */
  datatype RawNum = Absent | RawNull | Number(n: int) | Text(s: string)

  /** `typeof x === "string" ? parseInt(x, 10) : x` */
  function Coerce(x: RawNum): (r: NumVal)
    ensures x.Number? ==> r == Int(x.n)
    ensures x.Text? ==> (r.Int? <==> ParseInt(x.s).Some?)
  {
    match x
    case Absent => Undefined
    case RawNull => Null
    case Number(n) => Int(n)
    case Text(s) => match ParseInt(s) case None => NaN case Some(v) => Int(v)
  }

  datatype Kind = Daily | Monthly | Material

  /** The `type` string a normalised report carries. */
  function TypeName(k: Kind): string
  {
    match k
    case Daily => "daily"
    case Monthly => "monthly"
    case Material => "material"
  }

  /** A stored daily report. Text fields hold "" and numeric fields 0 when
      absent, since every use reads them through `||`. */
  datatype RawDaily = RawDaily(
    id: string, name: string, summary: string, date: string, detailsDate: string,
    reportNumber: string, detailsReportNumber: string, detailsTopProduct: string,
    totalSales: int, detailsTotalSales: int, breadsSold: int, detailsBreadsSold: int)

  /** A stored monthly or material report. */
  datatype RawPeriodic = RawPeriodic(
    id: string, name: string, summary: string, date: string, detailsDate: string, month: string, monthNumber: RawNum, year: RawNum,
    reportNumber: string, detailsReportNumber: string,
    totalSalesForMonth: int, netProfitForMonth: int,
    totalCostOfRawMaterials: int, mainIngredientCost: int)

  /** A normalised report. `mainMetric`/`secondaryMetric` are the
      `mainMetricValue`/`secondaryMetricValue` of monthly and material
      reports; `totalSales`/`breadsSold` are the daily figures. `summary`,
      `detailsReportNumber`, `detailsDate` and `topProduct` are the
      `summary`, `details.reportNumber`, `details.date` and (daily reports
      only) `details.topProduct` the record carries on. */
  datatype Report = Report(
    id: string, kind: Kind, name: string, summary: string, reportNumber: string,
    detailsReportNumber: string, detailsDate: string, topProduct: string,
    date: string, displayDate: string, month: string,
    monthNumber: NumVal, year: NumVal, day: NumVal,
    dateKey: Option<string>, fullDateISO: Option<string>,
    totalSales: int, breadsSold: int, mainMetric: int, secondaryMetric: int,
    isValid: bool)

  /** The `"<id>-<type>"` key favourites and de-duplicated lists use. */
  function FavKey(r: Report): string
  {
    r.id + "-" + TypeName(r.kind)
  }

  /* ---------- ids ---------- */

  const IdPrefixes: seq<string> := ["reporte-diario-", "reporte-mensual-", "reporte-material-"]

  /** Length of the prefix alternative of `/reporte-(diario|mensual|material)-/`
      that matches at `p`, if one does. */
  function PrefixAt(s: string, p: nat): (r: Option<nat>)
    ensures r.Some? ==> exists t :: t in IdPrefixes && |t| == r.value && OccursAt(s, t, p)
    ensures r.Some? ==> p + r.value <= |s|
    ensures r.None? ==> forall t :: t in IdPrefixes ==> !OccursAt(s, t, p)
  {
    if OccursAt(s, IdPrefixes[0], p) then Some(|IdPrefixes[0]|)
    else if OccursAt(s, IdPrefixes[1], p) then Some(|IdPrefixes[1]|)
    else if OccursAt(s, IdPrefixes[2], p) then Some(|IdPrefixes[2]|)
    else None
  }

  /** The leftmost match from `p` on: its position and length. */
  function FirstPrefix(s: string, p: nat): (r: Option<(nat, nat)>)
    requires p <= |s|
    ensures r.Some? ==> p <= r.value.0 && r.value.0 + r.value.1 <= |s|
    decreases |s| - p
  {
    match PrefixAt(s, p)
    case Some(n) => Some((p, n))
    case None => if p == |s| then None else FirstPrefix(s, p + 1)
  }

  /** The match found is one, and no position before it has one; when
      none is found, no position from `p` on has one. */
  lemma {:induction false} FirstPrefixSpec(s: string, p: nat)
    requires p <= |s|
    ensures var r := FirstPrefix(s, p);
      (r.Some? ==> PrefixAt(s, r.value.0) == Some(r.value.1))
      && (r.Some? ==> forall q :: p <= q < r.value.0 ==> PrefixAt(s, q).None?)
      && (r.None? ==> forall q :: p <= q <= |s| ==> PrefixAt(s, q).None?)
    decreases |s| - p
  {
    var r := FirstPrefix(s, p);
    var here := PrefixAt(s, p);
    if here.Some? {
      assert r == Some((p, here.value));
    } else if p < |s| {
      assert r == FirstPrefix(s, p + 1);
      FirstPrefixSpec(s, p + 1);
      var hi := if r.Some? then r.value.0 else |s| + 1;
      forall q | p <= q < hi
        ensures PrefixAt(s, q).None?
      {
        if q > p {
          assert p + 1 <= q < hi;
        }
      }
    } else {
      assert r == None;
    }
  }

  /** `String(id).replace(/reporte-(diario|mensual|material)-/, '')`: the
      leftmost occurrence is removed, nothing else changes. */
  function CleanId(id: string): string
  {
    match FirstPrefix(id, 0)
    case None => id
    case Some((p, n)) => id[..p] + id[p + n..]
  }

  /** A known prefix at the front is removed. */
  lemma CleanIdPrefixed(t: string, rest: string)
    requires t in IdPrefixes
    ensures CleanId(t + rest) == rest
  {
    var s := t + rest;
    assert s[0..|t|] == t;
    if t == IdPrefixes[0] {
      assert PrefixAt(s, 0) == Some(|t|);
    } else if t == IdPrefixes[1] {
      assert s[8] != IdPrefixes[0][8];
      assert PrefixAt(s, 0) == Some(|t|);
    } else {
      assert s[8] != IdPrefixes[0][8];
      assert s[9] != IdPrefixes[1][9];
      assert PrefixAt(s, 0) == Some(|t|);
    }
    assert s[|t|..] == rest;
  }

  /** An id without any known prefix is kept as it is. */
  lemma CleanIdUnchanged(id: string)
    requires forall t, p :: t in IdPrefixes && 0 <= p <= |id| ==> !OccursAt(id, t, p)
    ensures CleanId(id) == id
  {
    FirstPrefixSpec(id, 0);
  }

  /* ---------- daily reports ---------- */

  /** What the daily date parse leaves in `year`, `monthNumber`, `day` and
      `fullDateISO`. */
  datatype DailyDate = DailyDate(year: NumVal, monthNumber: NumVal, day: NumVal, fullDateISO: Option<string>)

  /** The ISO pattern first, then the Spanish long form (case-insensitive);
      the long form sets day and year even when the month is unknown. */
  function ParseDailyDate(raw: string): DailyDate
  {
    if raw == "" then DailyDate(Null, Null, Null, None)
    else if IsIsoShape(raw) then
      DailyDate(Int(IsoYear(raw)), Int(IsoMonth(raw)), Int(IsoDay(raw)), Some(raw))
    else
      match Search(raw, 0, true, false)
      case None => DailyDate(Null, Null, Null, None)
      case Some(h) =>
        var day := DigitsValueOf(h.dayDigits);
        var year := DigitsValueOf(h.yearDigits);
        match MonthIndex(h.monthWord)
        case None => DailyDate(Int(year), Null, Int(day), None)
        case Some(i) => DailyDate(Int(year), Int(i + 1), Int(day), Some(IsoString(year, i + 1, day)))
  }

  /** `parseInt` of a captured run of digits. */
  function DigitsValueOf(s: string): nat
  {
    if AllDigits(s) then DigitsValue(s) else 0
  }

  /** `${year}-${pad2(month)}` when both are truthy. */
  function MonthKey(year: NumVal, monthNumber: NumVal): (r: Option<string>)
    ensures r.Some? <==> year.Truthy() && monthNumber.Truthy()
  {
    if monthNumber.Truthy() && year.Truthy() then Some(IntToString(year.v) + "-" + Pad2(IntToString(monthNumber.v)))
    else None
  }

  function NormalizeDaily(r: RawDaily, suffix: string): Report
  {
    var raw := OrElse(r.detailsDate, r.date);
    var id := if r.id != "" then CleanId(r.id)
              else DashSpaces(OrElse(r.name, "reporte")) + "-" + OrElse(raw, "no-date") + "-daily-" + suffix;
    var d := ParseDailyDate(raw);
    var dateKey := MonthKey(d.year, d.monthNumber);
    var month := if dateKey.Some? then MonthLabel(d.monthNumber.v) else "";
    var reportNumber := OrElse(OrElse(r.detailsReportNumber, r.reportNumber), "N/A");
    Report(
      id, Daily, OrElse(r.name, "Reporte Diario #" + reportNumber), r.summary, reportNumber,
      reportNumber, raw, r.detailsTopProduct,
      raw, if d.fullDateISO.Some? then d.fullDateISO.value else raw, month,
      d.monthNumber, d.year, d.day, dateKey, d.fullDateISO,
      if r.detailsTotalSales != 0 then r.detailsTotalSales else r.totalSales,
      if r.detailsBreadsSold != 0 then r.detailsBreadsSold else r.breadsSold,
      0, 0,
      d.fullDateISO.Some? && d.monthNumber.Truthy() && d.year.Truthy())
  }

  /* ---------- monthly and material reports ---------- */

  /** `type === 'monthly' ? 'Mensual' : 'Materia Prima'` */
  function KindLabel(k: Kind): string
  {
    if k == Monthly then "Mensual" else "Materia Prima"
  }

  /** `month.charAt(0).toUpperCase() + month.toLowerCase().slice(1)`, or the
      name of the month number when no month text is stored. */
  function PeriodMonthName(month: string, monthNumber: NumVal, year: NumVal): string
  {
    if month != "" then [UpperChar(month[0])] + Lower(month[1..])
    else if monthNumber.Truthy() && year.Truthy() then MonthLabel(monthNumber.v)
    else ""
  }

  function NormalizePeriodic(r: RawPeriodic, kind: Kind, suffix: string): Report
    requires kind != Daily
  {
    var monthNumber := Coerce(r.monthNumber);
    var year := Coerce(r.year);
    var month := PeriodMonthName(r.month, monthNumber, year);
    var dateKey := MonthKey(year, monthNumber);
    var displayDate := if dateKey.Some? then dateKey.value + "-01" else "N/A";
    var id := if r.id != "" then CleanId(r.id)
              else DashSpaces(OrElse(r.name, "reporte")) + "-" + (if dateKey.Some? then dateKey.value else "no-date")
                   + "-" + TypeName(kind) + "-" + suffix;
    var main := if kind == Monthly then r.totalSalesForMonth else r.totalCostOfRawMaterials;
    var secondary := if kind == Monthly then r.netProfitForMonth else r.mainIngredientCost;
    var reportNumber := OrElse(OrElse(r.detailsReportNumber, r.reportNumber), month + " " + year.ToText());
    Report(
      id, kind, OrElse(r.name, "Reporte " + KindLabel(kind) + " " + month + " " + year.ToText()), r.summary, reportNumber,
      r.detailsReportNumber, r.detailsDate, "",
      r.date, displayDate, month,
      monthNumber, year, Undefined, dateKey, None,
      0, 0, main, secondary,
      monthNumber.Truthy() && year.Truthy() && dateKey.Some?)
  }

  /* ---------- properties ---------- */

  /** A daily report's date in ISO form sets year, month and day from its
      digits and keeps the string as `fullDateISO`; the report is valid
      exactly when the month and year are not zero. */
  lemma DailyIsoDate(r: RawDaily, suffix: string)
    requires IsIsoShape(OrElse(r.detailsDate, r.date))
    ensures var raw := OrElse(r.detailsDate, r.date);
      var n := NormalizeDaily(r, suffix);
      && n.year == Int(IsoYear(raw)) && n.monthNumber == Int(IsoMonth(raw)) && n.day == Int(IsoDay(raw))
      && n.fullDateISO == Some(raw) && n.displayDate == raw
      && (n.isValid <==> IsoMonth(raw) != 0 && IsoYear(raw) != 0)
  {
  }

  /** A long-form date with a known month gives the zero-padded ISO date;
      an unknown month leaves month and `fullDateISO` unset and the report
      invalid. */
  lemma DailyLongDate(r: RawDaily, suffix: string)
    requires var raw := OrElse(r.detailsDate, r.date); raw != "" && !IsIsoShape(raw) && Search(raw, 0, true, false).Some?
    ensures var raw := OrElse(r.detailsDate, r.date);
      var h := Search(raw, 0, true, false).value;
      var n := NormalizeDaily(r, suffix);
      && n.day == Int(DigitsValueOf(h.dayDigits)) && n.year == Int(DigitsValueOf(h.yearDigits))
      && (MonthIndex(h.monthWord).Some? ==>
            var m := MonthIndex(h.monthWord).value + 1;
            n.monthNumber == Int(m) && n.fullDateISO == Some(IsoString(DigitsValueOf(h.yearDigits), m, DigitsValueOf(h.dayDigits))))
      && (MonthIndex(h.monthWord).None? ==> n.monthNumber == Null && n.fullDateISO == None && !n.isValid)
  {
  }

  /** A date string matching neither pattern leaves the report invalid. */
  lemma DailyNoDate(r: RawDaily, suffix: string)
    requires var raw := OrElse(r.detailsDate, r.date); !IsIsoShape(raw) && (raw == "" || Search(raw, 0, true, false).None?)
    ensures var n := NormalizeDaily(r, suffix);
      n.year == Null && n.monthNumber == Null && n.fullDateISO == None && n.dateKey == None && !n.isValid
  {
  }

  lemma LongDateNotIso(day: nat, monthIndex: nat, year: nat)
    requires 1 <= day <= 99 && monthIndex < 12 && 1000 <= year <= 9999
    ensures !IsIsoShape(LongDate(day, monthIndex, year)) && LongDate(day, monthIndex, year) != ""
  {
    NatToStringDigits(day);
    NatToStringDigits(year);
    MonthNameLetters(monthIndex);
    assert |LongDate(day, monthIndex, year)| > 10;
  }

  /** The same calendar day written "2025-07-01" or "1 de julio de 2025"
      normalises to the same year, month, day, `fullDateISO`, `dateKey` and
      validity. */
  lemma IsoAndLongFormsAgree(r: RawDaily, day: nat, monthIndex: nat, year: nat, suffix: string)
    requires 1 <= day <= 31 && monthIndex < 12 && 1000 <= year <= 9999
    ensures var iso := NormalizeDaily(r.(date := IsoString(year, monthIndex + 1, day), detailsDate := ""), suffix);
      var long := NormalizeDaily(r.(date := LongDate(day, monthIndex, year), detailsDate := ""), suffix);
      && iso.fullDateISO == long.fullDateISO == Some(IsoString(year, monthIndex + 1, day))
      && iso.year == long.year == Int(year)
      && iso.monthNumber == long.monthNumber == Int(monthIndex + 1)
      && iso.day == long.day == Int(day)
      && iso.dateKey == long.dateKey
      && iso.isValid && long.isValid
  {
    IsoRoundTrip(year, monthIndex + 1, day);
    LongDateNotIso(day, monthIndex, year);
    LongDateMatches(day, monthIndex, year, true, false);
    NatToStringDigits(day);
    NatToStringDigits(year);
    MonthNameLetters(monthIndex);
    MonthIndexOfName(monthIndex, MonthNames[monthIndex]);
    assert DigitsValueOf(NatToString(day)) == day;
    assert DigitsValueOf(NatToString(year)) == year;
  }

  /** Monthly and material reports: the month key exists exactly when month
      number and year are truthy, the display date is its first day or
      "N/A", and validity is the same condition. */
  lemma PeriodicDates(r: RawPeriodic, kind: Kind, suffix: string)
    requires kind != Daily
    ensures var n := NormalizePeriodic(r, kind, suffix);
      && n.monthNumber == Coerce(r.monthNumber) && n.year == Coerce(r.year)
      && (n.dateKey.Some? <==> n.monthNumber.Truthy() && n.year.Truthy())
      && (n.dateKey.Some? ==> n.dateKey.value == IntToString(n.year.v) + "-" + Pad2(IntToString(n.monthNumber.v))
                              && n.displayDate == n.dateKey.value + "-01")
      && (n.dateKey.None? ==> n.displayDate == "N/A")
      && (n.isValid <==> n.monthNumber.Truthy() && n.year.Truthy())
      && n.fullDateISO == None && n.kind == kind
  {
  }

  /** For a month in range and a four-digit year the display date is the ISO
      string of the month's first day. */
  lemma PeriodicDisplayDateIso(r: RawPeriodic, kind: Kind, suffix: string)
    requires kind != Daily
    requires Coerce(r.monthNumber).Int? && 1 <= Coerce(r.monthNumber).v <= 12
    requires Coerce(r.year).Int? && 1000 <= Coerce(r.year).v <= 9999
    ensures NormalizePeriodic(r, kind, suffix).displayDate == IsoString(Coerce(r.year).v, Coerce(r.monthNumber).v, 1)
  {
  }

  /** Metrics are chosen by kind; a report with a stored id keeps it minus
      the known prefix. */
  lemma PeriodicMetricsAndId(r: RawPeriodic, kind: Kind, suffix: string)
    requires kind != Daily
    ensures var n := NormalizePeriodic(r, kind, suffix);
      && (kind == Monthly ==> n.mainMetric == r.totalSalesForMonth && n.secondaryMetric == r.netProfitForMonth)
      && (kind == Material ==> n.mainMetric == r.totalCostOfRawMaterials && n.secondaryMetric == r.mainIngredientCost)
      && (r.id != "" ==> n.id == CleanId(r.id))
      && (r.name != "" ==> n.name == r.name)
  {
  }
}
