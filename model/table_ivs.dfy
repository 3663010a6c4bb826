/** The report table of the inventory view: the date column's text, the
    previous/next page buttons and the "Mostrando a - b de n" label. */
module TableIVS {
  import opened Wrappers
  import opened Seqs
  import opened JsText
  import opened Reports
  import opened Paging
  import opened Calendar
  import opened SpanishDates

  /** `s.split(sep)` with a one-character separator. */
  function Split(s: string, sep: char): (parts: seq<string>)
    ensures |parts| >= 1
    decreases |s|
  {
    match IndexOf(s, sep)
    case None => [s]
    case Some(i) => [s[..i]] + Split(s[i + 1..], sep)
  }

  /** The pieces of a split, joined back with the separator, give the
      string; no piece holds the separator. */
  lemma {:induction false} SplitJoin(s: string, sep: char)
    ensures Join(Split(s, sep), sep) == s
    ensures forall k :: 0 <= k < |Split(s, sep)| ==> sep !in Split(s, sep)[k]
    decreases |s|
  {
    match IndexOf(s, sep)
    case None =>
    case Some(i) =>
      SplitJoin(s[i + 1..], sep);
      var rest := Split(s[i + 1..], sep);
      assert Split(s, sep) == [s[..i]] + rest;
      assert s == s[..i] + [sep] + s[i + 1..];
      assert sep !in s[..i] by {
        forall j | 0 <= j < i
          ensures s[..i][j] != sep
        {
        }
      }
  }

  function Join(parts: seq<string>, sep: char): string
    requires |parts| >= 1
  {
    if |parts| == 1 then parts[0] else parts[0] + [sep] + Join(parts[1..], sep)
  }

  /** Splitting pieces joined by a separator none of them holds gives the
      pieces back. */
  lemma {:induction false} SplitOfJoin(parts: seq<string>, sep: char)
    requires |parts| >= 1
    requires forall k :: 0 <= k < |parts| ==> sep !in parts[k]
    ensures Split(Join(parts, sep), sep) == parts
    decreases |parts|
  {
    var s := Join(parts, sep);
    var p := parts[0];
    if |parts| == 1 {
      assert IndexOf(s, sep).None?;
    } else {
      var rest := Join(parts[1..], sep);
      assert s == p + [sep] + rest;
      assert s[|p|] == sep;
      assert forall j :: 0 <= j < |p| ==> s[j] == p[j];
      assert IndexOf(s, sep) == Some(|p|);
      assert s[..|p|] == p;
      assert s[|p| + 1..] == rest;
      SplitOfJoin(parts[1..], sep);
    }
  }

  /** A destructured element of the split: a missing one is `undefined`,
      which a template literal writes out. */
  function Part(parts: seq<string>, k: nat): string
  {
    if k < |parts| then parts[k] else "undefined"
  }

  /** `formatNormalizedDate`: a daily report with day, month and year shows
      "d de M de y", otherwise its ISO date as "D/M/Y"; other reports show
      `details.date`; anything else shows "N/A". */
  function FormatNormalizedDate(r: Report): (text: string)
    ensures text != ""
  {
    if r.kind == Daily then
      if r.day.Truthy() && r.month != "" && r.year.Truthy() then
        r.day.ToText() + " de " + r.month + " de " + r.year.ToText()
      else if r.fullDateISO.Some? && r.fullDateISO.value != "" then
        var parts := Split(r.fullDateISO.value, '-');
        Part(parts, 2) + "/" + Part(parts, 1) + "/" + Part(parts, 0)
      else "N/A"
    else if r.detailsDate != "" then r.detailsDate
    else "N/A"
  }

  /** A daily report that lacks day, month or year but has an ISO date
      "Y-M-D" shows "D/M/Y". */
  lemma IsoFallback(r: Report, y: string, m: string, d: string)
    requires r.kind == Daily && !(r.day.Truthy() && r.month != "" && r.year.Truthy())
    requires r.fullDateISO == Some(y + "-" + m + "-" + d)
    requires '-' !in y && '-' !in m && '-' !in d
    ensures FormatNormalizedDate(r) == d + "/" + m + "/" + y
  {
    assert Join([y, m, d], '-') == y + "-" + m + "-" + d by {
      assert Join([y, m, d][1..], '-') == m + "-" + d by {
        assert [y, m, d][1..][1..] == [d];
      }
    }
    SplitOfJoin([y, m, d], '-');
  }

  /** A stored daily report dated "YYYY-MM-DD" with non-zero parts shows
      its day, the Spanish month name and its year, without leading zeros. */
  lemma IsoDailyShowsLongDate(r: RawDaily, suffix: string)
    requires IsIsoShape(OrElse(r.detailsDate, r.date))
    requires var raw := OrElse(r.detailsDate, r.date);
      IsoYear(raw) != 0 && IsoMonth(raw) != 0 && IsoDay(raw) != 0
    ensures var raw := OrElse(r.detailsDate, r.date);
      FormatNormalizedDate(NormalizeDaily(r, suffix))
      == NatToString(IsoDay(raw)) + " de " + MonthLabel(IsoMonth(raw)) + " de " + NatToString(IsoYear(raw))
  {
    var raw := OrElse(r.detailsDate, r.date);
    DailyIsoDate(r, suffix);
    var n := NormalizeDaily(r, suffix);
    assert n.month == MonthLabel(IsoMonth(raw));
    assert MonthNames[(IsoMonth(raw) - 1) % 12] != "";
  }

  /** Monthly and material reports show `details.date` when they carry
      one and "N/A" otherwise, whatever their other fields. */
  lemma PeriodicDateText(r: Report)
    requires r.kind != Daily
    ensures r.detailsDate != "" ==> FormatNormalizedDate(r) == r.detailsDate
    ensures r.detailsDate == "" ==> FormatNormalizedDate(r) == "N/A"
  {
  }

  /** `setCurrentPage(prev => Math.max(1, prev - 1))` */
  function PreviousPage(page: int): (r: int)
    ensures r >= 1
  {
    if page - 1 > 1 then page - 1 else 1
  }

  /** `setCurrentPage(prev => Math.min(totalPages, prev + 1))` */
  function NextPage(page: int, totalPages: int): (r: int)
    ensures r <= totalPages
  {
    if page + 1 < totalPages then page + 1 else totalPages
  }

  /** From a page in range the buttons stay in range: Previous goes back
      one page unless on the first, Next forward one unless on the last. */
  lemma PageButtonsInRange(page: int, totalPages: int)
    requires 1 <= page <= totalPages
    ensures 1 <= PreviousPage(page) <= page && page <= NextPage(page, totalPages) <= totalPages
    ensures PreviousPage(page) == page <==> page == 1
    ensures NextPage(page, totalPages) == page <==> page == totalPages
    ensures page > 1 ==> PreviousPage(page) == page - 1
    ensures page < totalPages ==> NextPage(page, totalPages) == page + 1
  {
  }

  /** "Mostrando {from} - {to}": `startIndex + 1` (0 for an empty page)
      and `startIndex + currentReports.length`. */
  function RangeLabel(startIndex: int, count: nat): (int, int)
  {
    (if count > 0 then startIndex + 1 else 0, startIndex + count)
  }

  /** On a page in range the label names the 1-based positions of the
      first and last rows shown, which are exactly the rows of the page. */
  lemma RangeLabelSpec<T>(s: seq<T>, page: int, size: nat)
    requires size > 0 && 1 <= page <= PageCount(|s|, size)
    ensures var shown := PageOf(s, page, size);
      var (from, to) := RangeLabel(PageStart(page, size), |shown|);
      && 1 <= from <= to <= |s|
      && to - from + 1 == |shown|
      && shown == s[from - 1..to]
  {
    var shown := PageOf(s, page, size);
    PageOfSpec(s, page, size);
    var start := PageStart(page, size);
    MulLe(0, page - 1, size);
    assert 0 <= start;
    assert shown != [];
    assert start + |shown| <= |s| by {
      assert start + (|shown| - 1) < |s|;
    }
    assert shown == s[start..start + |shown|];
  }
}
