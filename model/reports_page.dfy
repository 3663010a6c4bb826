/** The reports page: the favourite-annotated reports split into the three
    type tabs, the tab on show and the selected report. */
module ReportsPage {
  import opened Wrappers
  import opened Seqs
  import opened JsText
  import opened Reports
  import opened FavoriteReports

  /** `reportsByType`: one list per tab. */
  datatype Buckets = Buckets(daily: seq<Marked>, monthly: seq<Marked>, rawMaterial: seq<Marked>)

  /** The tab a report type is shown under: material reports under `'rawMaterial'`. */
  function TabOf(k: Kind): string
  {
    match k
    case Daily => "daily"
    case Monthly => "monthly"
    case Material => "rawMaterial"
  }

  /** `reportsByType[name] || []` */
  function Tab(b: Buckets, name: string): seq<Marked>
  {
    if name == "daily" then b.daily
    else if name == "monthly" then b.monthly
    else if name == "rawMaterial" then b.rawMaterial
    else []
  }

  /** The three in-order selections by type. */
  function Partitioned(reports: seq<Marked>): Buckets
  {
    Buckets(Filter(reports, OfKind(Daily)), Filter(reports, OfKind(Monthly)), Filter(reports, OfKind(Material)))
  }

  /** The `for` loop pushing each report onto the list its type selects. */
  method Partition(reports: seq<Marked>) returns (b: Buckets)
    ensures b == Partitioned(reports)
  {
    if |reports| == 0 {
      return Buckets([], [], []);
    }
    var daily, monthly, raw := [], [], [];
    for i := 0 to |reports|
      invariant daily == Filter(reports[..i], OfKind(Daily))
      invariant monthly == Filter(reports[..i], OfKind(Monthly))
      invariant raw == Filter(reports[..i], OfKind(Material))
    {
      assert reports[..i + 1][..i] == reports[..i];
      match reports[i].report.kind
      case Daily =>
        daily := daily + [reports[i]];
      case Monthly =>
        monthly := monthly + [reports[i]];
      case Material =>
        raw := raw + [reports[i]];
    }
    assert reports[..|reports|] == reports;
    b := Buckets(daily, monthly, raw);
  }

  lemma {:induction false} PartitionSizes(reports: seq<Marked>)
    ensures var b := Partitioned(reports); |b.daily| + |b.monthly| + |b.rawMaterial| == |reports|
  {
    if reports != [] {
      PartitionSizes(reports[..|reports| - 1]);
    }
  }

  /** Each tab holds, in their order, exactly the reports whose type it
      shows; an unknown tab name holds nothing; together the tabs hold
      every report once. */
  lemma PartitionSpec(reports: seq<Marked>)
    ensures var b := Partitioned(reports);
      && (forall name, m :: m in Tab(b, name) <==> m in reports && TabOf(m.report.kind) == name)
      && (forall name :: Subseq(Tab(b, name), reports))
      && |b.daily| + |b.monthly| + |b.rawMaterial| == |reports|
  {
    var b := Partitioned(reports);
    PartitionSizes(reports);
    forall name, m
      ensures m in Tab(b, name) <==> m in reports && TabOf(m.report.kind) == name
    {
      TabMembership(reports, name, m);
    }
    FilterSubseq(reports, OfKind(Daily));
    FilterSubseq(reports, OfKind(Monthly));
    FilterSubseq(reports, OfKind(Material));
    assert Subseq([], reports);
  }

  lemma TabMembership(reports: seq<Marked>, name: string, m: Marked)
    ensures m in Tab(Partitioned(reports), name) <==> m in reports && TabOf(m.report.kind) == name
  {
    FilterMembership(reports, OfKind(Daily), m);
    FilterMembership(reports, OfKind(Monthly), m);
    FilterMembership(reports, OfKind(Material), m);
  }

  /** The effect's test: nothing is selected, or the selection's type is
      neither the tab's name nor, for `'rawMaterial'`, `'material'`. */
  predicate NeedsUpdate(selected: Option<Marked>, currentType: string)
  {
    selected.None?
    || (var t := TypeName(selected.value.report.kind);
        t != currentType && t != (if currentType == "rawMaterial" then "material" else currentType))
  }

  function IdIs(id: string): Marked -> bool
  {
    (m: Marked) => m.report.id == id
  }

  /** The report the effect selects: the stored id's report when the tab
      has it, else the tab's first report, else none. */
  function Initial(cur: seq<Marked>, savedId: string): (r: Option<Marked>)
    ensures r.None? <==> cur == []
    ensures r.Some? ==> r.value in cur
    ensures (savedId == "" || forall i :: 0 <= i < |cur| ==> cur[i].report.id != savedId) && cur != [] ==> r == Some(cur[0])
    ensures savedId != "" && (exists i :: 0 <= i < |cur| && cur[i].report.id == savedId) ==>
      exists i :: 0 <= i < |cur| && r == Some(cur[i]) && cur[i].report.id == savedId
        && forall j :: 0 <= j < i ==> cur[j].report.id != savedId
  {
    var found := if savedId != "" then Find(cur, IdIs(savedId)) else None;
    if found.Some? then Some(cur[found.value])
    else if |cur| > 0 then Some(cur[0])
    else None
  }

  /** A report of the tab on show never needs replacing: once the effect
      has selected from the tab, running it again changes nothing. */
  lemma TabSelectionSettles(reports: seq<Marked>, currentType: string, m: Marked)
    requires m in Tab(Partitioned(reports), currentType)
    ensures !NeedsUpdate(Some(m), currentType)
  {
    PartitionSpec(reports);
  }

  class Page {
    const reports: seq<Marked>
    const tabs: Buckets
    var currentType: string
    var selected: Option<Marked>

    ghost predicate Valid()
      reads this
    {
      tabs == Partitioned(reports)
    }

    /** The selection, when there is one, is a report of the tab on show. */
    ghost predicate Coherent()
      reads this
    {
      selected.Some? ==> selected.value in Tab(tabs, currentType)
    }

    /** The page mounts on the stored tab name, `'daily'` when none is
        stored, with nothing selected. */
    constructor (all: seq<Marked>, storedType: string)
      ensures reports == all && Valid()
      ensures currentType == OrElse(storedType, "daily") && selected.None?
    {
      var b := Partition(all);
      reports, tabs := all, b;
      currentType := OrElse(storedType, "daily");
      selected := None;
    }

    /** `handleReportTypeChange`: show the tab and select its first report. */
    method ChangeType(newType: string)
      requires Valid()
      modifies this
      ensures currentType == newType
      ensures selected == (if Tab(tabs, newType) == [] then None else Some(Tab(tabs, newType)[0]))
      ensures Valid() && Coherent()
    {
      currentType := newType;
      var t := Tab(tabs, newType);
      var next := if |t| > 0 then Some(t[0]) else None;
      if next != selected {
        selected := next;
      }
    }

    /** `handleSelectReport`: selecting the selected report does nothing;
        otherwise the report is selected and its tab shown. */
    method Select(report: Option<Marked>)
      requires Valid()
      modifies this
      ensures report == old(selected) ==> selected == old(selected) && currentType == old(currentType)
      ensures report != old(selected) ==>
        selected == report && currentType == (if report.Some? then TabOf(report.value.report.kind) else old(currentType))
      ensures Valid()
      ensures (report.Some? ==> report.value in reports) && old(Coherent()) ==> Coherent()
    {
      if report == selected {
        return;
      }
      selected := report;
      if report.Some? {
        PartitionSpec(reports);
        var newType := TabOf(report.value.report.kind);
        if newType != currentType {
          currentType := newType;
        }
      }
    }

    /** The initial-selection effect, with the stored id as a parameter
        (`""` when none is stored). */
    method Initialize(loading: bool, savedId: string)
      requires Valid()
      modifies this
      ensures currentType == old(currentType) && Valid()
      ensures loading || reports == [] || !NeedsUpdate(old(selected), currentType) ==> selected == old(selected)
      ensures !loading && reports != [] && NeedsUpdate(old(selected), currentType) ==>
        selected == Initial(Tab(tabs, currentType), savedId) && Coherent()
    {
      if loading || |reports| == 0 {
        return;
      }
      if NeedsUpdate(selected, currentType) {
        var cur := Tab(tabs, currentType);
        var next: Option<Marked> := None;
        if savedId != "" {
          var i := Find(cur, IdIs(savedId));
          if i.Some? {
            next := Some(cur[i.value]);
          }
        }
        if next.None? && |cur| > 0 {
          next := Some(cur[0]);
        }
        if next != selected {
          selected := next;
        }
      }
    }
  }
}
