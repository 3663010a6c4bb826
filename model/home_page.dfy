/** The home page: the report on display, kept in step with the annotated
    report list, and the daily reports its widgets receive. */
module HomePage {
  import opened Wrappers
  import opened Seqs
  import opened Reports
  import opened FavoriteReports

  /** `reports.find(r => r.isFavorite) || reports[0] || null` */
  function Fallback(reports: seq<Marked>): (r: Option<Marked>)
    ensures r.None? <==> reports == []
    ensures (exists i :: 0 <= i < |reports| && reports[i].isFavorite) ==>
      exists i :: 0 <= i < |reports| && r == Some(reports[i]) && reports[i].isFavorite
        && forall j :: 0 <= j < i ==> !reports[j].isFavorite
    ensures reports != [] && (forall i :: 0 <= i < |reports| ==> !reports[i].isFavorite) ==> r == Some(reports[0])
  {
    match Find(reports, IsFavorite)
    case Some(i) => Some(reports[i])
    case None => if |reports| > 0 then Some(reports[0]) else None
  }

  /** `r => r.id === d.id && r.type === d.type` */
  function SameReport(d: Marked): Marked -> bool
  {
    (m: Marked) => m.report.id == d.report.id && m.report.kind == d.report.kind
  }

  /** The report the effect leaves on display: none for an empty list;
      the first favourite (else the first report) when nothing was shown;
      the list's first report with the shown report's id and type when
      there is one, the fallback otherwise. */
  function Reconciled(reports: seq<Marked>, displayed: Option<Marked>): (r: Option<Marked>)
    ensures r.None? <==> reports == []
    ensures r.Some? ==> r.value in reports
    ensures displayed.None? ==> r == Fallback(reports)
    ensures displayed.Some? && (exists i :: 0 <= i < |reports| && SameReport(displayed.value)(reports[i])) ==>
      exists i :: 0 <= i < |reports| && r == Some(reports[i]) && SameReport(displayed.value)(reports[i])
        && forall j :: 0 <= j < i ==> !SameReport(displayed.value)(reports[j])
    ensures displayed.Some? && (forall i :: 0 <= i < |reports| ==> !SameReport(displayed.value)(reports[i])) ==>
      r == Fallback(reports)
  {
    if |reports| == 0 then None
    else if displayed.None? then Fallback(reports)
    else match Find(reports, SameReport(displayed.value))
      case Some(i) => Some(reports[i])
      case None => Fallback(reports)
  }

  /** Flags read from one favourites set: reports with the same id and
      type are both favourites or both not. */
  ghost predicate FlagsAgree(reports: seq<Marked>)
  {
    forall i, j :: 0 <= i < |reports| && 0 <= j < |reports| && SameReport(reports[i])(reports[j]) ==>
      reports[i].isFavorite == reports[j].isFavorite
  }

  /** The annotated list has agreeing flags. */
  lemma WithFavoritesAgree(reports: Option<seq<Report>>, favs: seq<string>)
    ensures FlagsAgree(WithFavorites(reports, favs))
  {
    var m := WithFavorites(reports, favs);
    forall i, j | 0 <= i < |m| && 0 <= j < |m| && SameReport(m[i])(m[j])
      ensures m[i].isFavorite == m[j].isFavorite
    {
      assert FavKey(m[i].report) == FavKey(m[j].report);
    }
  }

  /** The displayed report is at a position with no earlier report of the
      same id and type. */
  lemma ReconciledIsFirst(reports: seq<Marked>, displayed: Option<Marked>) returns (k: nat)
    requires FlagsAgree(reports) && reports != []
    ensures k < |reports| && Reconciled(reports, displayed) == Some(reports[k])
    ensures forall j :: 0 <= j < k ==> !SameReport(reports[k])(reports[j])
  {
    var found := if displayed.Some? then Find(reports, SameReport(displayed.value)) else None;
    if found.Some? {
      k := found.value;
    } else {
      match Find(reports, IsFavorite)
      case Some(i) =>
        k := i;
        forall j | 0 <= j < k
          ensures !SameReport(reports[k])(reports[j])
        {
          assert !IsFavorite(reports[j]);
        }
      case None =>
        k := 0;
    }
  }

  /** Once the effect has run, running it again on the same list changes
      nothing: the effect settles after one round. */
  lemma ReconcileSettles(reports: seq<Marked>, displayed: Option<Marked>)
    requires FlagsAgree(reports)
    ensures Reconciled(reports, Reconciled(reports, displayed)) == Reconciled(reports, displayed)
  {
    if reports != [] {
      var k := ReconciledIsFirst(reports, displayed);
      var p := SameReport(reports[k]);
      assert p(reports[k]);
      var i := Find(reports, p);
      assert i.Some? && i.value <= k;
    }
  }

  /** `dailyReportsForComponents`: the daily reports in list order. */
  lemma DailyForComponents(reports: seq<Marked>)
    ensures Subseq(Filter(reports, OfKind(Daily)), reports)
    ensures forall m :: m in Filter(reports, OfKind(Daily)) <==> m in reports && m.report.kind == Daily
    ensures forall m :: multiset(Filter(reports, OfKind(Daily)))[m]
                        == if m.report.kind == Daily then multiset(reports)[m] else 0
  {
    FilterSubseq(reports, OfKind(Daily));
    FilterMultiset(reports, OfKind(Daily));
    forall m
      ensures m in Filter(reports, OfKind(Daily)) <==> m in reports && m.report.kind == Daily
    {
      FilterMembership(reports, OfKind(Daily), m);
    }
  }

  class Home {
    var displayed: Option<Marked>

    constructor ()
      ensures displayed.None?
    {
      displayed := None;
    }

    /** The `displayedReport` effect. */
    method Reconcile(reports: seq<Marked>)
      modifies this
      ensures displayed == Reconciled(reports, old(displayed))
    {
      if |reports| > 0 {
        if displayed.None? {
          var i := Find(reports, IsFavorite);
          displayed := if i.Some? then Some(reports[i.value]) else Some(reports[0]);
        } else {
          var u := Find(reports, SameReport(displayed.value));
          if u.Some? {
            displayed := Some(reports[u.value]);
          } else {
            var i := Find(reports, IsFavorite);
            displayed := if i.Some? then Some(reports[i.value]) else Some(reports[0]);
          }
        }
      } else if displayed.Some? {
        displayed := None;
      }
    }
  }
}
