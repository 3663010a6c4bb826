/** The home page's list of latest favourites: the favourite reports,
    newest first, one per `"<id>-<type>"` key. */
module LatestReports {
  import opened Wrappers
  import opened Seqs
  import opened JsText
  import opened Calendar
  import opened StableSort
  import opened FirstWins
  import opened Distinct
  import opened FavoriteReports

  /** `new Date(a.date || a.details?.date)` as a day key, `None` for NaN. */
  function LatestDate(m: Marked): Option<int>
  {
    IsoDateKey(OrElse(m.report.date, m.report.detailsDate))
  }

  /** The favourites, sorted newest first (`dateB - dateA`). */
  function SortedFavorites(reports: seq<Marked>): seq<Marked>
  {
    Sort(Filter(reports, IsFavorite), OptKeyDesc(LatestDate))
  }

  /** `favoriteReports` */
  function Latest(reports: seq<Marked>): seq<Marked>
  {
    Dedup(SortedFavorites(reports), MarkedKey, Always)
  }

  /** The memo body: filter, sort, then the first-wins loop. */
  method LatestFavorites(reports: seq<Marked>) returns (out: seq<Marked>)
    ensures out == Latest(reports)
  {
    var sorted := Sort(Filter(reports, IsFavorite), OptKeyDesc(LatestDate));
    out := DedupLoop(sorted, MarkedKey, Always);
  }

  /** Only favourites appear, each favourite key exactly once, each entry
      the first of its key after sorting. */
  lemma LatestSpec(reports: seq<Marked>)
    ensures forall x :: x in Latest(reports) ==> x in reports && x.isFavorite
    ensures DistinctKeys(Latest(reports), MarkedKey)
    ensures KeysOf(Latest(reports), MarkedKey) == KeysOf(Filter(reports, IsFavorite), MarkedKey)
    ensures forall x :: x in Latest(reports) ==> FirstWith(SortedFavorites(reports), MarkedKey(x), MarkedKey, Always) == Some(x)
  {
    var favs := Filter(reports, IsFavorite);
    SortThenDedup(favs, OptKeyDesc(LatestDate), MarkedKey);
    forall x | x in favs
      ensures x in reports && x.isFavorite
    {
      FilterMembership(reports, IsFavorite, x);
    }
  }

  /** When every date is valid the entries go from the latest date to the
      earliest. */
  lemma LatestNewestFirst(reports: seq<Marked>)
    requires AllKeyed(reports, LatestDate)
    ensures NonIncreasing(Latest(reports), LatestDate)
  {
    OptKeyDescDedup(reports, IsFavorite, LatestDate, MarkedKey);
    assert Latest(reports) == Dedup(Sort(Filter(reports, IsFavorite), OptKeyDesc(LatestDate)), MarkedKey, Always);
  }
}
