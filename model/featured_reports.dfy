/** The featured-reports popover: the favourite reports, newest first and
    then by name, one per `"<id>-<type>"` key. */
module FeaturedReports {
  import opened Wrappers
  import opened Seqs
  import opened JsText
  import opened Calendar
  import opened StableSort
  import opened FirstWins
  import opened Distinct
  import opened Reports
  import opened FavoriteReports

  /** `new Date(0)`: 1 January 1970. */
  const Epoch: int := DayKey(Date(1970, 1, 1))

  /** `getDate(report)` as a day key, `None` for an invalid date (NaN time):
      a daily report's own date string, the first of the month for the
      other kinds, the epoch when the date is missing. */
  function FeaturedDate(m: Marked): Option<int>
  {
    var r := m.report;
    if r.kind == Daily then (if r.date == "" then Some(Epoch) else IsoDateKey(r.date))
    else if r.year.Truthy() && r.monthNumber.Truthy() then Some(DayKey(Construct(r.year.v, r.monthNumber.v - 1, 1)))
    else Some(Epoch)
  }

  /** The comparator: the later date first, equal dates by name; a NaN
      time difference counts as a tie. */
  function NewerThenName(): (Marked, Marked) -> bool
  {
    (a: Marked, b: Marked) =>
      var ka, kb := FeaturedDate(a), FeaturedDate(b);
      if ka.Some? && kb.Some? then ka.value > kb.value || (ka.value == kb.value && StrBefore(a.report.name, b.report.name))
      else true
  }

  /** `uniqueAndSortedFavoriteReports` */
  function Featured(favs: seq<Marked>): seq<Marked>
  {
    if favs == [] then [] else Dedup(Sort(favs, NewerThenName()), MarkedKey, Always)
  }

  /** The memo body: sort a copy, then keep the first report of each key. */
  method UniqueAndSorted(favs: seq<Marked>) returns (out: seq<Marked>)
    ensures out == Featured(favs)
  {
    if |favs| == 0 {
      return [];
    }
    var sorted := Sort(favs, NewerThenName());
    out := DedupLoop(sorted, MarkedKey, Always);
  }

  /** With every date valid the comparator is consistent. */
  lemma NewerThenNameConsistent(s: seq<Marked>)
    requires forall i :: 0 <= i < |s| ==> FeaturedDate(s[i]).Some?
    ensures ConsistentOn(s, NewerThenName())
  {
    var before := NewerThenName();
    StrBeforeConsistent();
    forall a | a in s
      ensures FeaturedDate(a).Some?
    {
      var i :| 0 <= i < |s| && s[i] == a;
    }
    forall a, b | a in s && b in s
      ensures before(a, b) || before(b, a)
    {
      assert StrBefore(a.report.name, b.report.name) || StrBefore(b.report.name, a.report.name);
    }
    forall a, b, c | a in s && b in s && c in s && before(a, b) && before(b, c)
      ensures before(a, c)
    {
      var x, y, z := a.report.name, b.report.name, c.report.name;
      assert StrBefore(x, y) && StrBefore(y, z) ==> StrBefore(x, z);
    }
  }

  /** Every report has a valid date. */
  predicate AllDated(favs: seq<Marked>)
  {
    forall i :: 0 <= i < |favs| ==> FeaturedDate(favs[i]).Some?
  }

  /** Later dates first, equal dates in name order. */
  predicate NewestThenByName(out: seq<Marked>)
  {
    forall i, j :: 0 <= i < j < |out| ==>
      var ki, kj := FeaturedDate(out[i]), FeaturedDate(out[j]);
      ki.Some? && kj.Some?
      && (ki.value > kj.value || (ki.value == kj.value && !StrLt(out[j].report.name, out[i].report.name)))
  }

  /** No favourites, no entries; otherwise one entry per key of the input,
      each the first of its key in sorted order; and, when every date is
      valid, later dates come first and equal dates are in name order. */
  lemma FeaturedSpec(favs: seq<Marked>)
    ensures favs == [] ==> Featured(favs) == []
    ensures DistinctKeys(Featured(favs), MarkedKey)
    ensures KeysOf(Featured(favs), MarkedKey) == KeysOf(favs, MarkedKey)
    ensures forall x :: x in Featured(favs) ==>
      x in favs && FirstWith(Sort(favs, NewerThenName()), MarkedKey(x), MarkedKey, Always) == Some(x)
    ensures AllDated(favs) ==> NewestThenByName(Featured(favs))
  {
    if favs != [] {
      SortThenDedup(favs, NewerThenName(), MarkedKey);
      if AllDated(favs) {
        FeaturedOrdered(favs);
      }
    }
  }

  lemma FeaturedOrdered(favs: seq<Marked>)
    requires favs != [] && AllDated(favs)
    ensures NewestThenByName(Featured(favs))
  {
    SortThenDedup(favs, NewerThenName(), MarkedKey);
    NewerThenNameConsistent(favs);
    var out := Featured(favs);
    assert SortedBy(out, NewerThenName());
    forall i, j | 0 <= i < j < |out|
      ensures FeaturedDate(out[i]).Some? && FeaturedDate(out[j]).Some?
    {
      assert out[i] in favs && out[j] in favs;
      var p :| 0 <= p < |favs| && favs[p] == out[i];
      var q :| 0 <= q < |favs| && favs[q] == out[j];
    }
  }

  /** A monthly or material report of a month in range dates from the first
      day of that month. */
  lemma PeriodicFeaturedDate(m: Marked)
    requires m.report.kind != Daily
    requires m.report.year.Int? && 1000 <= m.report.year.v
    requires m.report.monthNumber.Int? && 1 <= m.report.monthNumber.v <= 12
    ensures FeaturedDate(m) == Some(DayKey(Date(m.report.year.v, m.report.monthNumber.v, 1)))
  {
    ConstructValid(m.report.year.v, m.report.monthNumber.v - 1, 1);
  }
}
