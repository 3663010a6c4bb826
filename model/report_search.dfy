/** The search box of the reports page: the tab's reports whose name,
    summary or report number contains the typed text, ignoring case. */
module ReportSearch {
  import opened Seqs
  import opened JsText
  import opened FavoriteReports

  /** The three texts searched; an absent one is `""`. */
  predicate Matches(m: Marked, term: string)
  {
    var t := Lower(term);
    Includes(Lower(m.report.name), t) || Includes(Lower(m.report.summary), t)
    || Includes(Lower(m.report.detailsReportNumber), t)
  }

  function MatchesTerm(term: string): Marked -> bool
  {
    (m: Marked) => Matches(m, term)
  }

  /** `filteredReports` */
  function Filtered(reports: seq<Marked>, term: string): seq<Marked>
  {
    Filter(reports, MatchesTerm(term))
  }

  /** The result keeps the list's order and holds exactly the matching
      reports, each as often as the list does; the empty term keeps every
      report. */
  lemma FilteredSpec(reports: seq<Marked>, term: string)
    ensures Subseq(Filtered(reports, term), reports)
    ensures forall m :: m in Filtered(reports, term) <==> m in reports && Matches(m, term)
    ensures forall m :: multiset(Filtered(reports, term))[m] == if Matches(m, term) then multiset(reports)[m] else 0
    ensures term == "" ==> Filtered(reports, term) == reports
  {
    FilterSubseq(reports, MatchesTerm(term));
    FilterMultiset(reports, MatchesTerm(term));
    forall m
      ensures m in Filtered(reports, term) <==> m in reports && Matches(m, term)
    {
      FilterMembership(reports, MatchesTerm(term), m);
    }
    if term == "" {
      forall i | 0 <= i < |reports|
        ensures Matches(reports[i], term)
      {
        EmptyIncluded(Lower(reports[i].report.name));
      }
      FilterKeepsAll(reports, MatchesTerm(term));
    }
  }

  /** The term's case does not matter: any casing of it finds the same
      reports. */
  lemma {:induction false} TermCaseIgnored(reports: seq<Marked>, term: string)
    ensures Filtered(reports, term) == Filtered(reports, Lower(term))
  {
    if reports != [] {
      TermCaseIgnored(reports[..|reports| - 1], term);
      assert Lower(Lower(term)) == Lower(term);
    }
  }

  /** Two terms that lower-case alike find the same reports. */
  lemma SameLowerSameResults(reports: seq<Marked>, a: string, b: string)
    requires Lower(a) == Lower(b)
    ensures Filtered(reports, a) == Filtered(reports, b)
  {
    TermCaseIgnored(reports, a);
    TermCaseIgnored(reports, b);
  }

  /** Accented capitals are folded too: "MAÍZ" finds a report named
      "Pan de maíz". */
  lemma LowerAccentedTerm()
    ensures Lower("MAÍZ") == "maíz" == Lower("maíz")
  {
    assert LowerChar('M') == 'm' && LowerChar('A') == 'a';
    assert LowerChar('Í') == 'í' && LowerChar('Z') == 'z';
    assert forall i :: 0 <= i < |"maíz"| ==> !IsCapital("maíz"[i]);
  }

  lemma LowerAccentedName()
    ensures Lower("Pan de maíz") == "pan de maíz"
  {
    assert LowerChar('P') == 'p';
    assert forall i :: 1 <= i < |"Pan de maíz"| ==> !IsCapital("Pan de maíz"[i]);
  }

  lemma AccentedTermFound(m: Marked)
    requires m.report.name == "Pan de maíz"
    ensures Lower("MAÍZ") == "maíz" == Lower("maíz")
    ensures Matches(m, "MAÍZ") && Matches(m, "maíz")
  {
    LowerAccentedTerm();
    LowerAccentedName();
    assert OccursAt("pan de maíz", "maíz", 7) by {
      assert "pan de maíz"[7..11] == "maíz";
    }
  }
}
