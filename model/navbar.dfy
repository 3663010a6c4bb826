/** The navigation bar's report search: an index from lower-case terms to
    the report fields they come from, the ranked suggestions for a query,
    and the keyboard and submit handling of the suggestion list. */
module NavBar {
  import opened Wrappers
  import opened Seqs
  import opened JsText
  import opened StableSort
  import opened FirstWins
  import opened Distinct
  import opened Reports

  /* ---------- words ---------- */

  /** End of the run of non-space characters starting at `p`. */
  function RunEnd(s: string, p: nat): (e: nat)
    requires p <= |s|
    ensures p <= e <= |s|
    ensures forall i :: p <= i < e ==> !IsSpace(s[i])
    ensures e < |s| ==> IsSpace(s[e])
    decreases |s| - p
  {
    if p == |s| || IsSpace(s[p]) then p else RunEnd(s, p + 1)
  }

  /** `s.split(/\s+/)` without the empty pieces at either end. */
  function Words(s: string): (ws: seq<string>)
    ensures forall i :: 0 <= i < |ws| ==> ws[i] != [] && forall k :: 0 <= k < |ws[i]| ==> !IsSpace(ws[i][k])
    decreases |s|
  {
    if s == [] then []
    else if IsSpace(s[0]) then Words(s[1..])
    else
      var e := RunEnd(s, 0);
      [s[..e]] + Words(s[e..])
  }

  /** A value with no white space is a single word. */
  lemma WordsOfOneWord(s: string)
    requires s != [] && forall k :: 0 <= k < |s| ==> !IsSpace(s[k])
    ensures Words(s) == [s]
  {
    RunEndAll(s, 0);
    assert !IsSpace(s[0]);
    assert s[..|s|] == s;
    assert Words(s[|s|..]) == [];
    assert Words(s) == [s[..|s|]] + Words(s[|s|..]);
  }

  lemma {:induction false} RunEndAll(s: string, p: nat)
    requires p <= |s| && forall k :: p <= k < |s| ==> !IsSpace(s[k])
    ensures RunEnd(s, p) == |s|
    decreases |s| - p
  {
    if p < |s| {
      RunEndAll(s, p + 1);
    }
  }

  /* ---------- the index ---------- */

  /** One indexed occurrence: the report, the field it comes from and the
      field's text. */
  datatype Match = Match(report: Report, field: string, matchText: string)

  /** One `addToIndex(term)` call. */
  datatype Posting = Posting(term: string, m: Match)

  /** A `Map` from terms to match lists; `terms` is its key order. */
  datatype Index = Index(terms: seq<string>, entries: map<string, seq<Match>>)

  const EmptyIndex := Index([], map[])

  ghost predicate WellFormed(idx: Index)
  {
    forall t :: t in idx.terms <==> t in idx.entries
  }

  function Add(idx: Index, p: Posting): Index
  {
    if p.term in idx.entries then idx.(entries := idx.entries[p.term := idx.entries[p.term] + [p.m]])
    else Index(idx.terms + [p.term], idx.entries[p.term := [p.m]])
  }

  function AddAll(idx: Index, ps: seq<Posting>): Index
  {
    if ps == [] then idx else Add(AddAll(idx, ps[..|ps| - 1]), ps[|ps| - 1])
  }

  /** The terms of a list of postings, in order. */
  function TermsOf(ps: seq<Posting>): seq<string>
  {
    if ps == [] then [] else TermsOf(ps[..|ps| - 1]) + [ps[|ps| - 1].term]
  }

  /** The matches posted under `t`, in order. */
  function MatchesFor(ps: seq<Posting>, t: string): seq<Match>
  {
    if ps == [] then []
    else MatchesFor(ps[..|ps| - 1], t) + (if ps[|ps| - 1].term == t then [ps[|ps| - 1].m] else [])
  }

  lemma TermsOfMember(ps: seq<Posting>, t: string)
    ensures t in TermsOf(ps) <==> exists p :: p in ps && p.term == t
  {
    if ps != [] {
      var init := ps[..|ps| - 1];
      TermsOfMember(init, t);
      assert ps == init + [ps[|ps| - 1]];
    }
  }

  lemma {:induction false} MatchesForAbsent(ps: seq<Posting>, t: string)
    requires t !in TermsOf(ps)
    ensures MatchesFor(ps, t) == []
  {
    if ps != [] {
      MatchesForAbsent(ps[..|ps| - 1], t);
    }
  }

  /** `idx` is the index built from `ps`: its keys in order of first
      posting, and for each term exactly the matches posted under it. */
  ghost predicate IndexOf(idx: Index, ps: seq<Posting>)
  {
    WellFormed(idx)
    && idx.terms == Uniq(TermsOf(ps))
    && (forall t :: t in idx.entries <==> t in TermsOf(ps))
    && (forall t :: t in idx.entries ==> idx.entries[t] == MatchesFor(ps, t))
  }

  /** The index holds, for each term, exactly the matches posted under it in
      posting order, and its keys in order of first posting. */
  lemma {:induction false} AddAllSpec(ps: seq<Posting>)
    ensures IndexOf(AddAll(EmptyIndex, ps), ps)
  {
    if ps != [] {
      var init, p := ps[..|ps| - 1], ps[|ps| - 1];
      AddAllSpec(init);
      assert ps == init + [p];
      AddStep(AddAll(EmptyIndex, init), init, p);
    }
  }

  /** One `addToIndex` call keeps the index in step with its postings. */
  lemma AddStep(prev: Index, init: seq<Posting>, p: Posting)
    requires IndexOf(prev, init)
    ensures IndexOf(Add(prev, p), init + [p])
  {
    var ps := init + [p];
    assert ps[..|ps| - 1] == init && ps[|ps| - 1] == p;
    var ts := TermsOf(init);
    assert TermsOf(ps) == ts + [p.term];
    UniqStep(ts, p.term);
    UniqFacts(ts);
    if p.term !in ts {
      MatchesForAbsent(init, p.term);
    }
    var next := Add(prev, p);
    assert p.term in next.entries;
    forall t
      ensures t in next.terms <==> t in next.entries
      ensures t in next.entries <==> t in TermsOf(ps)
    {
      assert t in ts + [p.term] <==> t in ts || t == p.term;
    }
    forall t | t in next.entries
      ensures next.entries[t] == MatchesFor(ps, t)
    {
      assert MatchesFor(ps, t) == MatchesFor(init, t) + (if p.term == t then [p.m] else []);
    }
  }

  /** The field list of one report; `None` is an undefined value. */
  function Fields(r: Report, dateText: string): seq<(string, Option<string>)>
  {
    [("id", Some(r.id)), ("name", Some(r.name)), ("reportNumber", Some(r.reportNumber)),
     ("type", Some(TypeName(r.kind))), ("date", Some(dateText)), ("month", Some(r.month)),
     ("year", YearText(r.year))]
  }

  /** `report.year?.toString()` */
  function YearText(y: NumVal): Option<string>
  {
    match y
    case Int(v) => Some(IntToString(v))
    case NaN => Some("NaN")
    case _ => None
  }

  /** `formatDate(report)`: the locale rendering of the ISO or display date
      (`localized`), else `"<month> <year>"`. */
  function DateText(r: Report, localized: string -> string): string
  {
    if r.fullDateISO.Some? && r.fullDateISO.value != "" then localized(r.fullDateISO.value)
    else if r.displayDate != "" && r.displayDate != "N/A" then localized(r.displayDate)
    else r.month + " " + r.year.ToText()
  }

  /** The words longer than one character, each posted for the field. */
  function WordPostings(ws: seq<string>, m: Match): seq<Posting>
  {
    if ws == [] then []
    else WordPostings(ws[..|ws| - 1], m) + (if |ws[|ws| - 1]| > 1 then [Posting(ws[|ws| - 1], m)] else [])
  }

  /** The postings of one non-blank field value. */
  function ValuePostings(r: Report, field: string, value: string): seq<Posting>
  {
    var v := Lower(value);
    [Posting(v, Match(r, field, value))] + WordPostings(Words(v), Match(r, field, value))
  }

  function FieldPostings(r: Report, fs: seq<(string, Option<string>)>): seq<Posting>
  {
    if fs == [] then []
    else
      var (field, value) := fs[|fs| - 1];
      FieldPostings(r, fs[..|fs| - 1])
      + (if value.None? || IsBlank(value.value) then [] else ValuePostings(r, field, value.value))
  }

  /** The postings of one report, field by field. */
  function ReportPostings(r: Report, localized: string -> string): seq<Posting>
  {
    FieldPostings(r, Fields(r, DateText(r, localized)))
  }

  function Postings(all: seq<Report>, localized: string -> string): seq<Posting>
  {
    if all == [] then []
    else Postings(all[..|all| - 1], localized) + ReportPostings(all[|all| - 1], localized)
  }

  /** `searchIndex`: empty while loading. */
  function SearchIndex(all: seq<Report>, localized: string -> string, loading: bool): Index
  {
    if loading then EmptyIndex else AddAll(EmptyIndex, Postings(all, localized))
  }

  lemma {:induction false} AddAllConcat(idx: Index, a: seq<Posting>, b: seq<Posting>)
    ensures AddAll(idx, a + b) == AddAll(AddAll(idx, a), b)
    decreases |b|
  {
    if b == [] {
      assert a + b == a;
    } else {
      var init := b[..|b| - 1];
      AddAllConcat(idx, a, init);
      assert (a + b)[..|a + b| - 1] == a + init;
    }
  }

  lemma AddAllOne(idx: Index, a: seq<Posting>, p: Posting)
    ensures AddAll(idx, a + [p]) == Add(AddAll(idx, a), p)
  {
    assert (a + [p])[..|a|] == a;
  }

  /** Posts each word longer than one character. */
  method IndexWords(idx: Index, ws: seq<string>, m: Match) returns (out: Index)
    ensures out == AddAll(idx, WordPostings(ws, m))
  {
    out := idx;
    for k := 0 to |ws|
      invariant out == AddAll(idx, WordPostings(ws[..k], m))
    {
      assert ws[..k + 1][..k] == ws[..k];
      var done := WordPostings(ws[..k], m);
      if |ws[k]| > 1 {
        AddAllOne(idx, done, Posting(ws[k], m));
        out := Add(out, Posting(ws[k], m));
        assert WordPostings(ws[..k + 1], m) == done + [Posting(ws[k], m)];
        assert out == AddAll(idx, WordPostings(ws[..k + 1], m));
      } else {
        assert WordPostings(ws[..k + 1], m) == done;
        assert out == AddAll(idx, WordPostings(ws[..k + 1], m));
      }
    }
    assert ws[..|ws|] == ws;
  }

  lemma FieldPostingsSnoc(r: Report, fs: seq<(string, Option<string>)>, j: nat)
    requires j < |fs|
    ensures FieldPostings(r, fs[..j + 1]) == FieldPostings(r, fs[..j])
      + (if fs[j].1.None? || IsBlank(fs[j].1.value) then [] else ValuePostings(r, fs[j].0, fs[j].1.value))
  {
    assert fs[..j + 1][..j] == fs[..j];
  }

  /** Posts each non-blank field: its full text, then its words. */
  method IndexFields(idx: Index, r: Report, fs: seq<(string, Option<string>)>) returns (out: Index)
    ensures out == AddAll(idx, FieldPostings(r, fs))
  {
    out := idx;
    for j := 0 to |fs|
      invariant out == AddAll(idx, FieldPostings(r, fs[..j]))
    {
      FieldPostingsSnoc(r, fs, j);
      var (field, value) := fs[j];
      var done := FieldPostings(r, fs[..j]);
      if value.Some? && !IsBlank(value.value) {
        var v := Lower(value.value);
        var m := Match(r, field, value.value);
        AddAllConcat(idx, done, ValuePostings(r, field, value.value));
        AddAllConcat(AddAll(idx, done), [Posting(v, m)], WordPostings(Words(v), m));
        AddAllOne(AddAll(idx, done), [], Posting(v, m));
        out := Add(out, Posting(v, m));
        out := IndexWords(out, Words(v), m);
      } else {
        assert FieldPostings(r, fs[..j + 1]) == done;
      }
    }
    assert fs[..|fs|] == fs;
  }

  method IndexReport(idx: Index, r: Report, localized: string -> string) returns (out: Index)
    ensures out == AddAll(idx, ReportPostings(r, localized))
  {
    out := IndexFields(idx, r, Fields(r, DateText(r, localized)));
  }

  /** The index construction: report by report, field by field. */
  method BuildIndex(all: seq<Report>, localized: string -> string, loading: bool) returns (idx: Index)
    ensures idx == SearchIndex(all, localized, loading)
  {
    idx := EmptyIndex;
    if loading {
      return;
    }
    for i := 0 to |all|
      invariant idx == AddAll(EmptyIndex, Postings(all[..i], localized))
    {
      assert all[..i + 1][..i] == all[..i];
      AddAllConcat(EmptyIndex, Postings(all[..i], localized), ReportPostings(all[i], localized));
      idx := IndexReport(idx, all[i], localized);
    }
    assert all[..|all|] == all;
  }

  /* ---------- what gets indexed ---------- */

  lemma {:induction false} PostingsOfReport(all: seq<Report>, localized: string -> string, i: nat, p: Posting)
    requires i < |all|
    requires p in ReportPostings(all[i], localized)
    ensures p in Postings(all, localized)
    decreases |all|
  {
    var init, last := all[..|all| - 1], all[|all| - 1];
    assert Postings(all, localized) == Postings(init, localized) + ReportPostings(last, localized);
    if i < |all| - 1 {
      assert init[i] == all[i];
      PostingsOfReport(init, localized, i, p);
    }
  }

  lemma FieldPostingsOf(r: Report, fs: seq<(string, Option<string>)>, j: nat, p: Posting)
    requires j < |fs| && fs[j].1.Some? && !IsBlank(fs[j].1.value)
    requires p in ValuePostings(r, fs[j].0, fs[j].1.value)
    ensures p in FieldPostings(r, fs)
    decreases |fs|
  {
    if j < |fs| - 1 {
      assert fs[..|fs| - 1][j] == fs[j];
      FieldPostingsOf(r, fs[..|fs| - 1], j, p);
    }
  }

  lemma {:induction false} WordPostingsOf(ws: seq<string>, m: Match, w: string)
    requires w in ws && |w| > 1
    ensures Posting(w, m) in WordPostings(ws, m)
  {
    if ws[|ws| - 1] != w {
      assert w in ws[..|ws| - 1];
      WordPostingsOf(ws[..|ws| - 1], m, w);
    }
  }

  lemma {:induction false} MatchesForMember(ps: seq<Posting>, p: Posting)
    requires p in ps
    ensures p.m in MatchesFor(ps, p.term)
  {
    if ps[|ps| - 1] != p {
      assert p in ps[..|ps| - 1];
      MatchesForMember(ps[..|ps| - 1], p);
    }
  }

  /** Every non-blank field value of every report is indexed under its
      lower-cased text and under each of its words longer than one
      character. */
  lemma ValueIndexed(all: seq<Report>, localized: string -> string, i: nat, j: nat)
    requires i < |all|
    requires var fs := Fields(all[i], DateText(all[i], localized));
      j < |fs| && fs[j].1.Some? && !IsBlank(fs[j].1.value)
    ensures var fs := Fields(all[i], DateText(all[i], localized));
      var (field, value) := (fs[j].0, fs[j].1.value);
      var idx := SearchIndex(all, localized, false);
      var m := Match(all[i], field, value);
      && Lower(value) in idx.entries && m in idx.entries[Lower(value)]
      && forall w :: w in Words(Lower(value)) && |w| > 1 ==> w in idx.entries && m in idx.entries[w]
  {
    var r := all[i];
    var fs := Fields(r, DateText(r, localized));
    var (field, value) := (fs[j].0, fs[j].1.value);
    var m := Match(r, field, value);
    var ps := Postings(all, localized);
    AddAllSpec(ps);
    forall p | p in ValuePostings(r, field, value)
      ensures p.term in TermsOf(ps) && p.m in MatchesFor(ps, p.term)
    {
      FieldPostingsOf(r, fs, j, p);
      PostingsOfReport(all, localized, i, p);
      TermsOfMember(ps, p.term);
      MatchesForMember(ps, p);
    }
    assert Posting(Lower(value), m) in ValuePostings(r, field, value);
    forall w | w in Words(Lower(value)) && |w| > 1
      ensures w in TermsOf(ps) && m in MatchesFor(ps, w)
    {
      WordPostingsOf(Words(Lower(value)), m, w);
      assert Posting(w, m) in ValuePostings(r, field, value);
    }
  }

  /* ---------- suggestions ---------- */

  datatype Suggestion = Suggestion(m: Match, term: string, score: int)

  /** 100 for the exact term, 80 for a term the query starts, 60 otherwise. */
  function Score(term: string, q: string): int
  {
    if term == q then 100 else if StartsWith(term, q) then 80 else 60
  }

  function ScoreOf(s: Suggestion): int
  {
    s.score
  }

  /** `${report.id}-${type}`: one suggestion per report and field. */
  function SugKey(s: Suggestion): string
  {
    s.m.report.id + "-" + s.m.field
  }

  function TermCandidates(t: string, ms: seq<Match>, q: string): seq<Suggestion>
  {
    if ms == [] then [] else TermCandidates(t, ms[..|ms| - 1], q) + [Suggestion(ms[|ms| - 1], t, Score(t, q))]
  }

  /** Every match of every term containing the query, in index order. */
  function Candidates(idx: Index, ts: seq<string>, q: string): seq<Suggestion>
    requires forall t :: t in ts ==> t in idx.entries
  {
    if ts == [] then []
    else
      var t := ts[|ts| - 1];
      Candidates(idx, ts[..|ts| - 1], q) + (if Includes(t, q) then TermCandidates(t, idx.entries[t], q) else [])
  }

  /** The candidates of one more term follow those of the terms before it. */
  lemma CandidatesSnoc(idx: Index, ts: seq<string>, t: string, q: string)
    requires forall u :: u in ts + [t] ==> u in idx.entries
    ensures Candidates(idx, ts + [t], q)
         == Candidates(idx, ts, q) + (if Includes(t, q) then TermCandidates(t, idx.entries[t], q) else [])
  {
    assert (ts + [t])[..|ts|] == ts;
  }

  /** `getSuggestions(query)`. */
  function Suggestions(idx: Index, query: string, loading: bool): seq<Suggestion>
    requires WellFormed(idx)
  {
    if IsBlank(query) || |query| < 2 || loading then []
    else
      var q := Lower(query);
      Take(Sort(Dedup(Candidates(idx, idx.terms, q), SugKey, Always), KeyDesc(ScoreOf)), 5)
  }

  /** The inner loop of the search: the matches of one term, in order,
      each kept only when its key has not been seen. */
  method AddTermMatches(t: string, ms: seq<Match>, q: string, results0: seq<Suggestion>, seen0: set<string>,
                        ghost done0: seq<Suggestion>)
    returns (results: seq<Suggestion>, seen: set<string>)
    requires results0 == Dedup(done0, SugKey, Always) && seen0 == KeysOf(results0, SugKey)
    ensures results == Dedup(done0 + TermCandidates(t, ms, q), SugKey, Always)
    ensures seen == KeysOf(results, SugKey)
  {
    results, seen := results0, seen0;
    ghost var done := done0;
    for j := 0 to |ms|
      invariant done == done0 + TermCandidates(t, ms[..j], q)
      invariant results == Dedup(done, SugKey, Always) && seen == KeysOf(results, SugKey)
    {
      var s := Suggestion(ms[j], t, Score(t, q));
      assert TermCandidates(t, ms[..j + 1], q) == TermCandidates(t, ms[..j], q) + [s] by {
        assert ms[..j + 1][..j] == ms[..j];
      }
      assert done0 + TermCandidates(t, ms[..j + 1], q) == done + [s];
      DedupSnoc(done, s, SugKey, Always);
      if SugKey(s) !in seen {
        KeysOfAppend(results, s, SugKey);
        results := results + [s];
        seen := seen + {SugKey(s)};
      }
      done := done + [s];
    }
    assert ms[..|ms|] == ms;
  }

  /** The search loop: walk the terms in order, and for a term containing
      the query the matches in order, keeping the first per key; then sort
      by score and keep five. */
  method GetSuggestions(idx: Index, query: string, loading: bool) returns (out: seq<Suggestion>)
    requires WellFormed(idx)
    ensures out == Suggestions(idx, query, loading)
  {
    if IsBlank(query) || |query| < 2 || loading {
      return [];
    }
    var q := Lower(query);
    var results: seq<Suggestion> := [];
    var seen: set<string> := {};
    ghost var done: seq<Suggestion> := [];
    for i := 0 to |idx.terms|
      invariant done == Candidates(idx, idx.terms[..i], q)
      invariant results == Dedup(done, SugKey, Always) && seen == KeysOf(results, SugKey)
    {
      var t := idx.terms[i];
      assert idx.terms[..i + 1] == idx.terms[..i] + [t];
      CandidatesSnoc(idx, idx.terms[..i], t, q);
      if Includes(t, q) {
        results, seen := AddTermMatches(t, idx.entries[t], q, results, seen, done);
        done := done + TermCandidates(t, idx.entries[t], q);
      }
    }
    assert idx.terms[..|idx.terms|] == idx.terms;
    out := Take(Sort(results, KeyDesc(ScoreOf)), 5);
  }

  lemma {:induction false} TermCandidatesFacts(t: string, ms: seq<Match>, q: string)
    ensures forall s :: s in TermCandidates(t, ms, q) ==> s.term == t && s.m in ms && s.score == Score(t, q)
  {
    if ms != [] {
      TermCandidatesFacts(t, ms[..|ms| - 1], q);
    }
  }

  lemma {:induction false} CandidatesFacts(idx: Index, ts: seq<string>, q: string)
    requires forall t :: t in ts ==> t in idx.entries
    ensures forall s :: s in Candidates(idx, ts, q) ==>
      s.term in ts && Includes(s.term, q) && s.m in idx.entries[s.term] && s.score == Score(s.term, q)
  {
    if ts != [] {
      var t := ts[|ts| - 1];
      CandidatesFacts(idx, ts[..|ts| - 1], q);
      TermCandidatesFacts(t, idx.entries[t], q);
    }
  }

  /** The ranked part: at most five, by non-increasing score, one per key. */
  lemma SuggestionsRanked(idx: Index, q: string)
    requires WellFormed(idx)
    ensures var out := Take(Sort(Dedup(Candidates(idx, idx.terms, q), SugKey, Always), KeyDesc(ScoreOf)), 5);
      |out| <= 5
      && (forall i, j :: 0 <= i < j < |out| ==> out[i].score >= out[j].score)
      && DistinctKeys(out, SugKey)
  {
    var c := Candidates(idx, idx.terms, q);
    var u := Dedup(c, SugKey, Always);
    var sorted := Sort(u, KeyDesc(ScoreOf));
    var out := Take(sorted, 5);
    SortByKeyDesc(u, ScoreOf);
    DedupDistinct(c, SugKey, Always);
    DistinctKeysAfterPermute(u, sorted, SugKey);
    forall i, j | 0 <= i < j < |out|
      ensures SugKey(out[i]) != SugKey(out[j]) && out[i].score >= out[j].score
    {
      assert out[i] == sorted[i] && out[j] == sorted[j];
    }
  }

  /** Where each suggestion comes from: the first candidate of its key, from
      a term containing the query and scored by how it contains it. */
  lemma SuggestionsOrigin(idx: Index, q: string, s: Suggestion)
    requires WellFormed(idx)
    requires s in Take(Sort(Dedup(Candidates(idx, idx.terms, q), SugKey, Always), KeyDesc(ScoreOf)), 5)
    ensures s.term in idx.entries && s.m in idx.entries[s.term] && Includes(s.term, q) && s.score == Score(s.term, q)
    ensures FirstWith(Candidates(idx, idx.terms, q), SugKey(s), SugKey, Always) == Some(s)
  {
    var c := Candidates(idx, idx.terms, q);
    var u := Dedup(c, SugKey, Always);
    var sorted := Sort(u, KeyDesc(ScoreOf));
    assert s in sorted;
    SortMember(u, KeyDesc(ScoreOf), s);
    DedupFirstOf(c, SugKey, Always, s);
    FirstWithFound(c, SugKey(s), SugKey, Always);
    assert s in c;
    CandidatesFacts(idx, idx.terms, q);
  }

  /** The suggestions: none for a blank or one-character query or while
      loading; otherwise at most five, by non-increasing score, one per
      report and field, each the first match of its key in index order,
      from a term containing the query and scored by how it contains it. */
  lemma SuggestionsSpec(idx: Index, query: string, loading: bool)
    requires WellFormed(idx)
    ensures IsBlank(query) || |query| < 2 || loading ==> Suggestions(idx, query, loading) == []
    ensures var out := Suggestions(idx, query, loading);
      |out| <= 5
      && (forall i, j :: 0 <= i < j < |out| ==> out[i].score >= out[j].score)
      && DistinctKeys(out, SugKey)
      && forall s :: s in out ==>
           var q := Lower(query);
           s.term in idx.entries && s.m in idx.entries[s.term] && Includes(s.term, q) && s.score == Score(s.term, q)
           && FirstWith(Candidates(idx, idx.terms, q), SugKey(s), SugKey, Always) == Some(s)
  {
    if !(IsBlank(query) || |query| < 2 || loading) {
      var q := Lower(query);
      SuggestionsRanked(idx, q);
      forall s | s in Suggestions(idx, query, loading)
        ensures s.term in idx.entries && s.m in idx.entries[s.term] && Includes(s.term, q) && s.score == Score(s.term, q)
        ensures FirstWith(Candidates(idx, idx.terms, q), SugKey(s), SugKey, Always) == Some(s)
      {
        SuggestionsOrigin(idx, q, s);
      }
    }
  }

  /* ---------- the search box state ---------- */

  datatype Key = ArrowDown | ArrowUp | Enter | Escape | Other

  class SearchBox {
    const index: Index
    const loading: bool
    var searchTerm: string
    var debouncedTerm: string
    var suggestions: seq<Suggestion>
    var selected: int
    var showSuggestions: bool
    var dialogReport: Option<Report>

    /** The highlighted entry is -1 or one of the suggestions. */
    ghost predicate Valid()
      reads this
    {
      WellFormed(index) && -1 <= selected < |suggestions|
    }

    constructor (all: seq<Report>, localized: string -> string, isLoading: bool)
      ensures index == SearchIndex(all, localized, isLoading) && loading == isLoading
      ensures searchTerm == "" && debouncedTerm == "" && suggestions == [] && selected == -1
      ensures !showSuggestions && dialogReport.None?
      ensures Valid()
    {
      var idx := BuildIndex(all, localized, isLoading);
      index, loading := idx, isLoading;
      searchTerm, debouncedTerm, suggestions, selected, showSuggestions, dialogReport := "", "", [], -1, false, None;
      AddAllSpec(Postings(all, localized));
    }

    /** Typing into the box: only the term changes. */
    method Type(term: string)
      modifies this
      ensures searchTerm == term && debouncedTerm == old(debouncedTerm)
      ensures suggestions == old(suggestions) && selected == old(selected)
      ensures showSuggestions == old(showSuggestions) && dialogReport == old(dialogReport)
    {
      searchTerm := term;
    }

    /** The debounced term changed: recompute the list, show it when it is
        not empty, clear the highlight. */
    method TermSettled(term: string)
      requires Valid()
      modifies this
      ensures debouncedTerm == term
      ensures suggestions == (if |term| >= 2 then Suggestions(index, term, loading) else [])
      ensures showSuggestions == (suggestions != []) && selected == -1
      ensures searchTerm == old(searchTerm) && dialogReport == old(dialogReport)
      ensures Valid()
    {
      debouncedTerm := term;
      if |term| >= 2 {
        var s := GetSuggestions(index, term, loading);
        suggestions := s;
        showSuggestions := |s| > 0;
      } else {
        suggestions := [];
        showSuggestions := false;
      }
      selected := -1;
    }

    /** A change of route clears the term, hides the list and the highlight. */
    method RouteChanged()
      requires Valid()
      modifies this
      ensures searchTerm == "" && !showSuggestions && selected == -1
      ensures debouncedTerm == old(debouncedTerm) && suggestions == old(suggestions)
      ensures dialogReport == old(dialogReport)
      ensures Valid()
    {
      searchTerm := "";
      showSuggestions := false;
      selected := -1;
    }

    /** A press outside the box and the list hides the list. */
    method ClickOutside()
      modifies this
      ensures !showSuggestions
      ensures searchTerm == old(searchTerm) && debouncedTerm == old(debouncedTerm)
      ensures suggestions == old(suggestions) && selected == old(selected) && dialogReport == old(dialogReport)
    {
      showSuggestions := false;
    }

    /** Focusing the box shows the list again when the settled term has two
        or more characters and suggestions exist; otherwise nothing changes. */
    method Focus()
      modifies this
      ensures showSuggestions == (old(showSuggestions) || (|debouncedTerm| >= 2 && suggestions != []))
      ensures searchTerm == old(searchTerm) && debouncedTerm == old(debouncedTerm)
      ensures suggestions == old(suggestions) && selected == old(selected) && dialogReport == old(dialogReport)
    {
      if |debouncedTerm| >= 2 && |suggestions| > 0 {
        showSuggestions := true;
      }
    }

    /** `openReportDialog` */
    method Open(r: Report)
      modifies this
      ensures dialogReport == Some(r) && searchTerm == "" && !showSuggestions && selected == -1
      ensures suggestions == old(suggestions) && debouncedTerm == old(debouncedTerm)
    {
      dialogReport := Some(r);
      searchTerm := "";
      showSuggestions := false;
      selected := -1;
    }

    /** `closeDialog` */
    method CloseDialog()
      modifies this
      ensures dialogReport == None
      ensures searchTerm == old(searchTerm) && debouncedTerm == old(debouncedTerm)
      ensures suggestions == old(suggestions) && selected == old(selected) && showSuggestions == old(showSuggestions)
    {
      dialogReport := None;
    }

    /** `handleSearchSubmit`: the highlighted suggestion, else the best
        suggestion for the typed term; a report found is opened, which
        clears the term; with none, the term and the dialog stay. */
    method Submit()
      requires Valid()
      modifies this
      ensures 0 <= old(selected) < |old(suggestions)| ==>
        dialogReport == Some(old(suggestions)[old(selected)].m.report) && searchTerm == ""
      ensures !(0 <= old(selected) < |old(suggestions)|) ==>
        var best := Suggestions(index, old(searchTerm), loading);
        && dialogReport == (if best != [] then Some(best[0].m.report) else old(dialogReport))
        && searchTerm == (if best != [] then "" else old(searchTerm))
      ensures !showSuggestions && selected == -1
      ensures suggestions == old(suggestions) && debouncedTerm == old(debouncedTerm)
      ensures Valid()
    {
      if 0 <= selected < |suggestions| {
        Open(suggestions[selected].m.report);
      } else {
        var best := GetSuggestions(index, searchTerm, loading);
        if best != [] {
          Open(best[0].m.report);
        }
      }
      showSuggestions := false;
      selected := -1;
    }

    /** `handleKeyDown`: keys act only while the list is shown. The arrows
        move the highlight, Escape hides the list, Enter opens the
        highlighted suggestion or, with none, submits the form. */
    method KeyDown(key: Key)
      requires Valid()
      modifies this
      ensures Valid()
      ensures suggestions == old(suggestions) && debouncedTerm == old(debouncedTerm)
      ensures !old(showSuggestions) || key != Enter ==>
        searchTerm == old(searchTerm) && dialogReport == old(dialogReport)
      ensures !old(showSuggestions) || key == Other ==>
        selected == old(selected) && showSuggestions == old(showSuggestions)
      ensures old(showSuggestions) && key == ArrowDown ==>
        showSuggestions && selected == (if old(selected) < |suggestions| - 1 then old(selected) + 1 else old(selected))
      ensures old(showSuggestions) && key == ArrowUp ==>
        showSuggestions && selected == (if old(selected) > 0 then old(selected) - 1 else -1)
      ensures old(showSuggestions) && key in {Escape, Enter} ==> !showSuggestions && selected == -1
      ensures old(showSuggestions) && key == Enter && old(selected) >= 0 ==>
        dialogReport == Some(old(suggestions)[old(selected)].m.report) && searchTerm == ""
      ensures old(showSuggestions) && key == Enter && old(selected) < 0 ==>
        var best := Suggestions(index, old(searchTerm), loading);
        && dialogReport == (if best != [] then Some(best[0].m.report) else old(dialogReport))
        && searchTerm == (if best != [] then "" else old(searchTerm))
    {
      if !showSuggestions {
        return;
      }
      match key
      case ArrowDown =>
        if selected < |suggestions| - 1 {
          selected := selected + 1;
        }
      case ArrowUp =>
        selected := if selected > 0 then selected - 1 else -1;
      case Enter =>
        if selected >= 0 {
          Open(suggestions[selected].m.report);
        } else {
          Submit();
        }
      case Escape =>
        showSuggestions := false;
        selected := -1;
      case Other =>
    }
  }

  /** Typing a term, letting it settle and submitting opens the best
      suggestion for that term, when there is one. */
  method TypeSettleSubmit(box: SearchBox, term: string)
    requires box.Valid()
    modifies box
    ensures var best := Suggestions(box.index, term, box.loading);
      && (best != [] ==> box.dialogReport == Some(best[0].m.report) && box.searchTerm == "")
      && (best == [] ==> box.dialogReport == old(box.dialogReport) && box.searchTerm == term)
  {
    box.Type(term);
    box.TermSettled(term);
    box.Submit();
  }
}
