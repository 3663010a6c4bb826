/** The favourites store: a set of `"<id>-<type>"` keys, toggled one report
    at a time, and the report list annotated with `isFavorite`. A JavaScript
    `Set` keeps insertion order, so the keys are a sequence without
    repetitions. */
module FavoriteReports {
  import opened Wrappers
  import opened Seqs
  import opened FirstWins
  import opened Distinct
  import opened Reports

  predicate NoDups(s: seq<string>)
  {
    forall i, j :: 0 <= i < j < |s| ==> s[i] != s[j]
  }

  function Without(s: seq<string>, k: string): seq<string>
  {
    Filter(s, (x: string) => x != k)
  }

  /** `new Set(prev)`, then `delete` the key when present and `add` it otherwise. */
  function Toggled(favs: seq<string>, k: string): seq<string>
  {
    if k in favs then Without(favs, k) else favs + [k]
  }

  /** Toggling flips the membership of its key and of no other key. */
  lemma ToggledMembers(favs: seq<string>, k: string)
    ensures k in Toggled(favs, k) <==> k !in favs
    ensures forall x :: x != k ==> (x in Toggled(favs, k) <==> x in favs)
  {
    forall x
      ensures x in Without(favs, k) <==> x in favs && x != k
    {
      FilterMembership(favs, (x: string) => x != k, x);
    }
  }

  lemma {:induction false} WithoutNoDups(s: seq<string>, k: string)
    requires NoDups(s)
    ensures NoDups(Without(s, k))
  {
    if s != [] {
      var init := s[..|s| - 1];
      WithoutNoDups(init, k);
      FilterMembership(init, (x: string) => x != k, s[|s| - 1]);
    }
  }

  /** The key list stays free of repetitions. */
  lemma ToggledNoDups(favs: seq<string>, k: string)
    requires NoDups(favs)
    ensures NoDups(Toggled(favs, k))
  {
    if k in favs {
      WithoutNoDups(favs, k);
    }
  }

  /** Toggling twice restores the set of keys; when the key was absent the
      list comes back unchanged, when present it moves to the end. */
  lemma ToggleTwice(favs: seq<string>, k: string)
    requires NoDups(favs)
    ensures forall x :: x in Toggled(Toggled(favs, k), k) <==> x in favs
    ensures k !in favs ==> Toggled(Toggled(favs, k), k) == favs
  {
    ToggledMembers(favs, k);
    ToggledMembers(Toggled(favs, k), k);
    if k !in favs {
      var t := favs + [k];
      FilterConcat(favs, [k], (x: string) => x != k);
      forall i | 0 <= i < |favs|
        ensures favs[i] != k
      {
      }
      FilterKeepsAll(favs, (x: string) => x != k);
      assert Filter([k], (x: string) => x != k) == [] by {
        assert [k][..0] == [];
      }
    }
  }

  /** Reports of the same id but different kinds have different keys, so
      they are favourited independently. */
  lemma KindsIndependent(a: Report, b: Report, favs: seq<string>)
    requires a.id == b.id && a.kind != b.kind
    ensures FavKey(a) != FavKey(b)
    ensures FavKey(b) in Toggled(favs, FavKey(a)) <==> FavKey(b) in favs
  {
    var ta, tb := TypeName(a.kind), TypeName(b.kind);
    assert FavKey(a)[|a.id| + 1..] == ta;
    assert FavKey(b)[|b.id| + 1..] == tb;
    ToggledMembers(favs, FavKey(a));
  }

  /** The hook's state. */
  class FavoriteStore {
    var ids: seq<string>

    ghost predicate Valid()
      reads this
    {
      NoDups(ids)
    }

    /** `new Set(stored)`: the keys read back from storage, once each. */
    constructor (stored: seq<string>)
      ensures ids == Uniq(stored) && Valid()
    {
      var out := DedupLoop(stored, Identity, Always);
      UniqFacts(stored);
      ids := out;
    }

    /** `toggleFavorite`: the new set is built from a copy of the old one. */
    method Toggle(r: Report)
      requires Valid()
      modifies this
      ensures ids == Toggled(old(ids), FavKey(r)) && Valid()
    {
      var k := FavKey(r);
      ToggledNoDups(ids, k);
      if k in ids {
        ids := Without(ids, k);
      } else {
        ids := ids + [k];
      }
    }
  }

  /** A report with its favourite flag. */
  datatype Marked = Marked(report: Report, isFavorite: bool)

  /** `reportsWithFavorites` (`None` is an absent list): same length and
      order, flagging exactly the reports whose key is in the set. */
  function WithFavorites(reports: Option<seq<Report>>, favs: seq<string>): (m: seq<Marked>)
    ensures |m| == |reports.GetOr([])|
    ensures forall i :: 0 <= i < |m| ==>
      m[i].report == reports.GetOr([])[i] && (m[i].isFavorite <==> FavKey(m[i].report) in favs)
  {
    if reports.None? || reports.value == [] then [] else
    seq(|reports.value|, i requires 0 <= i < |reports.value| =>
      Marked(reports.value[i], FavKey(reports.value[i]) in favs))
  }

  /** `r => r.type === k` */
  function OfKind(k: Kind): Marked -> bool
  {
    (m: Marked) => m.report.kind == k
  }

  function IsFavorite(m: Marked): bool
  {
    m.isFavorite
  }

  /** The favourites key of an annotated report. */
  function MarkedKey(m: Marked): string
  {
    FavKey(m.report)
  }
}
