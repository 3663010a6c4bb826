/** The "first wins" de-duplication loops of the dashboard: walk a list,
    keep an element when it is eligible and its key has not been seen, and
    record the key in a `Set`. */
module FirstWins {
  import opened Seqs
  import opened Wrappers

  function KeysOf<T, K>(s: seq<T>, key: T -> K): set<K>
  {
    set i | 0 <= i < |s| :: key(s[i])
  }

  predicate DistinctKeys<T, K(==)>(s: seq<T>, key: T -> K)
  {
    forall i, j :: 0 <= i < j < |s| ==> key(s[i]) != key(s[j])
  }

  /** What the loop has produced after reading `s`. */
  function Dedup<T, K(==)>(s: seq<T>, key: T -> K, ok: T -> bool): seq<T>
  {
    if s == [] then []
    else
      var prev := Dedup(s[..|s| - 1], key, ok);
      var x := s[|s| - 1];
      if ok(x) && key(x) !in KeysOf(prev, key) then prev + [x] else prev
  }

  /** The first eligible element of `s` with key `k`: an independent statement
      of which copy should survive. */
  function FirstWith<T, K(==)>(s: seq<T>, k: K, key: T -> K, ok: T -> bool): Option<T>
  {
    if s == [] then None
    else
      var x := s[|s| - 1];
      match FirstWith(s[..|s| - 1], k, key, ok)
      case Some(y) => Some(y)
      case None => if ok(x) && key(x) == k then Some(x) else None
  }

  /** The de-duplication loop over a list. */
  method DedupLoop<T, K(==)>(s: seq<T>, key: T -> K, ok: T -> bool) returns (out: seq<T>)
    ensures out == Dedup(s, key, ok)
  {
    out := [];
    var seen: set<K> := {};
    for i := 0 to |s|
      invariant out == Dedup(s[..i], key, ok)
      invariant seen == KeysOf(out, key)
    {
      assert s[..i + 1][..i] == s[..i];
      if ok(s[i]) && key(s[i]) !in seen {
        KeysOfAppend(out, s[i], key);
        out := out + [s[i]];
        seen := seen + {key(s[i])};
      }
    }
    assert s[..|s|] == s;
  }

  /** One more turn of the loop: `x` is kept when eligible and its key is new. */
  lemma DedupSnoc<T, K>(s: seq<T>, x: T, key: T -> K, ok: T -> bool)
    ensures Dedup(s + [x], key, ok)
         == if ok(x) && key(x) !in KeysOf(Dedup(s, key, ok), key) then Dedup(s, key, ok) + [x] else Dedup(s, key, ok)
  {
    assert (s + [x])[..|s|] == s;
  }

  lemma KeysOfAppend<T, K>(s: seq<T>, x: T, key: T -> K)
    ensures KeysOf(s + [x], key) == KeysOf(s, key) + {key(x)}
  {
    var t := s + [x];
    assert t[|s|] == x;
    forall k | k in KeysOf(s, key)
      ensures k in KeysOf(t, key)
    {
      var i :| 0 <= i < |s| && key(s[i]) == k;
      assert t[i] == s[i];
    }
  }

  lemma {:induction false} FirstWithNone<T, K>(s: seq<T>, k: K, key: T -> K, ok: T -> bool)
    ensures FirstWith(s, k, key, ok) == None <==> forall i :: 0 <= i < |s| && ok(s[i]) ==> key(s[i]) != k
  {
    if s != [] {
      FirstWithNone(s[..|s| - 1], k, key, ok);
    }
  }

  lemma {:induction false} FirstWithFound<T, K>(s: seq<T>, k: K, key: T -> K, ok: T -> bool)
    ensures FirstWith(s, k, key, ok).Some? ==>
      var y := FirstWith(s, k, key, ok).value; y in s && ok(y) && key(y) == k
  {
    if s != [] {
      FirstWithFound(s[..|s| - 1], k, key, ok);
    }
  }

  /** The loop keeps elements in their input order. */
  lemma {:induction false} DedupSubseq<T, K>(s: seq<T>, key: T -> K, ok: T -> bool)
    ensures Subseq(Dedup(s, key, ok), s)
  {
    if s != [] {
      var init := s[..|s| - 1];
      var prev := Dedup(init, key, ok);
      DedupSubseq(init, key, ok);
      var d := Dedup(s, key, ok);
      if d == prev + [s[|s| - 1]] {
        assert d[..|d| - 1] == prev;
      }
    }
  }

  /** Every key of an eligible element is kept, and only eligible elements are. */
  lemma {:induction false} DedupKeys<T, K>(s: seq<T>, key: T -> K, ok: T -> bool)
    ensures KeysOf(Dedup(s, key, ok), key) == set i | 0 <= i < |s| && ok(s[i]) :: key(s[i])
    ensures forall i :: 0 <= i < |Dedup(s, key, ok)| ==> ok(Dedup(s, key, ok)[i]) && Dedup(s, key, ok)[i] in s
  {
    if s != [] {
      var init, x := s[..|s| - 1], s[|s| - 1];
      var prev := Dedup(init, key, ok);
      DedupKeys(init, key, ok);
      KeysOfAppend(prev, x, key);
      var want := set i | 0 <= i < |s| && ok(s[i]) :: key(s[i]);
      var wantInit := set i | 0 <= i < |init| && ok(init[i]) :: key(init[i]);
      assert want == wantInit + (if ok(x) then {key(x)} else {}) by {
        forall k | k in want
          ensures k in wantInit + (if ok(x) then {key(x)} else {})
        {
          var i :| 0 <= i < |s| && ok(s[i]) && key(s[i]) == k;
          if i < |init| {
            assert init[i] == s[i];
          }
        }
        forall k | k in wantInit
          ensures k in want
        {
          var i :| 0 <= i < |init| && ok(init[i]) && key(init[i]) == k;
          assert s[i] == init[i];
        }
        if ok(x) {
          assert s[|s| - 1] == x;
        }
      }
    }
  }

  /** Keys in the output are pairwise distinct. */
  lemma {:induction false} DedupDistinct<T, K>(s: seq<T>, key: T -> K, ok: T -> bool)
    ensures DistinctKeys(Dedup(s, key, ok), key)
  {
    if s != [] {
      var init, x := s[..|s| - 1], s[|s| - 1];
      var prev := Dedup(init, key, ok);
      DedupDistinct(init, key, ok);
      var d := Dedup(s, key, ok);
      if ok(x) && key(x) !in KeysOf(prev, key) {
        assert d == prev + [x];
        forall i, j | 0 <= i < j < |d|
          ensures key(d[i]) != key(d[j])
        {
          assert d[i] == prev[i];
          if j == |d| - 1 {
            assert key(prev[i]) in KeysOf(prev, key);
          } else {
            assert d[j] == prev[j];
          }
        }
      } else {
        assert d == prev;
      }
    }
  }

  /** The copy that survives is the first eligible one with its key. */
  lemma {:induction false} DedupFirst<T, K>(s: seq<T>, key: T -> K, ok: T -> bool)
    ensures var d := Dedup(s, key, ok);
      forall i :: 0 <= i < |d| ==> FirstWith(s, key(d[i]), key, ok) == Some(d[i])
  {
    if s != [] {
      var init, x := s[..|s| - 1], s[|s| - 1];
      var prev := Dedup(init, key, ok);
      DedupFirst(init, key, ok);
      var d := Dedup(s, key, ok);
      if d != prev {
        DedupKeys(init, key, ok);
        FirstWithNone(init, key(x), key, ok);
        forall i | 0 <= i < |d|
          ensures FirstWith(s, key(d[i]), key, ok) == Some(d[i])
        {
          if i < |prev| {
            assert d[i] == prev[i];
          } else {
            forall m | 0 <= m < |init| && ok(init[m])
              ensures key(init[m]) != key(x)
            {
              assert key(init[m]) in KeysOf(prev, key);
            }
          }
        }
      }
    }
  }

  /** `DedupFirst` for one kept element. */
  lemma DedupFirstOf<T, K>(s: seq<T>, key: T -> K, ok: T -> bool, x: T)
    requires x in Dedup(s, key, ok)
    ensures FirstWith(s, key(x), key, ok) == Some(x)
  {
    DedupFirst(s, key, ok);
    var d := Dedup(s, key, ok);
    var i :| 0 <= i < |d| && d[i] == x;
  }
}
