/** `[...new Set(xs)].sort(cmp)`: the distinct values of a list, in the
    order a comparator gives them. */
module Distinct {
  import opened Seqs
  import opened FirstWins
  import opened StableSort
  import opened JsText
  import opened Wrappers

  function Identity<T>(x: T): T
  {
    x
  }

  function Always<T>(x: T): bool
  {
    true
  }

  /** `[...new Set(s)]`: first occurrences in insertion order. */
  function Uniq<T(==)>(s: seq<T>): seq<T>
  {
    Dedup(s, Identity, Always)
  }

  /** The default `sort()` comparison on strings, as a comparator. */
  function StrBefore(a: string, b: string): bool
  {
    !StrLt(b, a)
  }

  lemma UniqFacts<T>(s: seq<T>)
    ensures forall x :: x in Uniq(s) <==> x in s
    ensures forall i, j :: 0 <= i < j < |Uniq(s)| ==> Uniq(s)[i] != Uniq(s)[j]
  {
    DedupKeys(s, Identity, Always);
    DedupDistinct(s, Identity, Always);
    var u := Uniq(s);
    forall x
      ensures x in u <==> x in s
    {
      if x in s {
        var i :| 0 <= i < |s| && s[i] == x;
        assert Always(s[i]);
        assert x in KeysOf(u, Identity);
      }
    }
  }

  /** Keys of a `Set`-like prefix are its elements. */
  lemma KeysIdentity<T>(s: seq<T>, x: T)
    ensures x in KeysOf(s, Identity) <==> x in s
  {
    if x in s {
      var k :| 0 <= k < |s| && s[k] == x;
      assert Identity(s[k]) == x;
    }
  }

  /** Adding one element to a `Set`: a new value goes to the end. */
  lemma UniqStep<T>(s: seq<T>, x: T)
    ensures Uniq(s + [x]) == if x in Uniq(s) then Uniq(s) else Uniq(s) + [x]
  {
    assert (s + [x])[..|s|] == s;
    KeysIdentity(Uniq(s), x);
  }

  /** Distinct integers, largest first. */
  function DescendingDistinct(s: seq<int>): seq<int>
  {
    Sort(Uniq(s), KeyDesc(Identity))
  }

  /** Distinct integers, smallest first. */
  function AscendingDistinct(s: seq<int>): seq<int>
  {
    Sort(Uniq(s), KeyAsc(Identity))
  }

  /** Distinct strings in `sort()` order. */
  function SortedDistinctStrings(s: seq<string>): seq<string>
  {
    Sort(Uniq(s), StrBefore)
  }

  lemma PermutedMembers<T>(a: seq<T>, b: seq<T>)
    requires multiset(a) == multiset(b)
    ensures forall x :: x in a <==> x in b
  {
    forall x
      ensures x in a <==> x in b
    {
      assert x in a <==> x in multiset(a);
      assert x in b <==> x in multiset(b);
    }
  }

  lemma DistinctAfterPermute<T>(a: seq<T>, b: seq<T>)
    requires multiset(a) == multiset(b) && |a| == |b|
    requires forall i, j :: 0 <= i < j < |a| ==> a[i] != a[j]
    ensures forall i, j :: 0 <= i < j < |b| ==> b[i] != b[j]
  {
    forall i, j | 0 <= i < j < |b|
      ensures b[i] != b[j]
    {
      MultiplicityOne(a, b[i]);
      if b[i] == b[j] {
        TwoOccurrences(b, i, j);
      }
    }
  }

  lemma TwoOccurrences<T>(b: seq<T>, i: int, j: int)
    requires 0 <= i < j < |b| && b[i] == b[j]
    ensures multiset(b)[b[i]] >= 2
  {
    assert b == b[..i] + [b[i]] + b[i + 1..j] + [b[j]] + b[j + 1..];
  }

  lemma {:induction false} MultiplicityOne<T>(a: seq<T>, x: T)
    requires forall i, j :: 0 <= i < j < |a| ==> a[i] != a[j]
    ensures multiset(a)[x] <= 1
  {
    if a != [] {
      var init := a[..|a| - 1];
      MultiplicityOne(init, x);
      assert a == init + [a[|a| - 1]];
      if a[|a| - 1] == x {
        assert x !in init;
      }
    }
  }

  /** The distinct values, strictly decreasing. */
  lemma DescendingDistinctSpec(s: seq<int>)
    ensures forall x :: x in DescendingDistinct(s) <==> x in s
    ensures forall i, j :: 0 <= i < j < |DescendingDistinct(s)| ==> DescendingDistinct(s)[i] > DescendingDistinct(s)[j]
  {
    var u := Uniq(s);
    UniqFacts(s);
    SortByKeyDesc(u, Identity);
    PermutedMembers(DescendingDistinct(s), u);
    DistinctAfterPermute(u, DescendingDistinct(s));
  }

  /** The distinct values, strictly increasing. */
  lemma AscendingDistinctSpec(s: seq<int>)
    ensures forall x :: x in AscendingDistinct(s) <==> x in s
    ensures forall i, j :: 0 <= i < j < |AscendingDistinct(s)| ==> AscendingDistinct(s)[i] < AscendingDistinct(s)[j]
  {
    var u := Uniq(s);
    UniqFacts(s);
    SortByKeyAsc(u, Identity);
    PermutedMembers(AscendingDistinct(s), u);
    DistinctAfterPermute(u, AscendingDistinct(s));
  }

  lemma StrBeforeConsistent()
    ensures TotalPreorder(StrBefore)
  {
    forall a, b
      ensures StrBefore(a, b) || StrBefore(b, a)
    {
      if StrLt(b, a) && StrLt(a, b) {
        StrLtTransitive(a, b, a);
        StrLtIrreflexive(a);
      }
    }
    forall a, b, c | StrBefore(a, b) && StrBefore(b, c)
      ensures StrBefore(a, c)
    {
      if StrLt(c, a) {
        if a == b {
        } else {
          StrLtTotal(a, b);
          if b == c {
          } else {
            StrLtTotal(b, c);
            StrLtTransitive(a, b, c);
            StrLtTransitive(c, a, c);
            StrLtIrreflexive(c);
          }
        }
      }
    }
  }

  /** The distinct strings, strictly increasing in string order. */
  lemma SortedDistinctStringsSpec(s: seq<string>)
    ensures forall x :: x in SortedDistinctStrings(s) <==> x in s
    ensures forall i, j :: 0 <= i < j < |SortedDistinctStrings(s)| ==> StrLt(SortedDistinctStrings(s)[i], SortedDistinctStrings(s)[j])
  {
    var u := Uniq(s);
    var r := SortedDistinctStrings(s);
    UniqFacts(s);
    StrBeforeConsistent();
    SortPermutes(u, StrBefore);
    ConsistentEverywhere(u, StrBefore);
    SortSorted(u, StrBefore);
    PermutedMembers(r, u);
    DistinctAfterPermute(u, r);
    forall i, j | 0 <= i < j < |r|
      ensures StrLt(r[i], r[j])
    {
      assert StrBefore(r[i], r[j]);
      StrLtTotal(r[i], r[j]);
    }
  }

  /** Distinct keys survive a rearrangement. */
  lemma DistinctKeysAfterPermute<T, K>(a: seq<T>, b: seq<T>, key: T -> K)
    requires multiset(a) == multiset(b) && |a| == |b|
    requires DistinctKeys(a, key)
    ensures DistinctKeys(b, key)
  {
    DistinctAfterPermute(a, b);
    PermutedMembers(a, b);
    forall i, j | 0 <= i < j < |b|
      ensures key(b[i]) != key(b[j])
    {
      assert b[i] in a && b[j] in a;
      var p :| 0 <= p < |a| && a[p] == b[i];
      var q :| 0 <= q < |a| && a[q] == b[j];
      assert p != q;
    }
  }

  /** The set of keys does not depend on the order. */
  lemma KeysAfterPermute<T, K>(a: seq<T>, b: seq<T>, key: T -> K)
    requires multiset(a) == multiset(b)
    ensures KeysOf(a, key) == KeysOf(b, key)
  {
    PermutedMembers(a, b);
    forall k | k in KeysOf(a, key)
      ensures k in KeysOf(b, key)
    {
      var i :| 0 <= i < |a| && key(a[i]) == k;
      assert a[i] in b;
      var j :| 0 <= j < |b| && b[j] == a[i];
    }
    forall k | k in KeysOf(b, key)
      ensures k in KeysOf(a, key)
    {
      var i :| 0 <= i < |b| && key(b[i]) == k;
      assert b[i] in a;
      var j :| 0 <= j < |a| && a[j] == b[i];
    }
  }

  /** `sort((a, b) => key(b) - key(a)).slice(0, n)`: an element left out
      has a key no larger than any element kept. */
  lemma TopOfSorted<T(!new)>(s: seq<T>, key: T -> int, n: nat, x: T)
    requires x in s && x !in Take(Sort(s, KeyDesc(key)), n)
    ensures forall e :: e in Take(Sort(s, KeyDesc(key)), n) ==> key(e) >= key(x)
  {
    var sorted := Sort(s, KeyDesc(key));
    var out := Take(sorted, n);
    SortByKeyDesc(s, key);
    PermutedMembers(sorted, s);
    var p :| 0 <= p < |sorted| && sorted[p] == x;
    assert forall q :: 0 <= q < |out| ==> out[q] == sorted[q];
    forall e | e in out
      ensures key(e) >= key(x)
    {
      var q :| 0 <= q < |out| && out[q] == e;
      assert sorted[q] == e;
    }
  }

  /** Sorting and then keeping the first element of each key: one element
      per key of the input, each the first of its key in sorted order, and
      in sorted order when the comparator is consistent. */
  lemma SortThenDedup<T, K>(s: seq<T>, before: (T, T) -> bool, key: T -> K)
    ensures var out := Dedup(Sort(s, before), key, Always);
      && DistinctKeys(out, key)
      && KeysOf(out, key) == KeysOf(s, key)
      && (forall x :: x in out ==> x in s && FirstWith(Sort(s, before), key(x), key, Always) == Some(x))
      && (ConsistentOn(s, before) ==> SortedBy(out, before))
  {
    var sorted := Sort(s, before);
    var out := Dedup(sorted, key, Always);
    SortPermutes(s, before);
    PermutedMembers(s, sorted);
    DedupDistinct(sorted, key, Always);
    DedupKeys(sorted, key, Always);
    KeysAfterPermute(s, sorted, key);
    assert KeysOf(out, key) == KeysOf(sorted, key) by {
      forall k | k in KeysOf(sorted, key)
        ensures k in KeysOf(out, key)
      {
        var i :| 0 <= i < |sorted| && key(sorted[i]) == k;
        assert Always(sorted[i]);
      }
    }
    forall x | x in out
      ensures x in s && FirstWith(sorted, key(x), key, Always) == Some(x)
    {
      DedupFirstOf(sorted, key, Always, x);
      FirstWithFound(sorted, key(x), key, Always);
    }
    if ConsistentOn(s, before) {
      SortSorted(s, before);
      DedupSubseq(sorted, key, Always);
      SubseqSorted(out, sorted, before);
    }
  }

  /** Sorting newest first by a key that is never NaN, then de-duplicating,
      leaves the keys non-increasing; so does selecting first. */
  lemma OptKeyDescDedup<T, K>(all: seq<T>, p: T -> bool, key: T -> Option<int>, k: T -> K)
    requires AllKeyed(all, key)
    ensures NonIncreasing(Dedup(Sort(Filter(all, p), OptKeyDesc(key)), k, Always), key)
  {
    var s := Filter(all, p);
    FilterPreserves(all, p, (x: T) => key(x).Some?);
    var out := Dedup(Sort(s, OptKeyDesc(key)), k, Always);
    OptKeyConsistent(s, key);
    SortThenDedup(s, OptKeyDesc(key), k);
    forall i | 0 <= i < |out|
      ensures key(out[i]).Some?
    {
      var p :| 0 <= p < |s| && s[p] == out[i];
    }
  }
}
