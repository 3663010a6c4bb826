/** `Array.prototype.sort` with a comparator, which JavaScript requires to be
    stable. `before(a, b)` holds when the comparator returns a value `<= 0`
    for `(a, b)`, i.e. when `a` may stay in front of `b`. The sort is
    specified as an insertion sort: an element goes after every element it
    does not have to precede. */
module StableSort {
  import opened Seqs
  import opened Wrappers

  /** A consistent comparator: total and transitive. */
  ghost predicate TotalPreorder<T(!new)>(before: (T, T) -> bool)
  {
    (forall a, b :: before(a, b) || before(b, a))
    && (forall a, b, c :: before(a, b) && before(b, c) ==> before(a, c))
  }

  /** The comparator is total and transitive on the elements of `s`. */
  ghost predicate ConsistentOn<T>(s: seq<T>, before: (T, T) -> bool)
  {
    (forall a, b :: a in s && b in s ==> before(a, b) || before(b, a))
    && (forall a, b, c :: a in s && b in s && c in s && before(a, b) && before(b, c) ==> before(a, c))
  }

  lemma ConsistentOnSub<T>(s: seq<T>, u: seq<T>, before: (T, T) -> bool)
    requires ConsistentOn(s, before)
    requires forall a :: a in u ==> a in s
    ensures ConsistentOn(u, before)
  {
  }

  lemma ConsistentEverywhere<T(!new)>(s: seq<T>, before: (T, T) -> bool)
    requires TotalPreorder(before)
    ensures ConsistentOn(s, before)
  {
  }

  ghost predicate SortedBy<T>(s: seq<T>, before: (T, T) -> bool)
  {
    forall i, j :: 0 <= i < j < |s| ==> before(s[i], s[j])
  }

  /** The elements the comparator ranks equal to `y`. */
  function Tied<T>(y: T, before: (T, T) -> bool): T -> bool
  {
    e => before(e, y) && before(y, e)
  }

  /** Where `x` goes in `s`: after the last element allowed in front of it. */
  function InsertPos<T>(x: T, s: seq<T>, before: (T, T) -> bool): (k: nat)
    ensures k <= |s|
  {
    if s == [] || before(s[|s| - 1], x) then |s| else InsertPos(x, s[..|s| - 1], before)
  }

  function Insert<T>(x: T, s: seq<T>, before: (T, T) -> bool): seq<T>
  {
    var k := InsertPos(x, s, before);
    s[..k] + [x] + s[k..]
  }

  function Sort<T>(s: seq<T>, before: (T, T) -> bool): seq<T>
  {
    if s == [] then [] else Insert(s[|s| - 1], Sort(s[..|s| - 1], before), before)
  }

  lemma {:induction false} InsertPosBounds<T>(x: T, s: seq<T>, before: (T, T) -> bool)
    ensures var k := InsertPos(x, s, before);
      (k > 0 ==> before(s[k - 1], x))
      && forall m :: k <= m < |s| ==> !before(s[m], x)
  {
    if s != [] && !before(s[|s| - 1], x) {
      InsertPosBounds(x, s[..|s| - 1], before);
    }
  }

  /** Sorting rearranges the elements and keeps the length. */
  lemma {:induction false} SortPermutes<T>(s: seq<T>, before: (T, T) -> bool)
    ensures |Sort(s, before)| == |s|
    ensures multiset(Sort(s, before)) == multiset(s)
  {
    if s != [] {
      var t := Sort(s[..|s| - 1], before);
      SortPermutes(s[..|s| - 1], before);
      var k := InsertPos(s[|s| - 1], t, before);
      assert t == t[..k] + t[k..];
      assert s == s[..|s| - 1] + [s[|s| - 1]];
    }
  }

  lemma InsertSorted<T>(x: T, s: seq<T>, before: (T, T) -> bool)
    requires ConsistentOn(s + [x], before) && SortedBy(s, before)
    ensures SortedBy(Insert(x, s, before), before)
  {
    var k := InsertPos(x, s, before);
    InsertPosBounds(x, s, before);
    var r := Insert(x, s, before);
    var all := s + [x];
    assert x in all;
    forall i, j | 0 <= i < j < |r|
      ensures before(r[i], r[j])
    {
      if j < k {
        assert r[i] == s[i] && r[j] == s[j];
      } else if j == k {
        assert r[j] == x && r[i] == s[i];
        if i < k - 1 {
          assert before(s[i], s[k - 1]);
          assert all[i] == s[i] && all[k - 1] == s[k - 1];
        }
      } else if i == k {
        assert r[i] == x && r[j] == s[j - 1];
        assert !before(s[j - 1], x);
        assert all[j - 1] == s[j - 1];
      } else if i < k {
        assert r[i] == s[i] && r[j] == s[j - 1];
      } else {
        assert r[i] == s[i - 1] && r[j] == s[j - 1];
      }
    }
  }

  lemma SortMember<T>(s: seq<T>, before: (T, T) -> bool, a: T)
    ensures a in Sort(s, before) <==> a in s
  {
    SortPermutes(s, before);
    assert a in Sort(s, before) <==> a in multiset(Sort(s, before));
    assert a in s <==> a in multiset(s);
  }

  /** With a comparator consistent on the input, the result is ordered by it. */
  lemma {:induction false} SortSorted<T>(s: seq<T>, before: (T, T) -> bool)
    requires ConsistentOn(s, before)
    ensures SortedBy(Sort(s, before), before)
  {
    if s != [] {
      var init, x := s[..|s| - 1], s[|s| - 1];
      assert s == init + [x];
      ConsistentOnSub(s, init, before);
      SortSorted(init, before);
      forall a | a in Sort(init, before) + [x]
        ensures a in s
      {
        if a != x {
          assert a in Sort(init, before);
          SortMember(init, before, a);
          assert a in init + [x];
        }
      }
      ConsistentOnSub(s, Sort(init, before) + [x], before);
      InsertSorted(x, Sort(init, before), before);
    }
  }

  /** `Insert` read the way the scan runs, from the right. */
  lemma InsertUnfold<T>(x: T, s: seq<T>, before: (T, T) -> bool)
    requires s != [] && !before(s[|s| - 1], x)
    ensures Insert(x, s, before) == Insert(x, s[..|s| - 1], before) + [s[|s| - 1]]
  {
    var init := s[..|s| - 1];
    var k := InsertPos(x, s, before);
    assert k == InsertPos(x, init, before);
    assert s[..k] == init[..k];
    assert s[k..] == init[k..] + [s[|s| - 1]];
  }

  /** `x` goes last when the last element may stay in front of it. */
  lemma InsertAtEnd<T>(x: T, s: seq<T>, before: (T, T) -> bool)
    requires s == [] || before(s[|s| - 1], x)
    ensures Insert(x, s, before) == s + [x]
  {
    assert s[..|s|] == s;
  }

  /** Inserting `x` appends it to the selection of any `p` that no element
      placed after it satisfies. */
  lemma {:induction false} InsertFilter<T>(x: T, s: seq<T>, before: (T, T) -> bool, p: T -> bool)
    requires p(x) ==> forall i :: 0 <= i < |s| && !before(s[i], x) ==> !p(s[i])
    ensures Filter(Insert(x, s, before), p) == Filter(s, p) + Filter([x], p)
  {
    FilterSnoc([], x, p);
    assert [] + [x] == [x];
    if s == [] || before(s[|s| - 1], x) {
      InsertAtEnd(x, s, before);
      FilterSnoc(s, x, p);
    } else {
      var init, last := s[..|s| - 1], s[|s| - 1];
      assert p(x) ==> forall i :: 0 <= i < |init| && !before(init[i], x) ==> !p(init[i]);
      InsertFilter(x, init, before, p);
      InsertUnfold(x, s, before);
      var a := Insert(x, init, before);
      var X, L := Filter([x], p), (if p(last) then [last] else []);
      assert p(x) ==> !p(last);
      assert X == [] || L == [];
      FilterSnoc(a, last, p);
      assert s == init + [last];
      FilterSnoc(init, last, p);
      calc {
        Filter(Insert(x, s, before), p);
        Filter(a, p) + L;
        Filter(init, p) + X + L;
        Filter(init, p) + L + X;
        Filter(s, p) + X;
      }
    }
  }

  lemma InsertStable<T>(x: T, s: seq<T>, y: T, before: (T, T) -> bool)
    requires forall i :: 0 <= i < |s| && before(s[i], y) && before(y, x) ==> before(s[i], x)
    ensures Filter(Insert(x, s, before), Tied(y, before))
         == Filter(s, Tied(y, before)) + Filter([x], Tied(y, before))
  {
    InsertFilter(x, s, before, Tied(y, before));
  }

  /** Stability: the elements tied with any `y` keep their input order. */
  lemma {:induction false} SortStable<T>(s: seq<T>, y: T, before: (T, T) -> bool)
    requires ConsistentOn(s + [y], before)
    ensures Filter(Sort(s, before), Tied(y, before)) == Filter(s, Tied(y, before))
  {
    if s != [] {
      var init, x := s[..|s| - 1], s[|s| - 1];
      assert s == init + [x];
      ConsistentOnSub(s + [y], init + [y], before);
      SortStable(init, y, before);
      var all := s + [y];
      assert x in all && y in all;
      forall e | e in Sort(init, before) && before(e, y) && before(y, x)
        ensures before(e, x)
      {
        SortMember(init, before, e);
        assert e in init;
        assert e in all;
      }
      InsertStable(x, Sort(init, before), y, before);
      FilterConcat(init, [x], Tied(y, before));
    }
  }

  /** A JavaScript comparator `(a, b) => key(b) - key(a)`: descending by key. */
  function KeyDesc<T>(key: T -> int): (T, T) -> bool
  {
    (a, b) => key(a) >= key(b)
  }

  /** A JavaScript comparator `(a, b) => key(a) - key(b)`: ascending by key. */
  function KeyAsc<T>(key: T -> int): (T, T) -> bool
  {
    (a, b) => key(a) <= key(b)
  }

  lemma KeyDescConsistent<T(!new)>(key: T -> int)
    ensures TotalPreorder(KeyDesc(key))
  {
  }

  lemma KeyAscConsistent<T(!new)>(key: T -> int)
    ensures TotalPreorder(KeyAsc(key))
  {
  }

  /** Sorting descending by a key: a permutation, non-increasing in the key,
      and stable on equal keys. */
  lemma SortByKeyDesc<T(!new)>(s: seq<T>, key: T -> int)
    ensures |Sort(s, KeyDesc(key))| == |s| && multiset(Sort(s, KeyDesc(key))) == multiset(s)
    ensures forall i, j :: 0 <= i < j < |s| ==> key(Sort(s, KeyDesc(key))[i]) >= key(Sort(s, KeyDesc(key))[j])
    ensures forall y :: Filter(Sort(s, KeyDesc(key)), Tied(y, KeyDesc(key))) == Filter(s, Tied(y, KeyDesc(key)))
  {
    KeyDescConsistent(key);
    SortPermutes(s, KeyDesc(key));
    ConsistentEverywhere(s, KeyDesc(key));
    SortSorted(s, KeyDesc(key));
    forall y
      ensures Filter(Sort(s, KeyDesc(key)), Tied(y, KeyDesc(key))) == Filter(s, Tied(y, KeyDesc(key)))
    {
      ConsistentEverywhere(s + [y], KeyDesc(key));
      SortStable(s, y, KeyDesc(key));
    }
  }

  /** Sorting ascending by a key: a permutation, non-decreasing in the key,
      and stable on equal keys. */
  lemma SortByKeyAsc<T(!new)>(s: seq<T>, key: T -> int)
    ensures |Sort(s, KeyAsc(key))| == |s| && multiset(Sort(s, KeyAsc(key))) == multiset(s)
    ensures forall i, j :: 0 <= i < j < |s| ==> key(Sort(s, KeyAsc(key))[i]) <= key(Sort(s, KeyAsc(key))[j])
    ensures forall y :: Filter(Sort(s, KeyAsc(key)), Tied(y, KeyAsc(key))) == Filter(s, Tied(y, KeyAsc(key)))
  {
    KeyAscConsistent(key);
    SortPermutes(s, KeyAsc(key));
    ConsistentEverywhere(s, KeyAsc(key));
    SortSorted(s, KeyAsc(key));
    forall y
      ensures Filter(Sort(s, KeyAsc(key)), Tied(y, KeyAsc(key))) == Filter(s, Tied(y, KeyAsc(key)))
    {
      ConsistentEverywhere(s + [y], KeyAsc(key));
      SortStable(s, y, KeyAsc(key));
    }
  }

  /** Every element has a numeric key. */
  ghost predicate AllKeyed<T>(s: seq<T>, key: T -> Option<int>)
  {
    forall i :: 0 <= i < |s| ==> key(s[i]).Some?
  }

  /** Every key is a number and they never increase along `s`. */
  ghost predicate NonIncreasing<T>(s: seq<T>, key: T -> Option<int>)
  {
    AllKeyed(s, key) && forall i, j :: 0 <= i < j < |s| ==> key(s[i]).value >= key(s[j]).value
  }

  /** A comparator `(a, b) => key(b) - key(a)` whose keys may be NaN
      (`None`): a NaN difference counts as 0, so such pairs tie. */
  function OptKeyDesc<T>(key: T -> Option<int>): (T, T) -> bool
  {
    (a, b) => if key(a).Some? && key(b).Some? then key(a).value >= key(b).value else true
  }

  /** `(a, b) => key(a) - key(b)` with possibly NaN keys. */
  function OptKeyAsc<T>(key: T -> Option<int>): (T, T) -> bool
  {
    (a, b) => if key(a).Some? && key(b).Some? then key(a).value <= key(b).value else true
  }

  lemma OptKeyConsistent<T>(s: seq<T>, key: T -> Option<int>)
    requires forall i :: 0 <= i < |s| ==> key(s[i]).Some?
    ensures ConsistentOn(s, OptKeyDesc(key)) && ConsistentOn(s, OptKeyAsc(key))
  {
    forall a | a in s
      ensures key(a).Some?
    {
      var i :| 0 <= i < |s| && s[i] == a;
    }
  }

  /** When every key is a number, sorting descending by an optional key is a
      stable permutation with non-increasing keys. */
  lemma SortByOptKeyDesc<T>(s: seq<T>, key: T -> Option<int>)
    requires forall i :: 0 <= i < |s| ==> key(s[i]).Some?
    ensures |Sort(s, OptKeyDesc(key))| == |s| && multiset(Sort(s, OptKeyDesc(key))) == multiset(s)
    ensures forall i :: 0 <= i < |s| ==> key(Sort(s, OptKeyDesc(key))[i]).Some?
    ensures forall i, j :: 0 <= i < j < |s| ==> key(Sort(s, OptKeyDesc(key))[i]).value >= key(Sort(s, OptKeyDesc(key))[j]).value
    ensures forall y :: y in s ==> Filter(Sort(s, OptKeyDesc(key)), Tied(y, OptKeyDesc(key))) == Filter(s, Tied(y, OptKeyDesc(key)))
  {
    var before := OptKeyDesc(key);
    var r := Sort(s, before);
    SortPermutes(s, before);
    OptKeyConsistent(s, key);
    SortSorted(s, before);
    forall i | 0 <= i < |r|
      ensures key(r[i]).Some?
    {
      SortMember(s, before, r[i]);
    }
    forall y | y in s
      ensures Filter(r, Tied(y, before)) == Filter(s, Tied(y, before))
    {
      assert s + [y] == s + [y];
      OptKeyConsistent(s + [y], key);
      SortStable(s, y, before);
    }
  }

  /** The ascending counterpart of `SortByOptKeyDesc`. */
  lemma SortByOptKeyAsc<T>(s: seq<T>, key: T -> Option<int>)
    requires forall i :: 0 <= i < |s| ==> key(s[i]).Some?
    ensures |Sort(s, OptKeyAsc(key))| == |s| && multiset(Sort(s, OptKeyAsc(key))) == multiset(s)
    ensures forall i :: 0 <= i < |s| ==> key(Sort(s, OptKeyAsc(key))[i]).Some?
    ensures forall i, j :: 0 <= i < j < |s| ==> key(Sort(s, OptKeyAsc(key))[i]).value <= key(Sort(s, OptKeyAsc(key))[j]).value
    ensures forall y :: y in s ==> Filter(Sort(s, OptKeyAsc(key)), Tied(y, OptKeyAsc(key))) == Filter(s, Tied(y, OptKeyAsc(key)))
  {
    var before := OptKeyAsc(key);
    var r := Sort(s, before);
    SortPermutes(s, before);
    OptKeyConsistent(s, key);
    SortSorted(s, before);
    forall i | 0 <= i < |r|
      ensures key(r[i]).Some?
    {
      SortMember(s, before, r[i]);
    }
    forall y | y in s
      ensures Filter(r, Tied(y, before)) == Filter(s, Tied(y, before))
    {
      OptKeyConsistent(s + [y], key);
      SortStable(s, y, before);
    }
  }

  lemma {:induction false} SubseqMembers<T>(a: seq<T>, b: seq<T>)
    requires Subseq(a, b)
    ensures forall x :: x in a ==> x in b
  {
    if a != [] {
      if a[|a| - 1] == b[|b| - 1] && Subseq(a[..|a| - 1], b[..|b| - 1]) {
        SubseqMembers(a[..|a| - 1], b[..|b| - 1]);
        assert a == a[..|a| - 1] + [a[|a| - 1]];
        assert b == b[..|b| - 1] + [b[|b| - 1]];
      } else {
        SubseqMembers(a, b[..|b| - 1]);
        assert forall x :: x in b[..|b| - 1] ==> x in b;
      }
    }
  }

  /** Deleting elements from a sorted sequence leaves it sorted. */
  lemma {:induction false} SubseqSorted<T>(a: seq<T>, b: seq<T>, before: (T, T) -> bool)
    requires Subseq(a, b) && SortedBy(b, before)
    ensures SortedBy(a, before)
  {
    if a != [] {
      var b0 := b[..|b| - 1];
      assert SortedBy(b0, before);
      if a[|a| - 1] == b[|b| - 1] && Subseq(a[..|a| - 1], b0) {
        var a0 := a[..|a| - 1];
        SubseqSorted(a0, b0, before);
        SubseqMembers(a0, b0);
        forall i, j | 0 <= i < j < |a|
          ensures before(a[i], a[j])
        {
          if j == |a| - 1 {
            assert a[i] in a0;
            var k :| 0 <= k < |b0| && b0[k] == a[i];
          } else {
            assert a[i] == a0[i] && a[j] == a0[j];
          }
        }
      } else {
        SubseqSorted(a, b0, before);
      }
    }
  }
}
