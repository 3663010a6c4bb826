/** Totals per key kept in a JavaScript `Map` (or a plain object used as
    one): `m.set(k, (m.get(k) || 0) + v)` for each element, with the keys in
    the order they were first set. */
module KeyedSums {
  import opened Seqs
  import opened FirstWins
  import opened Distinct

  /** `m.get(k) || 0` (or `obj[k] || 0`): a missing key reads as 0. */
  function Get(m: map<string, int>, k: string): int
  {
    if k in m then m[k] else 0
  }

  /** The keys in insertion order, and the value under each. */
  datatype Sums = Sums(keys: seq<string>, total: map<string, int>)

  /** One `set`: a new key goes to the end of the order. */
  function Add(t: Sums, k: string, v: int): Sums
  {
    Sums(if k in t.keys then t.keys else t.keys + [k], t.total[k := Get(t.total, k) + v])
  }

  /** The loop read as a fold over the elements. */
  function SumsOf<T>(s: seq<T>, key: T -> string, val: T -> int): Sums
  {
    if s == [] then Sums([], map[])
    else Add(SumsOf(s[..|s| - 1], key, val), key(s[|s| - 1]), val(s[|s| - 1]))
  }

  function KeyIs<T>(key: T -> string, k: string): T -> bool
  {
    (x: T) => key(x) == k
  }

  /** The independent description of the result: the keys are the distinct
      keys of the elements in first-appearance order, and each total is the
      sum over the elements with that key. */
  ghost predicate Summed<T>(s: seq<T>, key: T -> string, val: T -> int, t: Sums)
  {
    && t.keys == Uniq(Map(s, key))
    && (forall k :: k in t.total <==> k in t.keys)
    && (forall k :: k in t.total ==> t.total[k] == Sum(Filter(s, KeyIs(key, k)), val))
  }

  /** The fold computes the per-key sums. */
  lemma {:induction false} SumsOfSpec<T>(s: seq<T>, key: T -> string, val: T -> int)
    ensures Summed(s, key, val, SumsOf(s, key, val))
  {
    if s != [] {
      var pre, x := s[..|s| - 1], s[|s| - 1];
      SumsOfSpec(pre, key, val);
      assert s == pre + [x];
      SumsStepKeys(pre, x, key, val);
      forall k | k in SumsOf(s, key, val).total
        ensures SumsOf(s, key, val).total[k] == Sum(Filter(s, KeyIs(key, k)), val)
      {
        SumsStepTotal(pre, x, key, val, k);
      }
    }
  }

  /** One element more: its key, if new, goes to the end. */
  lemma SumsStepKeys<T>(pre: seq<T>, x: T, key: T -> string, val: T -> int)
    requires Summed(pre, key, val, SumsOf(pre, key, val))
    ensures SumsOf(pre + [x], key, val).keys == Uniq(Map(pre + [x], key))
  {
    var s := pre + [x];
    assert s[..|pre|] == pre;
    var m := Map(pre, key);
    assert Map(s, key) == m + [key(x)];
    assert (m + [key(x)])[..|m|] == m;
    KeysIdentity(Uniq(m), key(x));
  }

  /** A sum over the elements kept by a filter, one element more. */
  lemma FilterSumStep<T>(pre: seq<T>, x: T, p: T -> bool, val: T -> int)
    ensures Sum(Filter(pre + [x], p), val) == Sum(Filter(pre, p), val) + (if p(x) then val(x) else 0)
  {
    assert (pre + [x])[..|pre|] == pre;
    var f := Filter(pre, p);
    if p(x) {
      assert Filter(pre + [x], p) == f + [x];
      assert (f + [x])[..|f|] == f;
    } else {
      assert Filter(pre + [x], p) == f;
    }
  }

  /** One element more: only its key's total grows, by its value. */
  lemma SumsStepTotal<T>(pre: seq<T>, x: T, key: T -> string, val: T -> int, k: string)
    requires Summed(pre, key, val, SumsOf(pre, key, val))
    requires k in SumsOf(pre + [x], key, val).total
    ensures SumsOf(pre + [x], key, val).total[k] == Sum(Filter(pre + [x], KeyIs(key, k)), val)
  {
    var s := pre + [x];
    assert s[..|pre|] == pre;
    var before := SumsOf(pre, key, val);
    FilterSumStep(pre, x, KeyIs(key, k), val);
    if key(x) == k && k !in before.total {
      UniqFacts(Map(pre, key));
      assert forall i :: 0 <= i < |pre| ==> key(pre[i]) in Map(pre, key);
      FilterNone(pre, KeyIs(key, k));
    }
  }
}
