/** The client-side pagination the settings tables share:
    `totalPages = Math.ceil(n / size)`, `startIndex = (page - 1) * size` and
    `items.slice(startIndex, startIndex + size)`. */
module Paging {
  import opened JsText

  /** `Math.ceil(n / size)` */
  function PageCount(n: nat, size: nat): nat
    requires size > 0
  {
    (n + size - 1) / size
  }

  /** The page count is the least number of pages that holds `n` items. */
  lemma PageCountSpec(n: nat, size: nat)
    requires size > 0
    ensures n <= PageCount(n, size) * size
    ensures PageCount(n, size) > 0 ==> (PageCount(n, size) - 1) * size < n
    ensures PageCount(n, size) == 0 <==> n == 0
  {
    var c := PageCount(n, size);
    var r := (n + size - 1) % size;
    assert c * size + r == n + size - 1;
    assert 0 <= r < size;
    if c > 0 {
      assert (c - 1) * size == c * size - size;
    }
  }

  /** `(currentPage - 1) * size` */
  function PageStart(page: int, size: nat): int
  {
    (page - 1) * size
  }

  /** The items shown on a page. */
  function PageOf<T>(s: seq<T>, page: int, size: nat): seq<T>
  {
    JsSlice(s, PageStart(page, size), PageStart(page, size) + size)
  }

  /** `s.slice(start, start + size)` for a start that is not negative. */
  lemma SliceFrom<T>(s: seq<T>, start: int, size: nat)
    requires start >= 0
    ensures var p := JsSlice(s, start, start + size);
      && |p| <= size
      && (forall i :: 0 <= i < |p| ==> start + i < |s| && p[i] == s[start + i])
      && (p != [] <==> start < |s| && size > 0)
      && (start + size <= |s| ==> |p| == size)
  {
  }

  lemma MulLe(a: int, b: int, size: nat)
    requires a <= b
    ensures a * size <= b * size
  {
    assert b * size - a * size == (b - a) * size;
  }

  lemma MulMonotone(a: int, b: int, size: nat)
    requires size > 0 && a * size < b * size
    ensures a < b
  {
    assert (b - a) * size == b * size - a * size;
  }

  /** A page holds at most `size` items, the ones starting at its start
      index and in their order; it is empty exactly when it lies past the
      last page, and every page before the last is full. */
  lemma PageOfSpec<T>(s: seq<T>, page: int, size: nat)
    requires size > 0 && page >= 1
    ensures var p := PageOf(s, page, size);
      && |p| <= size
      && (forall i :: 0 <= i < |p| ==> PageStart(page, size) + i < |s| && p[i] == s[PageStart(page, size) + i])
      && (p != [] <==> page <= PageCount(|s|, size))
      && (page < PageCount(|s|, size) ==> |p| == size)
  {
    var start := PageStart(page, size);
    MulLe(0, page - 1, size);
    SliceFrom(s, start, size);
    PageCountSpec(|s|, size);
    var c := PageCount(|s|, size);
    if page <= c {
      MulLe(page - 1, c - 1, size);
    } else {
      MulLe(c, page - 1, size);
    }
    if page < c {
      MulLe(page, c - 1, size);
      assert start + size == page * size;
    }
  }

  /** Every item is on exactly one page: item `i` is at position
      `i % size` of page `i / size + 1`. */
  lemma ItemOnPage<T>(s: seq<T>, i: nat, size: nat)
    requires size > 0 && i < |s|
    ensures var page := i / size + 1;
      && 1 <= page <= PageCount(|s|, size)
      && i % size < |PageOf(s, page, size)|
      && PageOf(s, page, size)[i % size] == s[i]
  {
    var page := i / size + 1;
    assert PageStart(page, size) == i / size * size;
    assert i / size * size + i % size == i;
    PageCountSpec(|s|, size);
    var c := PageCount(|s|, size);
    assert i / size * size <= i < c * size;
    MulMonotone(i / size, c, size);
    PageOfSpec(s, page, size);
    var p := PageOf(s, page, size);
    assert |p| > i % size by {
      var start := PageStart(page, size);
      var from, to := SliceIndex(|s|, start), SliceIndex(|s|, start + size);
      assert from == start && start + i % size < |s|;
    }
  }
}
