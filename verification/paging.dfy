/**
 * Page arithmetic shared by the listing pages: the page count, the window a
 * page shows (`Array.prototype.slice`), and the guarded index steps behind the
 * previous/next buttons, in the zero-based and the one-based convention.
 */
module Paging {

  function Min(a: int, b: int): int
  {
    if a <= b then a else b
  }

  /**
   * `Math.ceil(n / size)`: the number of pages needed for `n` items, counted
   * one full page at a time.
   */
  function TotalPages(n: nat, size: nat): (t: nat)
    requires size > 0
    ensures t == 0 <==> n == 0
    ensures t > 0 ==> (t - 1) * size < n <= t * size
    decreases n
  {
    if n == 0 then 0
    else if n <= size then 1
    else
      var rest := TotalPages(n - size, size);
      MulPlusOne(rest - 1, size);
      MulPlusOne(rest, size);
      rest + 1
  }

  /** The page count agrees with the closed form `(n + size - 1) / size` of the ceiling. */
  lemma TotalPagesIsCeiling(n: nat, size: nat)
    requires size > 0
    ensures TotalPages(n, size) == (n + size - 1) / size
  {
    var t := TotalPages(n, size);
    if t > 0 {
      MulPlusOne(t - 1, size);
      MulPlusOne(t, size);
      assert t * size <= n + size - 1 < (t + 1) * size;
      DivUnique(n + size - 1, size, t);
    } else {
      DivUnique(n + size - 1, size, 0);
    }
  }

  lemma DivUnique(m: nat, size: nat, q: nat)
    requires size > 0 && q * size <= m < (q + 1) * size
    ensures m / size == q
  {
    var d := m / size;
    assert m == d * size + m % size;
    MulPlusOne(d, size);
    if d < q {
      MulMonotone(d + 1, q, size);
    } else if d > q {
      MulMonotone(q + 1, d, size);
    }
  }

  lemma MulMonotone(a: nat, b: nat, c: nat)
    requires a <= b
    ensures a * c <= b * c
  {
  }

  lemma MulPlusOne(a: nat, c: nat)
    ensures a * c + c == (a + 1) * c
  {
  }

  /** A page up to the page count starts inside the list; a later one starts at or past its end. */
  lemma PageStartBounds(n: nat, page: nat, size: nat)
    requires page >= 1 && size > 0
    ensures page <= TotalPages(n, size) ==> (page - 1) * size < n
    ensures page > TotalPages(n, size) ==> n <= (page - 1) * size
  {
    var t := TotalPages(n, size);
    if page <= t {
      MulMonotone(page - 1, t - 1, size);
    } else {
      MulMonotone(t, page - 1, size);
    }
  }

  /** `s.slice(start, end)` for non-negative bounds: both are clamped to the length. */
  function Slice<T>(s: seq<T>, start: nat, end: nat): (r: seq<T>)
    ensures |r| <= |s|
    ensures start <= end ==> |r| <= end - start
    ensures start < |s| && start <= end ==> r == s[start..Min(end, |s|)]
    ensures |s| <= start ==> r == []
  {
    var lo := Min(start, |s|);
    var hi := Min(end, |s|);
    if lo <= hi then s[lo..hi] else []
  }

  /** The items on the one-based page `page`: `s.slice((page - 1) * size, (page - 1) * size + size)`. */
  function Window<T>(s: seq<T>, page: nat, size: nat): (w: seq<T>)
    requires page >= 1 && size > 0
    ensures |w| <= size
    ensures var start := (page - 1) * size;
      && (start < |s| ==> 0 < |w| && w == s[start..Min(start + size, |s|)])
      && (|s| <= start ==> w == [])
  {
    var start := (page - 1) * size;
    Slice(s, start, start + size)
  }

  /**
   * Pages 1 to the page count are the non-empty slices starting at
   * `(page - 1) * size`; every later page is empty.
   */
  lemma WindowOnPage<T>(s: seq<T>, page: nat, size: nat)
    requires page >= 1 && size > 0
    ensures var start := (page - 1) * size;
      page <= TotalPages(|s|, size) ==>
        && 0 < |Window(s, page, size)| && start < |s|
        && Window(s, page, size) == s[start..Min(start + size, |s|)]
    ensures page > TotalPages(|s|, size) ==> Window(s, page, size) == []
  {
    PageStartBounds(|s|, page, size);
  }

  /** The last page holds the `n - size * (totalPages - 1)` remaining items, between 1 and `size` of them. */
  lemma LastPageSize<T>(s: seq<T>, size: nat)
    requires size > 0 && |s| > 0
    ensures var t := TotalPages(|s|, size);
      && |Window(s, t, size)| == |s| - (t - 1) * size
      && 1 <= |s| - (t - 1) * size <= size
  {
    var t := TotalPages(|s|, size);
    MulPlusOne(t - 1, size);
  }

  /** The items of pages 1 to `k`, one page after the other. */
  function FirstPages<T>(s: seq<T>, size: nat, k: nat): seq<T>
    requires size > 0
  {
    if k == 0 then [] else FirstPages(s, size, k - 1) + Window(s, k, size)
  }

  /** Pages 1 to `k` together are the first `k * size` items (or all of them). */
  lemma {:induction false} FirstPagesArePrefix<T>(s: seq<T>, size: nat, k: nat)
    requires size > 0
    ensures FirstPages(s, size, k) == s[..Min(k * size, |s|)]
  {
    if k > 0 {
      FirstPagesArePrefix(s, size, k - 1);
      var t := TotalPages(|s|, size);
      MulPlusOne(k - 1, size);
      if k <= t {
        MulMonotone(k - 1, t - 1, size);
        assert s[..Min(k * size, |s|)] == s[..(k - 1) * size] + s[(k - 1) * size..Min(k * size, |s|)];
      } else {
        MulMonotone(t, k - 1, size);
      }
    }
  }

  /** Paging loses and repeats nothing: all pages in order are exactly the list. */
  lemma PagesCoverList<T>(s: seq<T>, size: nat)
    requires size > 0
    ensures FirstPages(s, size, TotalPages(|s|, size)) == s
  {
    var t := TotalPages(|s|, size);
    FirstPagesArePrefix(s, size, t);
    assert t * size >= |s|;
  }

  /** Zero-based "previous": steps back unless already on the first item. */
  function PrevIndex(i: nat): nat
  {
    if i > 0 then i - 1 else i
  }

  /** Zero-based "next" over `len` items: steps forward unless on the last item (`i < len - 1`). */
  function NextIndex(i: nat, len: nat): nat
  {
    if i < len - 1 then i + 1 else i
  }

  /** From a valid zero-based index both steps give a valid index, and move by at most one. */
  lemma IndexStepsStayInRange(i: nat, len: nat)
    requires i < len
    ensures PrevIndex(i) < len && NextIndex(i, len) < len
    ensures PrevIndex(i) == i <==> i == 0
    ensures NextIndex(i, len) == i <==> i == len - 1
  {
  }

  /** One-based "previous": steps back unless on page 1. */
  function PrevPage(p: nat): nat
  {
    if p > 1 then p - 1 else p
  }

  /** One-based "next": steps forward while the page is below the page count. */
  function NextPage(p: nat, total: nat): nat
  {
    if p < total then p + 1 else p
  }

  /** From a page in `1..max(total, 1)` both steps stay in that range; the ends are no-ops. */
  lemma PageStepsStayInRange(p: nat, total: nat)
    requires 1 <= p && (p <= total || p == 1)
    ensures 1 <= PrevPage(p) && (PrevPage(p) <= total || PrevPage(p) == 1)
    ensures 1 <= NextPage(p, total) && (NextPage(p, total) <= total || NextPage(p, total) == 1)
    ensures PrevPage(p) == p <==> p == 1
    ensures NextPage(p, total) == p <==> p >= total
  {
  }
}
