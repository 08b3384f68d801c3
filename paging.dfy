/**
 * `paginationService.paginate`: the number of pages, the requested page clamped
 * into range, and the slice of records on that page. Page and page size are the
 * `parseInt` of query parameters and so may be NaN: a NaN page gives a NaN page
 * number and an empty slice, a NaN page size one page and an empty slice.
 */
module Paging {
  import opened JsText

  /** The `pagination` object of a response. */
  datatype PageMeta = PageMeta(page: Num, pageSize: Num, totalRecords: nat, totalPages: nat)

  datatype Page<T> = Page(items: seq<T>, pagination: PageMeta)

  /** A page size the engine can be handed: validation lets through NaN or 1 to 100. */
  predicate ValidSize(pageSize: Num) {
    pageSize.NaN? || pageSize.value >= 1
  }

  /** `Math.ceil(n / d)` for a positive integer `d`. */
  function CeilDiv(n: nat, d: int): (q: nat)
    requires d >= 1
    ensures (q - 1) * d < n <= q * d || (n == 0 && q == 0)
  {
    (n + d - 1) / d
  }

  /** `Math.ceil(totalRecords / pageSize) || 1`: NaN and 0 both fall back to 1. */
  function TotalPages(n: nat, pageSize: Num): nat
    requires ValidSize(pageSize)
  {
    if pageSize.NaN? then 1
    else
      var c := CeilDiv(n, pageSize.value);
      if c == 0 then 1 else c
  }

  /** `Math.max(1, Math.min(page, totalPages))`: NaN stays NaN. */
  function ClampPage(page: Num, totalPages: nat): Num {
    if page.NaN? then NaN
    else Int(Max(1, Min(page.value, totalPages)))
  }

  function Min(a: int, b: int): int { if a <= b then a else b }
  function Max(a: int, b: int): int { if a >= b then a else b }

  /** `(x - 1) * y` on numbers that may be NaN. */
  function StartIndex(page: Num, pageSize: Num): Num {
    if page.NaN? || pageSize.NaN? then NaN else Int((page.value - 1) * pageSize.value)
  }

  function Plus(a: Num, b: Num): Num {
    if a.NaN? || b.NaN? then NaN else Int(a.value + b.value)
  }

  /** How `slice` reads an index: NaN as 0, a negative one from the end, all clamped into `[0, len]`. */
  function RelativeIndex(x: Num, len: nat): (k: nat)
    ensures k <= len
  {
    if x.NaN? then 0
    else if x.value < 0 then Max(len + x.value, 0)
    else Min(x.value, len)
  }

  /** `s.slice(start, end)`. */
  function Slice<T>(s: seq<T>, start: Num, end: Num): (r: seq<T>)
    ensures |r| <= |s|
    ensures forall x :: x in r ==> x in s
  {
    var from, to := RelativeIndex(start, |s|), RelativeIndex(end, |s|);
    if from < to then s[from..to] else []
  }

  /** `paginationService.paginate(items, page, pageSize)`. */
  function Paginate<T>(items: seq<T>, page: Num, pageSize: Num): Page<T>
    requires ValidSize(pageSize)
  {
    var totalRecords := |items|;
    var totalPages := TotalPages(totalRecords, pageSize);
    var validPage := ClampPage(page, totalPages);
    var startIndex := StartIndex(validPage, pageSize);
    var endIndex := Plus(startIndex, pageSize);
    Page(Slice(items, startIndex, endIndex), PageMeta(validPage, pageSize, totalRecords, totalPages))
  }

  // ------------------------------------------------------------- properties

  /** The number of pages is the ceiling of records over page size, and at least 1. */
  lemma TotalPagesIsCeiling(n: nat, size: int)
    requires size >= 1
    ensures TotalPages(n, Int(size)) >= 1
    ensures n > 0 ==> (TotalPages(n, Int(size)) - 1) * size < n <= TotalPages(n, Int(size)) * size
    ensures n == 0 ==> TotalPages(n, Int(size)) == 1
  {
  }

  /** The clamped page lies in `[1, totalPages]` and keeps a page that is already in range. */
  lemma ClampPageInRange(page: int, totalPages: nat)
    requires totalPages >= 1
    ensures ClampPage(Int(page), totalPages).Int?
    ensures 1 <= ClampPage(Int(page), totalPages).value <= totalPages
    ensures 1 <= page <= totalPages ==> ClampPage(Int(page), totalPages).value == page
    ensures page < 1 ==> ClampPage(Int(page), totalPages).value == 1
    ensures page > totalPages ==> ClampPage(Int(page), totalPages).value == totalPages
  {
  }

  /** A page within the page count starts inside the records, and before their end when there are any. */
  lemma PageStart(n: nat, p: int, size: int)
    requires size >= 1 && 1 <= p <= TotalPages(n, Int(size))
    ensures 0 <= (p - 1) * size <= n
    ensures n > 0 ==> (p - 1) * size < n
  {
    var tp := TotalPages(n, Int(size));
    TotalPagesIsCeiling(n, size);
    MultiplyMonotone(p - 1, tp - 1, size);
  }

  lemma MultiplyMonotone(a: int, b: int, c: int)
    requires 0 <= a <= b && c >= 0
    ensures a * c <= b * c
  {
  }

  /** The slice from an index inside the records, `size` long, cut at their end. */
  lemma SliceWindow<T>(items: seq<T>, start: int, size: int)
    requires size >= 1 && 0 <= start <= |items|
    ensures Slice(items, Int(start), Int(start + size)) == items[start..Min(start + size, |items|)]
  {
  }

  /**
   * With numeric page and size: the page is clamped into `[1, totalPages]`, the
   * slice is `[(page - 1) * size, page * size)` cut at the end of the records,
   * it holds at most `size` records, and it is empty only when there are none.
   */
  lemma PaginateNumeric<T>(items: seq<T>, page: int, size: int)
    requires size >= 1
    ensures var r := Paginate(items, Int(page), Int(size));
      var tp := r.pagination.totalPages;
      var p := r.pagination.page;
      p.Int? && 1 <= p.value <= tp &&
      (1 <= page <= tp ==> p.value == page) &&
      (page < 1 ==> p.value == 1) &&
      (page > tp ==> p.value == tp) &&
      r.pagination.totalRecords == |items| &&
      r.pagination.pageSize == Int(size) &&
      var start := (p.value - 1) * size;
      0 <= start <= |items| &&
      r.items == items[start..Min(start + size, |items|)] &&
      |r.items| <= size &&
      (|items| > 0 ==> |r.items| > 0)
  {
    var n := |items|;
    var tp := TotalPages(n, Int(size));
    TotalPagesIsCeiling(n, size);
    ClampPageInRange(page, tp);
    var p := ClampPage(Int(page), tp).value;
    PageStart(n, p, size);
    var start := (p - 1) * size;
    assert StartIndex(Int(p), Int(size)) == Int(start);
    SliceWindow(items, start, size);
  }

  /** A NaN page (an empty `page` parameter) gives a NaN page number and no records. */
  lemma NaNPageIsEmpty<T>(items: seq<T>, pageSize: Num)
    requires ValidSize(pageSize)
    ensures Paginate(items, NaN, pageSize).items == []
    ensures Paginate(items, NaN, pageSize).pagination.page.NaN?
  {
  }

  /** A NaN page size (an empty `limit` parameter) gives one page and no records. */
  lemma NaNSizeIsEmpty<T>(items: seq<T>, page: Num)
    ensures Paginate(items, page, NaN).items == []
    ensures Paginate(items, page, NaN).pagination.totalPages == 1
    ensures page.Int? ==> Paginate(items, page, NaN).pagination.page == Int(1)
  {
  }

  /** The records of pages 1 to `k`, one page after another. */
  function FirstPages<T>(items: seq<T>, size: int, k: nat): seq<T>
    requires size >= 1
  {
    if k == 0 then [] else FirstPages(items, size, k - 1) + Paginate(items, Int(k), Int(size)).items
  }

  /** Page `k`, within the page count, holds the `size` records from `start = (k - 1) * size` on, cut at the end. */
  lemma PageIsSlice<T>(items: seq<T>, size: int, k: int, start: int)
    requires size >= 1 && 1 <= k <= TotalPages(|items|, Int(size)) && start == (k - 1) * size
    ensures 0 <= start <= |items|
    ensures Paginate(items, Int(k), Int(size)).items == items[start..Min(start + size, |items|)]
  {
    PaginateNumeric(items, k, size);
  }

  lemma PrefixThenSlice<T>(items: seq<T>, i: int, j: int)
    requires 0 <= i <= j <= |items|
    ensures items[..i] + items[i..j] == items[..j]
  {
  }

  /** The first `k` pages, for `k` within the page count, are the first `min(k * size, n)` records. */
  lemma {:induction false} FirstPagesArePrefix<T>(items: seq<T>, size: int, k: nat)
    requires size >= 1 && k <= TotalPages(|items|, Int(size))
    ensures FirstPages(items, size, k) == items[..Min(k * size, |items|)]
  {
    if k > 0 {
      FirstPagesArePrefix(items, size, k - 1);
      var start := (k - 1) * size;
      PageIsSlice(items, size, k, start);
      assert k * size == start + size;
      PrefixThenSlice(items, start, Min(start + size, |items|));
    }
  }

  /** Walking through every page visits each record exactly once, in order. */
  lemma PagesCoverAll<T>(items: seq<T>, size: int)
    requires size >= 1
    ensures FirstPages(items, size, TotalPages(|items|, Int(size))) == items
  {
    var tp := TotalPages(|items|, Int(size));
    FirstPagesArePrefix(items, size, tp);
    TotalPagesIsCeiling(|items|, size);
    assert items[..|items|] == items;
  }
}
