/**
 * The computations of the `Pagination` component: how many pages there are,
 * whether Previous and Next are enabled, what the buttons dispatch, and the
 * row of page buttons `getPageNumbers` lays out: every page when there are at
 * most five, otherwise the first and the last page, the pages next to the
 * current one, and an ellipsis for each gap.
 */
module PaginationView {
  import opened Paging
  import opened PaginationSlice

  /** `Math.ceil(totalRecords / pageSize)`: no minimum, so no records means no pages. */
  function PageCount(totalRecords: nat, pageSize: int): nat
    requires pageSize >= 1
  {
    CeilDiv(totalRecords, pageSize)
  }

  /** `currentPage < totalPages`. */
  predicate HasNext(currentPage: int, totalPages: nat) {
    currentPage < totalPages
  }

  /** `currentPage > 1`. */
  predicate HasPrev(currentPage: int) {
    currentPage > 1
  }

  /** The pages hold every record, the last one is not empty, and there are none without records. */
  lemma PageCountIsCeiling(totalRecords: nat, pageSize: int)
    requires pageSize >= 1
    ensures PageCount(totalRecords, pageSize) == 0 <==> totalRecords == 0
    ensures totalRecords <= PageCount(totalRecords, pageSize) * pageSize
    ensures totalRecords > 0 ==> (PageCount(totalRecords, pageSize) - 1) * pageSize < totalRecords
  {
  }

  /** From a page in range, Previous and Next lead to a page in range; with no records there is no Next. */
  lemma NavigationStaysInRange(currentPage: int, totalPages: nat)
    ensures HasNext(currentPage, totalPages) && currentPage >= 1 ==> 1 <= currentPage + 1 <= totalPages
    ensures HasPrev(currentPage) && currentPage <= totalPages ==> 1 <= currentPage - 1 <= totalPages
    ensures totalPages == 0 && currentPage >= 1 ==> !HasNext(currentPage, totalPages)
    ensures totalPages <= 1 && currentPage >= 1 ==> !HasNext(currentPage, totalPages)
  {
  }

  /** `handlePrevious`: one page back when there is a previous page, nothing otherwise. */
  method HandlePrevious(state: PaginationState)
    modifies state
    ensures HasPrev(old(state.page)) ==> state.page == old(state.page) - 1
    ensures !HasPrev(old(state.page)) ==> state.page == old(state.page)
    ensures state.pageSize == old(state.pageSize)
    ensures old(state.Valid()) ==> state.Valid()
  {
    if HasPrev(state.page) {
      state.PrevPage();
    }
  }

  /** `handleNext`: one page on when there is a next page, nothing otherwise, so the page never passes the last. */
  method HandleNext(state: PaginationState, totalRecords: nat, pageSize: int)
    requires pageSize >= 1
    modifies state
    ensures HasNext(old(state.page), PageCount(totalRecords, pageSize)) ==> state.page == old(state.page) + 1
    ensures !HasNext(old(state.page), PageCount(totalRecords, pageSize)) ==> state.page == old(state.page)
    ensures old(state.page) <= PageCount(totalRecords, pageSize) ==> state.page <= PageCount(totalRecords, pageSize)
    ensures state.pageSize == old(state.pageSize)
    ensures old(state.Valid()) ==> state.Valid()
  {
    if HasNext(state.page, PageCount(totalRecords, pageSize)) {
      state.NextPage();
    }
  }

  /** `handlePageSelect(page)`: the chosen page, stored as it is. */
  method HandlePageSelect(state: PaginationState, page: int)
    modifies state
    ensures state.page == page && state.pageSize == old(state.pageSize)
    ensures old(state.Valid()) && page >= 1 ==> state.Valid()
  {
    state.SetPage(page);
  }

  // ------------------------------------------------------------- page buttons

  /** A button of the page row: a page number, or the `'...'` that marks a gap. */
  datatype PageEntry = Number(n: int) | Ellipsis

  /** The pages `lo` to `hi`, in order, as the `for` loop pushes them. */
  function Run(lo: int, hi: int): (r: seq<PageEntry>)
    ensures |r| == if lo <= hi then hi - lo + 1 else 0
    ensures forall i :: 0 <= i < |r| ==> r[i] == Number(lo + i)
    decreases hi - lo
  {
    if lo > hi then [] else Run(lo, hi - 1) + [Number(hi)]
  }

  /** The row of buttons for current page `c` out of `t` pages. */
  function PageWindow(c: int, t: nat): seq<PageEntry> {
    if t <= 5 then Run(1, t)
    else
      [Number(1)] + (if c > 3 then [Ellipsis] else []) +
      Run(Max(2, c - 1), Min(t - 1, c + 1)) +
      (if c < t - 2 then [Ellipsis] else []) + [Number(t)]
  }

  /** `for (let i = lo; i <= hi; i++) pages.push(i)`. */
  method PushRun(pages: seq<PageEntry>, lo: int, hi: int) returns (pushed: seq<PageEntry>)
    ensures pushed == pages + Run(lo, hi)
  {
    pushed := pages;
    var i := lo;
    while i <= hi
      invariant lo <= i && (lo <= hi ==> i <= hi + 1) && (lo > hi ==> i == lo)
      invariant pushed == pages + Run(lo, i - 1)
      decreases hi - i
    {
      pushed := pushed + [Number(i)];
      i := i + 1;
    }
    assert Run(lo, i - 1) == Run(lo, hi);
  }

  /** `getPageNumbers()`: the `pages` array built with `push`. */
  method GetPageNumbers(currentPage: int, totalPages: nat) returns (pages: seq<PageEntry>)
    ensures pages == PageWindow(currentPage, totalPages)
  {
    pages := [];
    var maxVisible := 5;
    if totalPages <= maxVisible {
      pages := PushRun(pages, 1, totalPages);
    } else {
      pages := pages + [Number(1)];
      if currentPage > 3 {
        pages := pages + [Ellipsis];
      }
      pages := PushRun(pages, Max(2, currentPage - 1), Min(totalPages - 1, currentPage + 1));
      if currentPage < totalPages - 2 {
        pages := pages + [Ellipsis];
      }
      pages := pages + [Number(totalPages)];
    }
  }

  /** The pages `lo` to `hi` are exactly the numbers between them, and no ellipsis. */
  lemma RunMembers(lo: int, hi: int)
    ensures forall n :: Number(n) in Run(lo, hi) <==> lo <= n <= hi
    ensures Ellipsis !in Run(lo, hi)
  {
    var r := Run(lo, hi);
    forall n | lo <= n <= hi
      ensures Number(n) in r
    {
      assert r[n - lo] == Number(n);
    }
  }

  /** With at most five pages, every page has a button, in order, and there is no ellipsis. */
  lemma FewPagesAllShown(c: int, t: nat)
    requires t <= 5
    ensures |PageWindow(c, t)| == t
    ensures forall i :: 0 <= i < t ==> PageWindow(c, t)[i] == Number(i + 1)
    ensures Ellipsis !in PageWindow(c, t)
  {
    RunMembers(1, t);
  }

  /**
   * With more than five pages the row starts with page 1 and ends with the last
   * page; for a current page in range, an ellipsis follows the 1 exactly when
   * the current page is past 3, and one precedes the last page exactly when the
   * current page is more than two before it.
   */
  lemma ManyPagesEnds(c: int, t: nat)
    requires t > 5
    ensures var w := PageWindow(c, t);
      |w| >= 3 && w[0] == Number(1) && w[|w| - 1] == Number(t) &&
      (1 <= c ==> (w[1] == Ellipsis <==> c > 3)) &&
      (c <= t ==> (w[|w| - 2] == Ellipsis <==> c < t - 2))
  {
  }

  /**
   * The page numbers shown rise strictly and lie between 1 and the page count,
   * and no two ellipses are adjacent, for any current page.
   */
  lemma NumbersAscending(c: int, t: nat)
    ensures var w := PageWindow(c, t);
      (forall i, j :: 0 <= i < j < |w| && w[i].Number? && w[j].Number? ==> w[i].n < w[j].n) &&
      (forall i :: 0 <= i < |w| && w[i].Number? ==> 1 <= w[i].n <= t) &&
      (forall i :: 0 <= i < |w| - 1 ==> !(w[i] == Ellipsis && w[i + 1] == Ellipsis))
  {
    var w := PageWindow(c, t);
    if t > 5 {
      var lo, hi := Max(2, c - 1), Min(t - 1, c + 1);
      var a := [Number(1)] + (if c > 3 then [Ellipsis] else []);
      var m := Run(lo, hi);
      var z := (if c < t - 2 then [Ellipsis] else []) + [Number(t)];
      assert w == a + m + z;
      assert c > 3 && c < t - 2 ==> |m| > 0;
    }
  }

  /**
   * With more than five pages, the pages shown are the first, the last and the
   * window `[max(2, c - 1), min(t - 1, c + 1)]` around the current page, which is
   * shown whenever it is in range; the row never has more than seven buttons.
   */
  lemma ManyPagesWindow(c: int, t: nat)
    requires t > 5
    ensures forall n :: Number(n) in PageWindow(c, t) <==>
      n == 1 || n == t || Max(2, c - 1) <= n <= Min(t - 1, c + 1)
    ensures 1 <= c <= t ==> Number(c) in PageWindow(c, t)
    ensures |PageWindow(c, t)| <= 7
  {
    var lo, hi := Max(2, c - 1), Min(t - 1, c + 1);
    RunMembers(lo, hi);
    var w := PageWindow(c, t);
    var a := [Number(1)] + (if c > 3 then [Ellipsis] else []);
    var z := (if c < t - 2 then [Ellipsis] else []) + [Number(t)];
    assert w == a + Run(lo, hi) + z;
    forall n
      ensures Number(n) in w <==> Number(n) in a || Number(n) in Run(lo, hi) || Number(n) in z
    {
    }
  }
}
