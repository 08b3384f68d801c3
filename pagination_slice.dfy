/**
 * The `pagination` slice of the client store: the page the user is on and the
 * page size, changed in place by four reducers. No reducer changes the page
 * size, and the page stays at least 1 under every reducer except `setPage`,
 * which stores whatever it is handed.
 */
module PaginationSlice {

  class PaginationState {
    var page: int
    var pageSize: int

    /** The page is a page number and the page size is the one the store starts with. */
    ghost predicate Valid()
      reads this
    {
      page >= 1 && pageSize == 10
    }

    /** `initialState: { page: 1, pageSize: 10 }`. */
    constructor ()
      ensures page == 1 && pageSize == 10
      ensures Valid()
    {
      page := 1;
      pageSize := 10;
    }

    /** `setPage`: the payload, stored unchanged. */
    method SetPage(payload: int)
      modifies this
      ensures page == payload && pageSize == old(pageSize)
      ensures old(Valid()) && payload >= 1 ==> Valid()
    {
      page := payload;
    }

    /** `nextPage`: one page on. */
    method NextPage()
      modifies this
      ensures page == old(page) + 1 && pageSize == old(pageSize)
      ensures old(Valid()) ==> Valid()
    {
      page := page + 1;
    }

    /** `prevPage`: one page back, but never below page 1. */
    method PrevPage()
      modifies this
      ensures old(page) > 1 ==> page == old(page) - 1
      ensures old(page) <= 1 ==> page == 1
      ensures page >= 1 && pageSize == old(pageSize)
      ensures old(Valid()) ==> Valid()
    {
      page := if page - 1 >= 1 then page - 1 else 1;
    }

    /** `resetPage`: back to the first page. */
    method ResetPage()
      modifies this
      ensures page == 1 && pageSize == old(pageSize)
      ensures old(Valid()) ==> Valid()
    {
      page := 1;
    }
  }
}
