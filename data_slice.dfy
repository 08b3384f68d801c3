/**
 * The `data` slice of the client store: the records of the page on screen,
 * the total count, the loading flag, the last error and the facet lists.
 * A fetch goes `setLoading`, then `setData` or `setError`; the facet lists
 * arrive separately through `setFilterOptions`.
 */
module DataSlice {
  import opened Wrappers
  import opened Records
  import opened Facets

  class DataState {
    var items: seq<Record>
    var total: int
    var loading: bool
    var error: Option<string>
    var filterOptions: Option<FacetIndex>

    /** `initialState`: no records, total 0, not loading, no error, no facet lists. */
    constructor ()
      ensures items == [] && total == 0 && !loading && error == None && filterOptions == None
    {
      items, total, loading, error, filterOptions := [], 0, false, None, None;
    }

    /** `setLoading`: a fetch has started, and the last error is forgotten. */
    method SetLoading()
      modifies this
      ensures loading && error == None
      ensures items == old(items) && total == old(total) && filterOptions == old(filterOptions)
    {
      loading := true;
      error := None;
    }

    /**
     * `setData({ items, total, filterOptions })`: the page and the count replace
     * the old ones and loading ends. The payload's `filterOptions` is read but not
     * stored, and the error is left as it was.
     */
    method SetData(newItems: seq<Record>, newTotal: int, newFilterOptions: Option<FacetIndex>)
      modifies this
      ensures items == newItems && total == newTotal && !loading
      ensures error == old(error) && filterOptions == old(filterOptions)
    {
      items := newItems;
      total := newTotal;
      loading := false;
    }

    /** `setFilterOptions`: only the facet lists change. */
    method SetFilterOptions(payload: Option<FacetIndex>)
      modifies this
      ensures filterOptions == payload
      ensures items == old(items) && total == old(total) && loading == old(loading) && error == old(error)
    {
      filterOptions := payload;
    }

    /** `setError`: the message is kept and loading ends; the records on screen stay. */
    method SetError(payload: string)
      modifies this
      ensures error == Some(payload) && !loading
      ensures items == old(items) && total == old(total) && filterOptions == old(filterOptions)
    {
      error := Some(payload);
      loading := false;
    }
  }
}
