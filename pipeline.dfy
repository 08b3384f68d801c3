/**
 * `applyCombinedOperations`: search, then filter, then sort, then paginate,
 * each stage working on what the previous one left. Only pagination always
 * runs. The filter stage runs for every spec the handler builds: its guard asks
 * whether any field of `filters` is truthy, and the lists are always present
 * (an empty array is truthy), so the guard always holds.
 */
module Pipeline {
  import opened Wrappers
  import opened JsText
  import opened Seqs
  import opened Records
  import opened Search
  import opened Filters
  import opened Sorting
  import opened Paging
  import opened Request

  /** The records after the search stage: untouched when `search` is absent or empty. */
  function Searched(data: seq<Record>, search: Option<string>): seq<Record> {
    if Truthy(search) then SearchResult(data, search.value) else data
  }

  /** The records after the search and filter stages: the ones the response counts. */
  function Matching(p: Platform, data: seq<Record>, options: Options): seq<Record> {
    Filtered(p, Searched(data, options.search), options.filters)
  }

  /** `sortOrder || 'asc'`. */
  function OrderOrAsc(sortOrder: Option<string>): string {
    if Truthy(sortOrder) then sortOrder.value else "asc"
  }

  /** The records in the order they are paginated in: sorted when `sortBy` is non-empty. */
  function Arranged(p: Platform, data: seq<Record>, options: Options): seq<Record> {
    var matching := Matching(p, data, options);
    if Truthy(options.sortBy) then SortedRecords(p, matching, options.sortBy, OrderOrAsc(options.sortOrder))
    else matching
  }

  /** `applyCombinedOperations(data, options)`: `result` reassigned stage by stage. */
  method ApplyCombinedOperations(p: Platform, data: seq<Record>, options: Options) returns (page: Page<Record>)
    requires ValidSize(options.limit)
    ensures page == Paginate(Arranged(p, data, options), options.page, options.limit)
    ensures page.pagination.totalRecords == |Matching(p, data, options)|
    ensures options.limit.Int? ==> |page.items| <= options.limit.value
    ensures forall r :: r in page.items ==> r in Matching(p, data, options)
  {
    var result := data;
    if Truthy(options.search) {
      result := Search.Search(result, options.search.value);
    }
    result := ApplyFilters(p, result, options.filters);
    if Truthy(options.sortBy) {
      result := Sort(p, result, options.sortBy, OrderOrAsc(options.sortOrder));
    }
    page := Paginate(result, options.page, options.limit);
    ResponseCounts(p, data, options);
  }

  // ------------------------------------------------------------- properties

  /** Sorting only reorders: the arranged records are the matching ones. */
  lemma ArrangedPermutesMatching(p: Platform, data: seq<Record>, options: Options)
    ensures multiset(Arranged(p, data, options)) == multiset(Matching(p, data, options))
  {
    if Truthy(options.sortBy) {
      SortPermutes(p, Matching(p, data, options), options.sortBy, OrderOrAsc(options.sortOrder));
    }
  }

  /** A record matches exactly when it is in the data, passes the filters and, for a search, is mentioned. */
  lemma MatchingMembers(p: Platform, data: seq<Record>, options: Options, r: Record)
    ensures r in Matching(p, data, options) <==>
      r in data && Passes(p, options.filters, r) &&
      (Truthy(options.search) && !Blank(options.search.value) ==>
        Mentions(r.customerName, Trim(options.search.value)) || Mentions(r.phoneNumber, Trim(options.search.value)))
  {
    var searched := Searched(data, options.search);
    SelectMembers(searched, (x: Record) => Passes(p, options.filters, x));
    if Truthy(options.search) {
      SearchResultMeaning(data, options.search.value);
    }
  }

  /**
   * The response counts the records left after search and filter, the page
   * never holds more than the limit, and every record on it matches.
   */
  lemma ResponseCounts(p: Platform, data: seq<Record>, options: Options)
    requires ValidSize(options.limit)
    ensures var page := Paginate(Arranged(p, data, options), options.page, options.limit);
      page.pagination.totalRecords == |Matching(p, data, options)| &&
      (options.limit.Int? ==> |page.items| <= options.limit.value) &&
      forall r :: r in page.items ==> r in Matching(p, data, options)
  {
    var arranged := Arranged(p, data, options);
    ArrangedPermutesMatching(p, data, options);
    assert |arranged| == |multiset(arranged)|;
    var page := Paginate(arranged, options.page, options.limit);
    if options.limit.Int? && options.page.Int? {
      PaginateNumeric(arranged, options.page.value, options.limit.value);
    }
    forall r | r in page.items
      ensures r in Matching(p, data, options)
    {
      assert r in multiset(arranged);
    }
  }

  /**
   * With no parameter at all, the handler's defaults apply (page 1, limit 10) and
   * the page is the first ten records as loaded.
   */
  lemma PlainRequestIsPrefix(p: Platform, data: seq<Record>, q: Query)
    requires q.search.None? && q.sortBy.None? && q.page.None? && q.limit.None?
    requires q.region.None? && q.gender.None? && q.ageMin.None? && q.ageMax.None?
    requires q.category.None? && q.tags.None? && q.paymentMethod.None?
    requires q.dateFrom.None? && q.dateTo.None?
    ensures var o := BuildOptions(q);
      o.page == Int(1) && o.limit == Int(10) &&
      Paginate(Arranged(p, data, o), o.page, o.limit).items == data[..Min(10, |data|)]
  {
    EmptyQueryFiltersNothing(q);
    NoFiltersKeepAll(p, data);
    PaginateNumeric(data, 1, 10);
  }
}
