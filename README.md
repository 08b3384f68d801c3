# Retail Sales Management System — verified model of the query engine and the client store

This project models the core of the Retail Sales Management System in Dafny.

The **backend** (`backend/src/index.js`) serves a list of sales transactions:
- It normalises each CSV row into a record.
- It precomputes the facet lists the filter panel offers.
- It answers `GET /api/sales`:
  1. validates `page` and `limit`;
  2. turns the query string into a filter spec and options;
  3. runs search, filter, sort and paginate in that order.

The **frontend** keeps four Redux slices (pagination, filters with search, sort, data). A pagination component derives its buttons from the current page. `buildQueryParams` serialises the client state into the query string the backend reads.

Modules, one per concern of the source:

| module | models |
|---|---|
| `JsText` | the JavaScript string and number semantics the code relies on: `trim`, `split`/`join`, `parseInt`, `isNaN` on strings, `String(n)`, `toLowerCase` on ASCII, `<` on strings by code point |
| `Records` | `normalizeRow` |
| `Facets` | `getDistinctValuesOptimized` |
| `Search` | `searchService.search` |
| `Filters` | `filterService.applyFilters` |
| `StableSort`, `Sorting` | `sortService.sort` and the stable `Array.prototype.sort` it calls |
| `Paging` | `paginationService.paginate` |
| `Pipeline` | `applyCombinedOperations` |
| `Request` | `validateQuery` and the handler's construction of filters and options |
| `PaginationSlice` | the pagination slice |
| `FiltersSlice` | the filters slice and the search slice |
| `SortSlice` | the sort slice |
| `DataSlice` | the data slice |
| `PaginationView` | `Pagination.jsx` |
| `ApiClient` | `buildQueryParams`, and what the server reads back from it |
| `Seqs`, `Wrappers` | order-preserving selection and `Option` |

Modelling choices:
- **Numbers.** A JavaScript number produced by `parseInt` is `Num = Int(value) | NaN`, with an unbounded integer value. NaN is carried through comparisons, `||` and `Math.min`/`Math.max` as JavaScript does.
- **Strings.** Strings are `seq<char>`.
- **Date parsing and collation.** `new Date(s)` and `localeCompare` are not written out. They are fields of a `Platform` value that every operation using them takes as a parameter. Lemmas that need `localeCompare` to be a total preorder say so in their `requires`.
- **Effectful code.** Loops that build arrays with `push` are methods with loop invariants, proved equal to a specification function.
- **Sorting.** The in-place `sort` is an insertion sort on an `array`.
- **Slices.** The slices are classes whose reducers are methods that update fields in place.

Some of the code's behaviour may surprise a reader. The model follows the code as written:
- **Descending sort.** It negates the comparator; it does not reverse the ascending order. Records that tie keep their input order in both directions (`Sorting.TiesKeepInputOrder`, `Sorting.DescendingIsNotReversal`).
- **Unparsable dates.** A record whose date does not parse is never excluded by a date bound (`Filters.UnparsableDatePasses`). Every comparison with an invalid date is false.
- **Empty `page` or `limit`.** The parameter passes validation, because `''` is falsy. It then reaches `paginate` as NaN and gives an empty page (`Paging.NaNPageIsEmpty`, `Paging.NaNSizeIsEmpty`).
- **Age bounds.** An `ageMax` of `0` is read as 999 (`Request.AgeBoundsRead`).
- **Initial client filters.** The client's initial filter state sends ages 18 to 75. The server therefore filters on that range from the first request (`ApiClient.InitialFiltersSendAges`).

## Model

| member | source | states |
|---|---|---|
| JsText.Trim | backend/src/index.js:55-79 | `trim` removes exactly the whitespace at both ends: the result is the run of the input that follows its leading whitespace, only whitespace comes after it, and it neither starts nor ends with whitespace; a trimmed string is left as it is |
| JsText.TrimIdempotent | backend/src/index.js:55 | trimming twice is trimming once |
| JsText.Split | backend/src/index.js:386 | `split` on one character gives at least one piece and no piece holds the separator |
| JsText.JoinSplit | frontend/src/services/apiClient.js:27 | joining the pieces of a split gives the string back |
| JsText.SplitJoin | backend/src/index.js:386-394 | splitting a join of separator-free pieces gives the pieces back |
| JsText.TrimEach | backend/src/index.js:386 | `map(t => t.trim())` trims each piece and keeps their number |
| JsText.ParseIntEmpty | backend/src/index.js:389-390 | `parseInt('')` is NaN |
| JsText.ParseIntDecimalString | backend/src/index.js:406-407 | `parseInt(String(n))` is `n` for every integer, numbers being exact integers in this model |
| JsText.DecimalStringIsNumeric | backend/src/index.js:342 | `isNaN(String(n))` is false for every integer |
| JsText.LowerAscii | backend/src/index.js:259 | `toLowerCase` keeps the length and folds each character |
| JsText.LowerAsciiIdempotent | backend/src/index.js:273 | lower-casing twice is lower-casing once |
| JsText.LessIrreflexive | backend/src/index.js:124-125 | no string is below itself under `<` |
| JsText.LessTransitive | backend/src/index.js:124-125 | `<` on strings is transitive |
| JsText.LessTotal | backend/src/index.js:124-125 | two different strings are ordered one way or the other |
| JsText.LessAsymmetric | backend/src/index.js:124-125 | `a < b` excludes `b < a` |
| JsText.CompareStrings | backend/src/index.js:130-134 | the default comparator of `sort()` is 0 exactly for equal strings, negative exactly when the first is below in code-point order |
| Records.NormalizeRow | backend/src/index.js:53-81 | every normalised record has trimmed text fields and tags that are trimmed, non-empty and comma-free |
| Records.TagsOfPieces | backend/src/index.js:66 | the tags are the non-empty trimmed pieces of the cell, in order, each kept exactly as often as it occurs among the pieces |
| Records.TagsAreTags | backend/src/index.js:66 | each tag kept is trimmed, non-empty and comma-free |
| Records.TagsOfEmpty | backend/src/index.js:66 | an empty tags cell gives no tags |
| Records.TagsOfJoin | backend/src/index.js:66 | splitting well-formed tags joined by commas gives them back |
| Records.NormalizeRowAge | backend/src/index.js:59 | age is the parsed integer, or 0 when the cell does not parse |
| Records.NormalizeRowQuantity | backend/src/index.js:67 | quantity is the parsed integer, or 0 when the cell does not parse |
| Records.NormalizeMissingColumns | backend/src/index.js:53-81 | a missing column gives `''` in every one of the eighteen text fields, an age or quantity of 0, or no tags |
| Records.IntRoundTrip | backend/src/index.js:59 | an integer written in decimal reads back through `parseInt(…) \|\| 0` |
| Records.NormalizeRowOf | backend/src/index.js:53-81 | a well-formed record written back as a row normalises to itself |
| Records.NormalizeRowStable | backend/src/index.js:53-81 | normalising is idempotent on the row it would write back |
| Facets.AddKeysMembers | backend/src/index.js:112-114 | adding keys keeps the old ones, adds exactly the truthy new values, and never duplicates |
| Facets.GatherMembers | backend/src/index.js:98-114 | a facet's keys are exactly the distinct truthy values the records contribute |
| Facets.CompareStringsConsistent | backend/src/index.js:130-134 | the default comparator is a consistent order on strings |
| Facets.SortedKeysAscending | backend/src/index.js:130-134 | sorting distinct keys gives them strictly ascending, and nothing else |
| Facets.AscendingUnique | backend/src/index.js:130-134 | two strictly ascending lists with the same elements are equal |
| Facets.MinAgeIsMinimum | backend/src/index.js:116-120 | the tracked minimum is the least positive age, absent exactly when there is none |
| Facets.MaxAgeIsMaximum | backend/src/index.js:116-120 | the tracked maximum is the greatest positive age, absent exactly when there is none |
| Facets.MinDateIsMinimum | backend/src/index.js:122-126 | the tracked earliest date is the lexically least non-empty date, absent exactly when every date is empty |
| Facets.MaxDateIsMaximum | backend/src/index.js:122-126 | the tracked latest date is the lexically greatest non-empty date, absent exactly when every date is empty |
| Facets.FacetListIsSortedDistinctValues | backend/src/index.js:86-134 | each facet list is strictly ascending, holds no `''`, and holds exactly the values some record has |
| Facets.RangesAreExtremes | backend/src/index.js:135-142 | the age range is 18–75 when no age is positive, else the least and greatest positive ages, each the age of some record; the date range is the extreme non-empty dates, each the date of some record, `null` when there are none |
| Facets.FacetIndexIgnoresOrder | backend/src/index.js:86-144 | the index depends only on which records there are, not on their order |
| Facets.ScanStep | backend/src/index.js:98-127 | visiting one more record is one step of the pass |
| Facets.AddTagKeys | backend/src/index.js:112-114 | the inner tag loop adds the record's tags as the specification function does |
| Facets.ScanRecords | backend/src/index.js:98-127 | the loop over the records computes the state of the pass |
| Facets.BuildFacetIndex | backend/src/index.js:86-144 | `getDistinctValuesOptimized` returns the facet index of its input |
| Search.EscapeIsLiteral | backend/src/index.js:153-154 | the escaped query is a literal pattern standing for exactly the query |
| Search.EscapePlain | backend/src/index.js:153 | a query without metacharacters is its own pattern |
| Search.ContainsIff | backend/src/index.js:154-158 | the substring test finds `t` exactly when it occurs at some position |
| Search.HitIffMentions | backend/src/index.js:153-158 | the regular-expression test is a case-insensitive substring test on name or phone |
| Search.Search | backend/src/index.js:150-163 | a blank query returns the input; otherwise the result is an order-preserving subsequence holding exactly the records whose name or phone mentions the query |
| Search.SearchResultMeaning | backend/src/index.js:150-163 | a non-blank search keeps exactly the mentioning records, in input order |
| Search.SearchIdempotent | backend/src/index.js:150-163 | searching the result again with the same query changes nothing |
| Filters.SomeShared | backend/src/index.js:207 | `some(tag => tags.includes(tag))` holds exactly when the lists share a tag |
| Filters.Check | backend/src/index.js:173-239 | the `passes` flag, with each test run only while it holds, is the conjunction of the seven criteria |
| Filters.ApplyFilters | backend/src/index.js:170-246 | the result is an order-preserving subsequence holding exactly the records that pass |
| Filters.NoFiltersKeepAll | backend/src/index.js:170-246 | with no criterion the input comes back unchanged |
| Filters.EmptyCriteriaKeepAll | backend/src/index.js:177-221 | empty lists, no age range and an empty date window keep every record |
| Filters.UnparsableDatePasses | backend/src/index.js:221-237 | a record whose date does not parse is never excluded by the date window |
| Filters.DateWindow | backend/src/index.js:221-237 | with both bounds, a parsable date passes exactly when it lies from the first day to the last day inclusive |
| Filters.SelectionIsUnion | backend/src/index.js:177-218 | within one criterion the selected values combine with OR |
| Filters.FilterTwice | backend/src/index.js:170-246 | filtering twice keeps the records passing both specs: criteria combine with AND |
| Filters.FiltersCommute | backend/src/index.js:170-246 | the order of two filters makes no difference |
| Filters.FilterIdempotent | backend/src/index.js:170-246 | filtering again with the same spec changes nothing |
| StableSort.InsertionSortedPermutes | backend/src/index.js:254-256 | sorting only rearranges: the result is a permutation |
| StableSort.InsertionSortedIsSorted | backend/src/index.js:256 | under a consistent comparator the result is sorted |
| StableSort.InsertionSortedKeepsTies | backend/src/index.js:256 | the elements that tie keep their input order (stability) |
| StableSort.InsertionSortedWithoutOrder | backend/src/index.js:269-270 | a comparator that ties everything leaves the order as it is |
| StableSort.StableSortIsUnique | backend/src/index.js:256 | two sorted, stable permutations of the same elements are equal |
| StableSort.InsertionSortedIsTheStableSort | backend/src/index.js:256 | any sorted stable permutation equals the insertion-sort order, so the choice of algorithm does not matter |
| StableSort.InsertInPlace | backend/src/index.js:256 | the shifting loop inserts `a[i]` into the sorted prefix and leaves the rest untouched |
| StableSort.SortInPlace | backend/src/index.js:256 | `a.sort(cmp)` leaves the array in the stable sorted order of its old contents |
| StableSort.SortedCopy | backend/src/index.js:254-256 | `[...items].sort(cmp)` returns the stable sorted order without touching the input |
| Sorting.Sort | backend/src/index.js:253-277 | the result is the stable sort under the chosen comparator, and a permutation of the input |
| Sorting.KeyIgnoresCase | backend/src/index.js:259 | the sort key is read without regard to case |
| Sorting.CamelCaseKey | backend/src/index.js:259-267 | `customerName` selects the name order |
| Sorting.QuantityKey | backend/src/index.js:263-264 | `quantity` selects the quantity order |
| Sorting.OrderIgnoresCase | backend/src/index.js:273 | `DESC` and `desc` sort descending, `asc` and `''` ascending |
| Sorting.UnknownKeyKeepsOrder | backend/src/index.js:269-270 | an absent or unknown key keeps the input order in either direction |
| Sorting.ComparatorConsistent | backend/src/index.js:256-274 | with comparable records the comparator is consistent in either direction |
| Sorting.SortPermutes | backend/src/index.js:253-277 | the sorted records are a permutation of the input |
| Sorting.SortOrders | backend/src/index.js:253-277 | every pair of records comes out in key order, ascending or descending as asked |
| Sorting.TiesKeepInputOrder | backend/src/index.js:253-277 | records with equal keys keep their input order in both directions |
| Sorting.DescendingIsNotReversal | backend/src/index.js:273 | two records with equal quantity come out in input order both ascending and descending |
| Paging.CeilDiv | backend/src/index.js:286 | `Math.ceil(n / d)`: the least page count whose pages hold `n` records |
| Paging.RelativeIndex | backend/src/index.js:293 | `slice` reads an index into `[0, length]` |
| Paging.Slice | backend/src/index.js:293 | a slice is no longer than its input and holds only its elements |
| Paging.TotalPagesIsCeiling | backend/src/index.js:286 | the page count is at least 1 and the ceiling of records over page size |
| Paging.ClampPageInRange | backend/src/index.js:287 | the page is clamped into `[1, totalPages]`, and a page in range is kept |
| Paging.PageStart | backend/src/index.js:289 | a page in range starts inside the records, before their end when there are any |
| Paging.SliceWindow | backend/src/index.js:289-293 | the slice is `size` records from the start index, cut at the end |
| Paging.PaginateNumeric | backend/src/index.js:284-301 | with numbers: the page is clamped, the items are its window of records, at most `size` of them, and non-empty when there are records |
| Paging.NaNPageIsEmpty | backend/src/index.js:287-293 | a NaN page gives a NaN page number and no records |
| Paging.NaNSizeIsEmpty | backend/src/index.js:286-293 | a NaN page size gives one page and no records |
| Paging.PageIsSlice | backend/src/index.js:289-293 | page `k` holds the records from `(k - 1) * size`, `size` of them or up to the end |
| Paging.FirstPagesArePrefix | backend/src/index.js:284-301 | pages 1 to `k`, in turn, are the first `min(k * size, n)` records |
| Paging.PagesCoverAll | backend/src/index.js:284-301 | walking through every page visits each record exactly once, in order |
| Pipeline.ApplyCombinedOperations | backend/src/index.js:307-334 | the response page paginates the arranged records, counts the matching ones, holds at most `limit` of them, and only matching ones |
| Pipeline.ArrangedPermutesMatching | backend/src/index.js:322-325 | the sort stage only reorders the matching records |
| Pipeline.MatchingMembers | backend/src/index.js:312-320 | a record matches exactly when it is in the data, passes the filters and, for a search, is mentioned |
| Pipeline.ResponseCounts | backend/src/index.js:327-333 | `totalRecords` counts the matching records, the page holds at most `limit` of them and only those |
| Pipeline.PlainRequestIsPrefix | backend/src/index.js:381-408 | a request with no parameters gets the handler's defaults, page 1 and limit 10, and returns the first ten records as loaded |
| Request.ValidatedNumbers | backend/src/index.js:339-357 | after validation the page is NaN or at least 1 and the limit NaN or from 1 to 100 |
| Request.PageVerdict | backend/src/index.js:342-347 | a decimal page is rejected exactly when it is below 1 |
| Request.LimitVerdict | backend/src/index.js:349-354 | with a good page, a decimal limit is accepted exactly when it is from 1 to 100 |
| Request.NonNumericPageRejected | backend/src/index.js:342 | a page that is not numeric text is rejected even when `parseInt` would read a prefix |
| Request.SplitListOfJoin | backend/src/index.js:386 | a comma-joined list of trimmed comma-free values splits back into the values |
| Request.AgeBoundsRead | backend/src/index.js:388-391 | the age range defaults a missing or zero minimum to 0 and maximum to 999, and is null when neither bound is given |
| Request.ReadsAs | backend/src/index.js:406-407 | a parameter written from an integer is truthy and parses back to it |
| Request.EmptyQueryFiltersNothing | backend/src/index.js:385-399 | a query without filter parameters builds the spec with no criterion |
| PaginationSlice.PaginationState.constructor | frontend/src/store/slices/paginationSlice.js:5 | the store starts on page 1 with page size 10 |
| PaginationSlice.PaginationState.SetPage | frontend/src/store/slices/paginationSlice.js:7-9 | the page becomes the payload; the page size is kept |
| PaginationSlice.PaginationState.NextPage | frontend/src/store/slices/paginationSlice.js:10-12 | the page goes up by one; validity is kept |
| PaginationSlice.PaginationState.PrevPage | frontend/src/store/slices/paginationSlice.js:13-15 | the page goes down by one but never below 1 |
| PaginationSlice.PaginationState.ResetPage | frontend/src/store/slices/paginationSlice.js:16-18 | the page goes back to 1 |
| SortSlice.SortState.constructor | frontend/src/store/slices/sortSlice.js:5 | the store starts sorting by date, descending |
| SortSlice.SortState.SetSort | frontend/src/store/slices/sortSlice.js:7-11 | the field as given; the order as given, or `asc` when absent or empty |
| SortSlice.SortState.ClearSort | frontend/src/store/slices/sortSlice.js:12-15 | no field, ascending |
| FiltersSlice.FiltersState.constructor | frontend/src/store/slices/filtersSlice.js:3-11 | empty lists, ages 18 to 75, no dates |
| FiltersSlice.FiltersState.SetRegionFilter | frontend/src/store/slices/filtersSlice.js:17-19 | only the regions change, to the payload |
| FiltersSlice.FiltersState.SetGenderFilter | frontend/src/store/slices/filtersSlice.js:20-22 | only the genders change, to the payload |
| FiltersSlice.FiltersState.SetAgeRangeFilter | frontend/src/store/slices/filtersSlice.js:23-25 | only the age bounds change, to the payload |
| FiltersSlice.FiltersState.SetCategoryFilter | frontend/src/store/slices/filtersSlice.js:26-28 | only the categories change, to the payload |
| FiltersSlice.FiltersState.SetTagsFilter | frontend/src/store/slices/filtersSlice.js:29-31 | only the tags change, to the payload |
| FiltersSlice.FiltersState.SetPaymentMethodFilter | frontend/src/store/slices/filtersSlice.js:32-34 | only the payment methods change, to the payload |
| FiltersSlice.FiltersState.SetDateRangeFilter | frontend/src/store/slices/filtersSlice.js:35-37 | only the date bounds change, to the payload |
| FiltersSlice.FiltersState.ClearAllFilters | frontend/src/store/slices/filtersSlice.js:38-40 | the initial state, whatever the state before |
| FiltersSlice.SearchState.constructor | frontend/src/store/slices/filtersSlice.js:64 | the query starts empty |
| FiltersSlice.SearchState.SetSearchQuery | frontend/src/store/slices/filtersSlice.js:66-68 | the query becomes the payload |
| FiltersSlice.SearchState.ClearSearch | frontend/src/store/slices/filtersSlice.js:69-71 | the query becomes empty |
| DataSlice.DataState.constructor | frontend/src/store/slices/dataSlice.js:5-11 | no records, total 0, not loading, no error, no facet lists |
| DataSlice.DataState.SetLoading | frontend/src/store/slices/dataSlice.js:13-16 | loading starts and the error is cleared; nothing else changes |
| DataSlice.DataState.SetData | frontend/src/store/slices/dataSlice.js:17-22 | records and total replaced and loading ends; the payload's facet lists are ignored and the error is kept |
| DataSlice.DataState.SetFilterOptions | frontend/src/store/slices/dataSlice.js:23-25 | only the facet lists change |
| DataSlice.DataState.SetError | frontend/src/store/slices/dataSlice.js:26-29 | the error is stored and loading ends; the records stay |
| PaginationView.PageCountIsCeiling | frontend/src/components/Pagination.jsx:10 | the page count is 0 exactly without records, and the ceiling of records over page size |
| PaginationView.NavigationStaysInRange | frontend/src/components/Pagination.jsx:10-20 | from a page in range, Previous and Next lead to a page in range; with at most one page there is no Next |
| PaginationView.HandlePrevious | frontend/src/components/Pagination.jsx:14-16 | one page back when there is a previous page, nothing otherwise; a valid store stays valid |
| PaginationView.HandleNext | frontend/src/components/Pagination.jsx:18-20 | one page on when there is a next page, nothing otherwise, so the page never passes the last; a valid store stays valid |
| PaginationView.HandlePageSelect | frontend/src/components/Pagination.jsx:22-24 | the chosen page is stored; a valid store stays valid when the page is at least 1 |
| PaginationView.Run | frontend/src/components/Pagination.jsx:35-37 | the run from `lo` to `hi` has `hi - lo + 1` entries, numbered in order |
| PaginationView.PushRun | frontend/src/components/Pagination.jsx:35-37 | the `for` loop appends the run from `lo` to `hi` |
| PaginationView.GetPageNumbers | frontend/src/components/Pagination.jsx:26-43 | the buttons are the page window of the current page |
| PaginationView.RunMembers | frontend/src/components/Pagination.jsx:35-37 | a run holds exactly the numbers between its ends, and no ellipsis |
| PaginationView.FewPagesAllShown | frontend/src/components/Pagination.jsx:30-31 | with at most five pages every page has a button, in order, and there is no ellipsis |
| PaginationView.ManyPagesEnds | frontend/src/components/Pagination.jsx:32-40 | with more than five pages the row starts at 1 and ends at the last page; an ellipsis follows 1 exactly when the page is past 3, and precedes the last exactly when the page is before `totalPages - 2` |
| PaginationView.NumbersAscending | frontend/src/components/Pagination.jsx:26-43 | the page numbers shown are strictly increasing and within `[1, totalPages]`, and no two ellipses are adjacent |
| PaginationView.ManyPagesWindow | frontend/src/components/Pagination.jsx:32-40 | with more than five pages a page is shown exactly when it is the first, the last or next to the current one; the current page is shown; at most seven buttons |
| ApiClient.BuildQueryParams | frontend/src/services/apiClient.js:5-62 | the appended pairs are each parameter's pair, if any, in the fixed order |
| ApiClient.AppendSortParams | frontend/src/services/apiClient.js:20-23 | appends `sortBy` and `sortOrder` together, or neither |
| ApiClient.AppendListParams | frontend/src/services/apiClient.js:25-40 | appends each non-empty list, joined with commas |
| ApiClient.AppendRangeParams | frontend/src/services/apiClient.js:42-58 | appends each truthy age and date bound |
| ApiClient.ParamsInOrder | frontend/src/services/apiClient.js:5-62 | the parameters come in the fixed order, each at most once, each with the value computed for it |
| ApiClient.ParamsRead | frontend/src/services/apiClient.js:5-62 | a parameter is present exactly when a value is computed for it, and carries that value |
| ApiClient.SortParamsTogether | frontend/src/services/apiClient.js:20-23 | `sortBy` and `sortOrder` are sent together exactly when a sort field is set, the order defaulting to `asc` |
| ApiClient.ListsJoined | frontend/src/services/apiClient.js:25-40 | each list is sent joined with commas, and left out when empty |
| ApiClient.FalsyBoundsLeftOut | frontend/src/services/apiClient.js:42-58 | an age bound of 0 or NaN and an absent or empty date bound are left out |
| ApiClient.NullFiltersSendNoFilter | frontend/src/services/apiClient.js:25 | without a filters object no filter parameter is sent |
| ApiClient.BuiltQuery | frontend/src/services/apiClient.js:5-62 | the server reads from the list the value computed for each parameter |
| ApiClient.ListReadBack | frontend/src/services/apiClient.js:27 | a list of non-empty, trimmed, comma-free values, joined by the client and split by the server, is the list again |
| ApiClient.ServerReadsLists | backend/src/index.js:386-394 | the server filters on exactly the lists the client selected |
| ApiClient.NullFiltersFilterNothing | backend/src/index.js:385-399 | without a filters object the server builds the spec with no criterion |
| ApiClient.AgeBoundReadBack | backend/src/index.js:389-390 | an age bound is sent exactly when it is truthy, and reads back as itself |
| ApiClient.ServerReadsAges | backend/src/index.js:388-391 | the server's age range is null when neither bound is set, else the client's bounds with an unset minimum as 0 and maximum as 999 |
| ApiClient.InitialFiltersSendAges | frontend/src/services/apiClient.js:42-49 | untouched client filters make the server filter on ages 18 to 75 and nothing else |
| ApiClient.ServerReadsDates | backend/src/index.js:395-398 | the server's date window carries the client's non-empty bounds and admits exactly the dates the client's bounds admit |
| ApiClient.ServerReadsOptions | backend/src/index.js:401-408 | the server's search, page, limit and sort are the client's, with an empty search and unset sort absent and a page or page size of 0 falling back to 1 and 10 |
| ApiClient.ClientPagingIsValid | backend/src/index.js:339-357 | the client's page of at least 1 and page size from 1 to 100 pass validation |

## Left out

- HTTP and Express are not modelled: routing, JSON responses, status codes, the 404 handler, `/health`, the `/api/filters/options` route and server start-up. `validateQuery` is modelled as a function from the query to a verdict.
- `loadData` is not modelled: CSV reading, the cache and the `LoadFailure` error. The model starts from rows given as maps from column to text.
- The floating-point columns are left out: price per unit, discount, total and final amount. Their `parseFloat` is floating point, and no core operation reads them.
- `new Date(s)` is not modelled. Its result is an abstract day number, or none for an invalid date, supplied by `Platform.parseDate`. The `setDate(+1)` step is modelled as the next day number.
- `localeCompare` is not modelled. It is an abstract comparator, `Platform.collate`.
- The regular-expression engine is modelled only for the literal patterns the escaped query produces.
- Case folding covers ASCII letters only. There is no Unicode normalisation.
- Sorting with an inconsistent comparator is not modelled. An example is a date sort with unparsable dates, where the comparator returns NaN. JavaScript leaves the order implementation-defined there. Every sorting lemma requires a consistent comparator, and the model's order is then the only stable one.
- Query parameters given more than once (arrays in Express's `req.query`) are not modelled.
- URL encoding and `toString` of `URLSearchParams` are not modelled. The model keeps the list of appended pairs, and the server reads the first value of each name.
- `fetchSalesData`, `fetchFilterOptions` and the React hooks that dispatch to the store are not modelled: these are I/O and wiring.
- React rendering and the store setup are not modelled.
- Immer's copy-on-write is not modelled: the reducers update fields in place.
- `App.jsx` builds its own query string and does not render the `Pagination` component. The model follows the component as written.
- JsText.ParseIntDecimalString: numbers are exact integers. JavaScript numbers are doubles, exact only up to 2^53, and `String(n)` uses exponent form from 1e21. So the round trip, and `Records.IntRoundTrip`, `Records.NormalizeRowOf` for ages and quantities, `Request.ReadsAs`, `ApiClient.ServerReadsOptions` and the quantity order, hold in JavaScript only for safe integers.
- JsText.CompareStrings: strings are ordered by Unicode code point, not by UTF-16 code unit as JavaScript's `<` and default `sort()` do. The orders differ only between a character above U+FFFF and one from U+E000 to U+FFFF. `JsText.Less`, the facet lists and the date extremes inherit this.
- PaginationView.ManyPagesEnds: the ellipsis conditions are stated for a current page of at least 1, and at most the page count, respectively. Outside that range the ellipsis and the window overlap the ends, and the equivalences do not hold.
- ApiClient.ServerReadsLists: stated only for lists whose values are non-empty, trimmed and free of commas. Other values are changed by the server's `split` and `trim`, so the server would not read back the same lists.
