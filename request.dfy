/**
 * The request side of `GET /api/sales`: `validateQuery`, which rejects a bad
 * `page` or `limit` before anything runs, and the handler's reading of the
 * query string into the filter spec and the options of the pipeline.
 * A query parameter is its text, or `None` when it is not in the URL.
 */
module Request {
  import opened Wrappers
  import opened JsText
  import opened Filters
  import opened Paging

  /** The query-string parameters the handler reads. */
  datatype Query = Query(
    search: Option<string>,
    region: Option<string>,
    gender: Option<string>,
    ageMin: Option<string>,
    ageMax: Option<string>,
    category: Option<string>,
    tags: Option<string>,
    paymentMethod: Option<string>,
    dateFrom: Option<string>,
    dateTo: Option<string>,
    sortBy: Option<string>,
    sortOrder: Option<string>,
    page: Option<string>,
    limit: Option<string>)

  /** What validation decides: go on to the handler, or answer 400 with a message. */
  datatype Verdict = Proceed | BadRequest(message: string)

  /** `n < k` on a number that may be NaN (every comparison with NaN is false). */
  predicate Below(n: Num, k: int) {
    n.Int? && n.value < k
  }

  /** `n > k` on a number that may be NaN. */
  predicate Above(n: Num, k: int) {
    n.Int? && n.value > k
  }

  /**
   * `validateQuery`: a given, non-empty `page` must be numeric with `parseInt`
   * at least 1, a given, non-empty `limit` numeric with `parseInt` from 1 to 100.
   * The page is checked first.
   */
  function ValidateQuery(page: Option<string>, limit: Option<string>): Verdict {
    if Truthy(page) && (!IsNumericString(page.value) || Below(ParseInt(page.value), 1)) then
      BadRequest("Invalid page number")
    else if Truthy(limit) && (!IsNumericString(limit.value) || Below(ParseInt(limit.value), 1) || Above(ParseInt(limit.value), 100)) then
      BadRequest("Invalid limit")
    else Proceed
  }

  /** `parseInt(page)` with `page = 1` when the parameter is absent. */
  function PageNumber(page: Option<string>): Num {
    if page.None? then Int(1) else ParseInt(page.value)
  }

  /** `parseInt(limit)` with `limit = 10` when the parameter is absent. */
  function LimitNumber(limit: Option<string>): Num {
    if limit.None? then Int(10) else ParseInt(limit.value)
  }

  /** `parseInt(x)` where `x` may be `undefined` (which parses to NaN). */
  function NumOf(x: Option<string>): Num {
    if x.None? then NaN else ParseInt(x.value)
  }

  /** `x ? x.split(',').map(v => v.trim()) : []`. */
  function SplitList(x: Option<string>): seq<string> {
    if Truthy(x) then TrimEach(Split(x.value, ',')) else []
  }

  /** `ageMin || ageMax ? { min: parseInt(ageMin) || 0, max: parseInt(ageMax) || 999 } : null`. */
  function AgeRangeOf(ageMin: Option<string>, ageMax: Option<string>): Option<AgeRange> {
    if Truthy(ageMin) || Truthy(ageMax) then Some(AgeRange(IntOr(NumOf(ageMin), 0), IntOr(NumOf(ageMax), 999)))
    else None
  }

  /** `dateFrom || dateTo ? { from: dateFrom, to: dateTo } : null`. */
  function DateRangeOf(dateFrom: Option<string>, dateTo: Option<string>): Option<DateRange> {
    if Truthy(dateFrom) || Truthy(dateTo) then Some(DateRange(dateFrom, dateTo)) else None
  }

  /** The `filters` object the handler builds from the query. */
  function BuildFilterSpec(q: Query): FilterSpec {
    FilterSpec(
      SplitList(q.region), SplitList(q.gender), AgeRangeOf(q.ageMin, q.ageMax),
      SplitList(q.category), SplitList(q.tags), SplitList(q.paymentMethod),
      DateRangeOf(q.dateFrom, q.dateTo))
  }

  /** The options the handler hands to `applyCombinedOperations`. */
  datatype Options = Options(
    search: Option<string>,
    filters: FilterSpec,
    sortBy: Option<string>,
    sortOrder: Option<string>,
    page: Num,
    limit: Num)

  function BuildOptions(q: Query): Options {
    Options(q.search, BuildFilterSpec(q), q.sortBy, q.sortOrder, PageNumber(q.page), LimitNumber(q.limit))
  }

  // ------------------------------------------------------------- properties

  /**
   * A request that passes validation reaches pagination with a page that is NaN
   * or at least 1 and a limit that is NaN or from 1 to 100.
   */
  lemma ValidatedNumbers(page: Option<string>, limit: Option<string>)
    requires ValidateQuery(page, limit) == Proceed
    ensures PageNumber(page).NaN? || PageNumber(page).value >= 1
    ensures LimitNumber(limit).NaN? || 1 <= LimitNumber(limit).value <= 100
    ensures ValidSize(LimitNumber(limit))
  {
    if page.Some? && !Truthy(page) {
      ParseIntEmpty();
    }
    if limit.Some? && !Truthy(limit) {
      ParseIntEmpty();
    }
  }

  /** A page written as a decimal number is rejected exactly when it is below 1, whatever the limit. */
  lemma PageVerdict(n: int, limit: Option<string>)
    ensures n < 1 <==> ValidateQuery(Some(DecimalString(n)), limit) == BadRequest("Invalid page number")
  {
    DecimalStringIsNumeric(n);
    ParseIntDecimalString(n);
    DecimalStringNotEmpty(n);
  }

  /** With a good page, a limit written as a decimal number is accepted exactly when it is from 1 to 100. */
  lemma LimitVerdict(page: int, m: int)
    requires page >= 1
    ensures 1 <= m <= 100 <==> ValidateQuery(Some(DecimalString(page)), Some(DecimalString(m))) == Proceed
    ensures !(1 <= m <= 100) <==>
      ValidateQuery(Some(DecimalString(page)), Some(DecimalString(m))) == BadRequest("Invalid limit")
  {
    PageVerdict(page, Some(DecimalString(m)));
    DecimalStringIsNumeric(m);
    ParseIntDecimalString(m);
    DecimalStringNotEmpty(m);
  }

  lemma DecimalStringNotEmpty(n: int)
    ensures DecimalString(n) != ""
  {
  }

  /** Text that is not a number is rejected: `isNaN` catches what `parseInt` would half-read. */
  lemma NonNumericPageRejected(page: string, limit: Option<string>)
    requires page != "" && !IsNumericString(page)
    ensures ValidateQuery(Some(page), limit) == BadRequest("Invalid page number")
  {
  }

  /**
   * A list the client joins with commas comes back as the same list, provided
   * its values are trimmed, free of commas and the joined text is not empty.
   */
  lemma SplitListOfJoin(values: seq<string>)
    requires |values| >= 1
    requires forall v :: v in values ==> IsTrimmed(v) && ',' !in v
    requires Join(values, ',') != ""
    ensures SplitList(Some(Join(values, ','))) == values
  {
    SplitJoin(values, ',');
    TrimEachTrimmed(values);
  }

  /**
   * The age bounds: no range without either bound; a missing, unparsable or zero
   * minimum reads as 0 and such a maximum as 999, so `ageMax=0` lifts the cap.
   */
  lemma AgeBoundsRead(a: int, b: int)
    ensures AgeRangeOf(Some(DecimalString(a)), Some(DecimalString(b))) ==
      Some(AgeRange(if a == 0 then 0 else a, if b == 0 then 999 else b))
    ensures AgeRangeOf(None, Some(DecimalString(b))) == Some(AgeRange(0, if b == 0 then 999 else b))
    ensures AgeRangeOf(Some(DecimalString(a)), None) == Some(AgeRange(if a == 0 then 0 else a, 999))
    ensures AgeRangeOf(None, None) == None && AgeRangeOf(Some(""), Some("")) == None
  {
    ReadsAs(a);
    ReadsAs(b);
  }

  /** A parameter written from an integer is given, non-empty, and parses back to it. */
  lemma ReadsAs(n: int)
    ensures Truthy(Some(DecimalString(n))) && NumOf(Some(DecimalString(n))) == Int(n)
  {
    ParseIntDecimalString(n);
    DecimalStringNotEmpty(n);
  }

  /** A query with no filter parameter builds a spec under which every record passes. */
  lemma EmptyQueryFiltersNothing(q: Query)
    requires q.region.None? && q.gender.None? && q.ageMin.None? && q.ageMax.None?
    requires q.category.None? && q.tags.None? && q.paymentMethod.None?
    requires q.dateFrom.None? && q.dateTo.None?
    ensures BuildFilterSpec(q) == NoFilters
  {
  }
}
