/**
 * `buildQueryParams`: the query string of `GET /api/sales`, built from the
 * client's filter state, search text, sort choice, page and page size. Each
 * parameter is appended only when its source is truthy, always in the same
 * order. The result is modelled as the ordered list of (key, value) pairs the
 * `URLSearchParams` object holds; its percent-encoding is not modelled. The
 * lemmas at the end read that list back the way the server does.
 */
module ApiClient {
  import opened Wrappers
  import opened JsText
  import opened Filters
  import opened FiltersSlice
  import opened Request
  import opened Pipeline

  /** The parameters the client can send. */
  datatype Key =
    | SearchKey | PageKey | LimitKey | SortByKey | SortOrderKey
    | RegionKey | GenderKey | CategoryKey | TagsKey | PaymentMethodKey
    | AgeMinKey | AgeMaxKey | DateFromKey | DateToKey

  /** The parameter's name on the wire. */
  function Name(k: Key): string {
    match k
    case SearchKey => "search"
    case PageKey => "page"
    case LimitKey => "limit"
    case SortByKey => "sortBy"
    case SortOrderKey => "sortOrder"
    case RegionKey => "region"
    case GenderKey => "gender"
    case CategoryKey => "category"
    case TagsKey => "tags"
    case PaymentMethodKey => "paymentMethod"
    case AgeMinKey => "ageMin"
    case AgeMaxKey => "ageMax"
    case DateFromKey => "dateFrom"
    case DateToKey => "dateTo"
  }

  /** The position of a parameter in the order the builder appends them. */
  function Rank(k: Key): nat {
    match k
    case SearchKey => 0
    case PageKey => 1
    case LimitKey => 2
    case SortByKey => 3
    case SortOrderKey => 4
    case RegionKey => 5
    case GenderKey => 6
    case CategoryKey => 7
    case TagsKey => 8
    case PaymentMethodKey => 9
    case AgeMinKey => 10
    case AgeMaxKey => 11
    case DateFromKey => 12
    case DateToKey => 13
  }

  /** Every parameter, in the order the builder appends them. */
  const KeyOrder: seq<Key> := HeadKeys + ListKeys + RangeKeys

  const HeadKeys: seq<Key> := [SearchKey, PageKey, LimitKey, SortByKey, SortOrderKey]
  const ListKeys: seq<Key> := [RegionKey, GenderKey, CategoryKey, TagsKey, PaymentMethodKey]
  const RangeKeys: seq<Key> := [AgeMinKey, AgeMaxKey, DateFromKey, DateToKey]

  /** The `sort` argument: `{ field, order }` of the sort state. */
  datatype SortChoice = SortChoice(field: Option<string>, order: Option<string>)

  /** The five arguments of `buildQueryParams(filters, search, sort, page, pageSize)`; `null` is `None`. */
  datatype FetchArgs = FetchArgs(
    filters: Option<FilterValues>,
    search: string,
    sort: Option<SortChoice>,
    page: int,
    pageSize: int)

  type Param = (Key, string)

  /** A number is truthy when it is neither 0 nor NaN. */
  predicate NumTruthy(n: Num) {
    n.Int? && n.value != 0
  }

  /** `sort && sort.field`. */
  predicate SortGiven(sort: Option<SortChoice>) {
    sort.Some? && Truthy(sort.value.field)
  }

  /** `list?.length > 0 ? list.join(',') : omitted`. */
  function ListValue(list: seq<string>): Option<string> {
    if |list| > 0 then Some(Join(list, ',')) else None
  }

  /** `String(n)` when `n` is truthy, omitted otherwise. */
  function NumberValue(n: Num): Option<string> {
    if NumTruthy(n) then Some(DecimalString(n.value)) else None
  }

  /** A date bound when it is truthy, omitted otherwise. */
  function Given(x: Option<string>): Option<string> {
    if Truthy(x) then x else None
  }

  /** The value the builder appends for a parameter, or `None` when it leaves the parameter out. */
  function ValueFor(k: Key, a: FetchArgs): Option<string> {
    match k
    case SearchKey => if a.search != "" then Some(a.search) else None
    case PageKey => if a.page != 0 then Some(DecimalString(a.page)) else None
    case LimitKey => if a.pageSize != 0 then Some(DecimalString(a.pageSize)) else None
    case SortByKey => if SortGiven(a.sort) then a.sort.value.field else None
    case SortOrderKey => if SortGiven(a.sort) then Some(OrderOrAsc(a.sort.value.order)) else None
    case RegionKey => if a.filters.Some? then ListValue(a.filters.value.region) else None
    case GenderKey => if a.filters.Some? then ListValue(a.filters.value.gender) else None
    case CategoryKey => if a.filters.Some? then ListValue(a.filters.value.category) else None
    case TagsKey => if a.filters.Some? then ListValue(a.filters.value.tags) else None
    case PaymentMethodKey => if a.filters.Some? then ListValue(a.filters.value.paymentMethod) else None
    case AgeMinKey => if a.filters.Some? then NumberValue(a.filters.value.ageRange.min) else None
    case AgeMaxKey => if a.filters.Some? then NumberValue(a.filters.value.ageRange.max) else None
    case DateFromKey => if a.filters.Some? then Given(a.filters.value.dateRange.from) else None
    case DateToKey => if a.filters.Some? then Given(a.filters.value.dateRange.to) else None
  }

  /** The pair appended for a parameter, if any. */
  function Piece(k: Key, a: FetchArgs): seq<Param> {
    var v := ValueFor(k, a);
    if v.Some? then [(k, v.value)] else []
  }

  /** The pairs appended for the given parameters, in their order. */
  function Emit(keys: seq<Key>, a: FetchArgs): seq<Param> {
    if keys == [] then [] else Emit(keys[..|keys| - 1], a) + Piece(keys[|keys| - 1], a)
  }

  /** The pairs the builder produces: each parameter's pair, if any, in the order of `KeyOrder`. */
  function QueryParams(a: FetchArgs): seq<Param> {
    HeadParams(a) + ListParams(a) + RangeParams(a)
  }

  /** Search text, page, page size and sort. */
  function HeadParams(a: FetchArgs): seq<Param> {
    Piece(SearchKey, a) + Piece(PageKey, a) + Piece(LimitKey, a) + Piece(SortByKey, a) + Piece(SortOrderKey, a)
  }

  /** The multi-select lists. */
  function ListParams(a: FetchArgs): seq<Param> {
    Piece(RegionKey, a) + Piece(GenderKey, a) + Piece(CategoryKey, a) + Piece(TagsKey, a) + Piece(PaymentMethodKey, a)
  }

  /** The age and date bounds. */
  function RangeParams(a: FetchArgs): seq<Param> {
    Piece(AgeMinKey, a) + Piece(AgeMaxKey, a) + Piece(DateFromKey, a) + Piece(DateToKey, a)
  }

  /** Appending to a list that extends `params` by `added` extends it by `added + piece`. */
  lemma Grow<T>(params: seq<T>, added: seq<T>, r: seq<T>, piece: seq<T>)
    requires r == params + added
    ensures r + piece == params + (added + piece)
  {
  }

  /** A `null` filters object contributes no parameter. */
  lemma NoFilterParams(a: FetchArgs)
    requires a.filters.None?
    ensures ListParams(a) == [] && RangeParams(a) == []
  {
    assert Piece(RegionKey, a) == [] && Piece(GenderKey, a) == [] && Piece(CategoryKey, a) == [];
    assert Piece(TagsKey, a) == [] && Piece(PaymentMethodKey, a) == [];
    assert Piece(AgeMinKey, a) == [] && Piece(AgeMaxKey, a) == [];
    assert Piece(DateFromKey, a) == [] && Piece(DateToKey, a) == [];
  }

  /** `buildQueryParams(filters, search, sort, page, pageSize)`: one `append` after another. */
  method BuildQueryParams(filters: Option<FilterValues>, search: string, sort: Option<SortChoice>, page: int, pageSize: int)
    returns (params: seq<Param>)
    ensures params == QueryParams(FetchArgs(filters, search, sort, page, pageSize))
  {
    ghost var a := FetchArgs(filters, search, sort, page, pageSize);
    PagingPieces(a);
    params := [];
    if search != "" {
      params := params + [(SearchKey, search)];
    }
    assert params == Piece(SearchKey, a);
    ghost var before := params;
    if page != 0 {
      params := params + [(PageKey, DecimalString(page))];
    }
    assert params == before + Piece(PageKey, a);
    before := params;
    if pageSize != 0 {
      params := params + [(LimitKey, DecimalString(pageSize))];
    }
    assert params == before + Piece(LimitKey, a);
    params := AppendSortParams(params, sort, a);
    assert params == HeadParams(a);
    if filters.Some? {
      params := AppendListParams(params, filters.value, a);
      params := AppendRangeParams(params, filters.value, a);
    } else {
      NoFilterParams(a);
    }
  }

  /** `sortBy` and `sortOrder`, together, when a sort field is set; the order defaults to "asc". */
  method AppendSortParams(params: seq<Param>, sort: Option<SortChoice>, ghost a: FetchArgs) returns (r: seq<Param>)
    requires a.sort == sort
    ensures r == params + Piece(SortByKey, a) + Piece(SortOrderKey, a)
  {
    r := params;
    if sort.Some? && Truthy(sort.value.field) {
      r := r + [(SortByKey, sort.value.field.value)];
      r := r + [(SortOrderKey, if Truthy(sort.value.order) then sort.value.order.value else "asc")];
    }
  }

  lemma PagingPieces(a: FetchArgs)
    ensures Piece(SearchKey, a) == if a.search != "" then [(SearchKey, a.search)] else []
    ensures Piece(PageKey, a) == if a.page != 0 then [(PageKey, DecimalString(a.page))] else []
    ensures Piece(LimitKey, a) == if a.pageSize != 0 then [(LimitKey, DecimalString(a.pageSize))] else []
  {
  }

  /** The multi-select lists, each joined with commas and only when it is not empty. */
  method AppendListParams(params: seq<Param>, f: FilterValues, ghost a: FetchArgs) returns (r: seq<Param>)
    requires a.filters == Some(f)
    ensures r == params + ListParams(a)
  {
    ListPieces(a, f);
    r := params;
    if |f.region| > 0 {
      r := r + [(RegionKey, Join(f.region, ','))];
    }
    ghost var added := ListPiece(RegionKey, f.region);
    assert r == params + added;
    ghost var beforeGender := r;
    if |f.gender| > 0 {
      r := r + [(GenderKey, Join(f.gender, ','))];
    }
    assert r == beforeGender + ListPiece(GenderKey, f.gender);
    Grow(params, added, beforeGender, ListPiece(GenderKey, f.gender));
    added := added + ListPiece(GenderKey, f.gender);
    ghost var beforeCategory := r;
    if |f.category| > 0 {
      r := r + [(CategoryKey, Join(f.category, ','))];
    }
    assert r == beforeCategory + ListPiece(CategoryKey, f.category);
    Grow(params, added, beforeCategory, ListPiece(CategoryKey, f.category));
    added := added + ListPiece(CategoryKey, f.category);
    ghost var beforeTags := r;
    if |f.tags| > 0 {
      r := r + [(TagsKey, Join(f.tags, ','))];
    }
    assert r == beforeTags + ListPiece(TagsKey, f.tags);
    Grow(params, added, beforeTags, ListPiece(TagsKey, f.tags));
    added := added + ListPiece(TagsKey, f.tags);
    ghost var beforePaymentMethod := r;
    if |f.paymentMethod| > 0 {
      r := r + [(PaymentMethodKey, Join(f.paymentMethod, ','))];
    }
    assert r == beforePaymentMethod + ListPiece(PaymentMethodKey, f.paymentMethod);
    Grow(params, added, beforePaymentMethod, ListPiece(PaymentMethodKey, f.paymentMethod));
    added := added + ListPiece(PaymentMethodKey, f.paymentMethod);
  }

  /** The pair a list filter contributes: its values joined by commas, when there are any. */
  function ListPiece(k: Key, values: seq<string>): seq<Param> {
    if |values| > 0 then [(k, Join(values, ','))] else []
  }

  lemma ListPieces(a: FetchArgs, f: FilterValues)
    requires a.filters == Some(f)
    ensures Piece(RegionKey, a) == ListPiece(RegionKey, f.region)
    ensures Piece(GenderKey, a) == ListPiece(GenderKey, f.gender)
    ensures Piece(CategoryKey, a) == ListPiece(CategoryKey, f.category)
    ensures Piece(TagsKey, a) == ListPiece(TagsKey, f.tags)
    ensures Piece(PaymentMethodKey, a) == ListPiece(PaymentMethodKey, f.paymentMethod)
  {
  }

  /** The age bounds when they are neither 0 nor NaN, and the date bounds when they are not empty. */
  method AppendRangeParams(params: seq<Param>, f: FilterValues, ghost a: FetchArgs) returns (r: seq<Param>)
    requires a.filters == Some(f)
    ensures r == params + RangeParams(a)
  {
    r := params;
    if NumTruthy(f.ageRange.min) {
      r := r + [(AgeMinKey, DecimalString(f.ageRange.min.value))];
    }
    ghost var added := Piece(AgeMinKey, a);
    assert r == params + added;
    ghost var before := r;
    if NumTruthy(f.ageRange.max) {
      r := r + [(AgeMaxKey, DecimalString(f.ageRange.max.value))];
    }
    assert r == before + Piece(AgeMaxKey, a);
    Grow(params, added, before, Piece(AgeMaxKey, a));
    added := added + Piece(AgeMaxKey, a);
    before := r;
    if Truthy(f.dateRange.from) {
      r := r + [(DateFromKey, f.dateRange.from.value)];
    }
    assert r == before + Piece(DateFromKey, a);
    Grow(params, added, before, Piece(DateFromKey, a));
    added := added + Piece(DateFromKey, a);
    before := r;
    if Truthy(f.dateRange.to) {
      r := r + [(DateToKey, f.dateRange.to.value)];
    }
    assert r == before + Piece(DateToKey, a);
    Grow(params, added, before, Piece(DateToKey, a));
    added := added + Piece(DateToKey, a);
  }

  // ------------------------------------------------------------- reading the list

  /** `params.get(k)`: the value of the first pair with key `k`. */
  function Lookup(params: seq<Param>, k: Key): Option<string> {
    if params == [] then None
    else if params[0].0 == k then Some(params[0].1)
    else Lookup(params[1..], k)
  }

  /** Looking a key up in two lists one after the other: the first list wins. */
  lemma {:induction false} LookupAppend(x: seq<Param>, y: seq<Param>, k: Key)
    ensures Lookup(x + y, k) == if Lookup(x, k).Some? then Lookup(x, k) else Lookup(y, k)
  {
    if x == [] {
      assert x + y == y;
    } else {
      assert (x + y)[1..] == x[1..] + y;
      LookupAppend(x[1..], y, k);
    }
  }

  lemma EmitSnoc(keys: seq<Key>, k: Key, a: FetchArgs)
    ensures Emit(keys + [k], a) == Emit(keys, a) + Piece(k, a)
  {
    assert (keys + [k])[..|keys|] == keys;
  }

  lemma {:induction false} EmitAppend(keys: seq<Key>, more: seq<Key>, a: FetchArgs)
    ensures Emit(keys + more, a) == Emit(keys, a) + Emit(more, a)
    decreases |more|
  {
    if more == [] {
      assert keys + more == keys;
    } else {
      var init, last := more[..|more| - 1], more[|more| - 1];
      assert more == init + [last];
      assert keys + more == (keys + init) + [last];
      EmitSnoc(keys + init, last, a);
      EmitSnoc(init, last, a);
      EmitAppend(keys, init, a);
    }
  }

  lemma HeadParamsIsEmit(a: FetchArgs)
    ensures HeadParams(a) == Emit(HeadKeys, a)
  {
    EmitSnoc([], SearchKey, a);
    assert Emit([SearchKey], a) == Piece(SearchKey, a);
    assert [SearchKey] + [PageKey] == [SearchKey, PageKey];
    EmitSnoc([SearchKey], PageKey, a);
    assert [SearchKey, PageKey] + [LimitKey] == [SearchKey, PageKey, LimitKey];
    EmitSnoc([SearchKey, PageKey], LimitKey, a);
    assert [SearchKey, PageKey, LimitKey] + [SortByKey] == [SearchKey, PageKey, LimitKey, SortByKey];
    EmitSnoc([SearchKey, PageKey, LimitKey], SortByKey, a);
    assert [SearchKey, PageKey, LimitKey, SortByKey] + [SortOrderKey] == [SearchKey, PageKey, LimitKey, SortByKey, SortOrderKey];
    EmitSnoc([SearchKey, PageKey, LimitKey, SortByKey], SortOrderKey, a);
  }

  lemma ListParamsIsEmit(a: FetchArgs)
    ensures ListParams(a) == Emit(ListKeys, a)
  {
    EmitSnoc([], RegionKey, a);
    assert Emit([RegionKey], a) == Piece(RegionKey, a);
    assert [RegionKey] + [GenderKey] == [RegionKey, GenderKey];
    EmitSnoc([RegionKey], GenderKey, a);
    assert [RegionKey, GenderKey] + [CategoryKey] == [RegionKey, GenderKey, CategoryKey];
    EmitSnoc([RegionKey, GenderKey], CategoryKey, a);
    assert [RegionKey, GenderKey, CategoryKey] + [TagsKey] == [RegionKey, GenderKey, CategoryKey, TagsKey];
    EmitSnoc([RegionKey, GenderKey, CategoryKey], TagsKey, a);
    assert [RegionKey, GenderKey, CategoryKey, TagsKey] + [PaymentMethodKey] == [RegionKey, GenderKey, CategoryKey, TagsKey, PaymentMethodKey];
    EmitSnoc([RegionKey, GenderKey, CategoryKey, TagsKey], PaymentMethodKey, a);
  }

  lemma RangeParamsIsEmit(a: FetchArgs)
    ensures RangeParams(a) == Emit(RangeKeys, a)
  {
    EmitSnoc([], AgeMinKey, a);
    assert Emit([AgeMinKey], a) == Piece(AgeMinKey, a);
    assert [AgeMinKey] + [AgeMaxKey] == [AgeMinKey, AgeMaxKey];
    EmitSnoc([AgeMinKey], AgeMaxKey, a);
    assert [AgeMinKey, AgeMaxKey] + [DateFromKey] == [AgeMinKey, AgeMaxKey, DateFromKey];
    EmitSnoc([AgeMinKey, AgeMaxKey], DateFromKey, a);
    assert [AgeMinKey, AgeMaxKey, DateFromKey] + [DateToKey] == [AgeMinKey, AgeMaxKey, DateFromKey, DateToKey];
    EmitSnoc([AgeMinKey, AgeMaxKey, DateFromKey], DateToKey, a);
  }

  /** The builder's list is the pairs of `KeyOrder`, one parameter after another. */
  lemma QueryParamsIsEmit(a: FetchArgs)
    ensures QueryParams(a) == Emit(KeyOrder, a)
  {
    HeadParamsIsEmit(a);
    ListParamsIsEmit(a);
    RangeParamsIsEmit(a);
    EmitAppend(HeadKeys, ListKeys, a);
    EmitAppend(HeadKeys + ListKeys, RangeKeys, a);
  }

  /** Every pair emitted is a parameter of the list with its value. */
  lemma {:induction false} EmitPairs(keys: seq<Key>, a: FetchArgs)
    ensures forall i :: 0 <= i < |Emit(keys, a)| ==>
      Emit(keys, a)[i].0 in keys && ValueFor(Emit(keys, a)[i].0, a) == Some(Emit(keys, a)[i].1)
  {
    if keys != [] {
      EmitPairs(keys[..|keys| - 1], a);
    }
  }

  /** Ranks rising strictly along a list of pairs. */
  predicate RanksAscend(r: seq<Param>) {
    forall i, j :: 0 <= i < j < |r| ==> Rank(r[i].0) < Rank(r[j].0)
  }

  /** Parameters listed in ascending rank are emitted in ascending rank. */
  lemma {:induction false} EmitOrdered(keys: seq<Key>, a: FetchArgs)
    requires forall i, j :: 0 <= i < j < |keys| ==> Rank(keys[i]) < Rank(keys[j])
    ensures RanksAscend(Emit(keys, a))
  {
    if keys != [] {
      var init, last := keys[..|keys| - 1], keys[|keys| - 1];
      EmitOrdered(init, a);
      EmitPairs(init, a);
      var e := Emit(init, a);
      var r := e + Piece(last, a);
      forall i | 0 <= i < |e|
        ensures Rank(e[i].0) < Rank(last)
      {
        var m :| 0 <= m < |init| && init[m] == e[i].0;
      }
      forall i, j | 0 <= i < j < |r|
        ensures Rank(r[i].0) < Rank(r[j].0)
      {
        if j >= |e| {
          assert r[j].0 == last;
        }
      }
    }
  }

  /** A parameter's value in the emitted list is its value, when it is one of the parameters listed. */
  lemma {:induction false} EmitLookup(keys: seq<Key>, a: FetchArgs, k: Key)
    ensures Lookup(Emit(keys, a), k) == if k in keys then ValueFor(k, a) else None
  {
    if keys != [] {
      var init, last := keys[..|keys| - 1], keys[|keys| - 1];
      assert keys == init + [last];
      EmitLookup(init, a, k);
      LookupAppend(Emit(init, a), Piece(last, a), k);
      var piece := Piece(last, a);
      if piece != [] {
        assert piece[1..] == [];
      }
    }
  }

  lemma KeyOrderRanks()
    ensures forall i :: 0 <= i < |KeyOrder| ==> Rank(KeyOrder[i]) == i
    ensures forall k :: KeyOrder[Rank(k)] == k
  {
  }

  /**
   * The parameters come in the fixed order search, page, limit, sortBy, sortOrder,
   * region, gender, category, tags, paymentMethod, ageMin, ageMax, dateFrom, dateTo,
   * each at most once, and each pair holds the value the builder computes for its key.
   */
  lemma ParamsInOrder(a: FetchArgs)
    ensures RanksAscend(QueryParams(a))
    ensures forall i :: 0 <= i < |QueryParams(a)| ==> ValueFor(QueryParams(a)[i].0, a) == Some(QueryParams(a)[i].1)
  {
    QueryParamsIsEmit(a);
    KeyOrderRanks();
    EmitOrdered(KeyOrder, a);
    EmitPairs(KeyOrder, a);
  }

  /** A parameter is in the list exactly when the builder computes a value for it, and with that value. */
  lemma ParamsRead(a: FetchArgs, k: Key)
    ensures Lookup(QueryParams(a), k) == ValueFor(k, a)
  {
    QueryParamsIsEmit(a);
    KeyOrderRanks();
    assert KeyOrder[Rank(k)] == k;
    EmitLookup(KeyOrder, a, k);
  }

  // ------------------------------------------------------------- what the list says

  /** `sortBy` and `sortOrder` are sent together, exactly when a sort field is set, and the order defaults to "asc". */
  lemma SortParamsTogether(a: FetchArgs)
    ensures Lookup(QueryParams(a), SortByKey).Some? <==> SortGiven(a.sort)
    ensures Lookup(QueryParams(a), SortOrderKey).Some? <==> SortGiven(a.sort)
    ensures SortGiven(a.sort) ==>
      Lookup(QueryParams(a), SortByKey) == a.sort.value.field &&
      Lookup(QueryParams(a), SortOrderKey) == Some(OrderOrAsc(a.sort.value.order))
  {
    ParamsRead(a, SortByKey);
    ParamsRead(a, SortOrderKey);
  }

  /** A multi-select list is sent as its values joined with commas, and left out when it is empty. */
  lemma ListsJoined(a: FetchArgs)
    requires a.filters.Some?
    ensures var f := a.filters.value;
      Lookup(QueryParams(a), RegionKey) == (if |f.region| > 0 then Some(Join(f.region, ',')) else None) &&
      Lookup(QueryParams(a), GenderKey) == (if |f.gender| > 0 then Some(Join(f.gender, ',')) else None) &&
      Lookup(QueryParams(a), CategoryKey) == (if |f.category| > 0 then Some(Join(f.category, ',')) else None) &&
      Lookup(QueryParams(a), TagsKey) == (if |f.tags| > 0 then Some(Join(f.tags, ',')) else None) &&
      Lookup(QueryParams(a), PaymentMethodKey) == (if |f.paymentMethod| > 0 then Some(Join(f.paymentMethod, ',')) else None)
  {
    ParamsRead(a, RegionKey);
    ParamsRead(a, GenderKey);
    ParamsRead(a, CategoryKey);
    ParamsRead(a, TagsKey);
    ParamsRead(a, PaymentMethodKey);
  }

  /** An age bound of 0 or NaN is left out, and so is a missing or empty date bound. */
  lemma FalsyBoundsLeftOut(a: FetchArgs)
    requires a.filters.Some?
    ensures var f := a.filters.value;
      (Lookup(QueryParams(a), AgeMinKey).Some? <==> f.ageRange.min.Int? && f.ageRange.min.value != 0) &&
      (Lookup(QueryParams(a), AgeMaxKey).Some? <==> f.ageRange.max.Int? && f.ageRange.max.value != 0) &&
      (Lookup(QueryParams(a), DateFromKey).Some? <==> f.dateRange.from.Some? && f.dateRange.from.value != "") &&
      (Lookup(QueryParams(a), DateToKey).Some? <==> f.dateRange.to.Some? && f.dateRange.to.value != "")
  {
    ParamsRead(a, AgeMinKey);
    ParamsRead(a, AgeMaxKey);
    ParamsRead(a, DateFromKey);
    ParamsRead(a, DateToKey);
  }

  /** Without a filters object no filter parameter is sent. */
  lemma NullFiltersSendNoFilter(a: FetchArgs, k: Key)
    requires a.filters.None? && Rank(k) >= 5
    ensures Lookup(QueryParams(a), k) == None
  {
    ParamsRead(a, k);
  }

  // ------------------------------------------------------------- what the server reads

  /** The query the server sees: each parameter's value, or absent. */
  function QueryOf(params: seq<Param>): Query {
    Query(
      Lookup(params, SearchKey), Lookup(params, RegionKey), Lookup(params, GenderKey),
      Lookup(params, AgeMinKey), Lookup(params, AgeMaxKey), Lookup(params, CategoryKey),
      Lookup(params, TagsKey), Lookup(params, PaymentMethodKey),
      Lookup(params, DateFromKey), Lookup(params, DateToKey),
      Lookup(params, SortByKey), Lookup(params, SortOrderKey),
      Lookup(params, PageKey), Lookup(params, LimitKey))
  }

  /** The query a request carries when each parameter holds the builder's value for it. */
  function QueryFor(a: FetchArgs): Query {
    Query(
      ValueFor(SearchKey, a), ValueFor(RegionKey, a), ValueFor(GenderKey, a),
      ValueFor(AgeMinKey, a), ValueFor(AgeMaxKey, a), ValueFor(CategoryKey, a),
      ValueFor(TagsKey, a), ValueFor(PaymentMethodKey, a),
      ValueFor(DateFromKey, a), ValueFor(DateToKey, a),
      ValueFor(SortByKey, a), ValueFor(SortOrderKey, a),
      ValueFor(PageKey, a), ValueFor(LimitKey, a))
  }

  /** The server reads from the built list the value the builder computed for each parameter. */
  lemma BuiltQuery(a: FetchArgs)
    ensures QueryOf(QueryParams(a)) == QueryFor(a)
  {
    forall k
      ensures Lookup(QueryParams(a), k) == ValueFor(k, a)
    {
      ParamsRead(a, k);
    }
  }

  /** Values the server splits back apart: not empty, already trimmed, and free of commas. */
  predicate Sendable(values: seq<string>) {
    forall v :: v in values ==> v != "" && IsTrimmed(v) && ',' !in v
  }

  lemma JoinNotEmpty(values: seq<string>)
    requires |values| >= 1 && values[0] != ""
    ensures Join(values, ',') != ""
  {
  }

  /** A sendable list, joined by the client and split by the server, is the list again; an empty one stays empty. */
  lemma ListReadBack(values: seq<string>)
    requires Sendable(values)
    ensures SplitList(ListValue(values)) == values
  {
    if |values| > 0 {
      assert values[0] in values;
      JoinNotEmpty(values);
      SplitListOfJoin(values);
    }
  }

  /** The server filters on exactly the lists the client selected. */
  lemma ServerReadsLists(a: FetchArgs)
    requires a.filters.Some?
    requires Sendable(a.filters.value.region) && Sendable(a.filters.value.gender)
    requires Sendable(a.filters.value.category) && Sendable(a.filters.value.tags)
    requires Sendable(a.filters.value.paymentMethod)
    ensures var spec, f := BuildFilterSpec(QueryOf(QueryParams(a))), a.filters.value;
      spec.region == f.region && spec.gender == f.gender && spec.category == f.category &&
      spec.tags == f.tags && spec.paymentMethod == f.paymentMethod
  {
    var q, f := QueryOf(QueryParams(a)), a.filters.value;
    BuiltQuery(a);
    assert q.region == ListValue(f.region) && q.gender == ListValue(f.gender);
    assert q.category == ListValue(f.category) && q.tags == ListValue(f.tags);
    assert q.paymentMethod == ListValue(f.paymentMethod);
    ListReadBack(f.region);
    ListReadBack(f.gender);
    ListReadBack(f.category);
    ListReadBack(f.tags);
    ListReadBack(f.paymentMethod);
  }

  /** Without a filters object the server builds the spec with no criterion. */
  lemma NullFiltersFilterNothing(a: FetchArgs)
    requires a.filters.None?
    ensures BuildFilterSpec(QueryOf(QueryParams(a))) == NoFilters
  {
    var q := QueryOf(QueryParams(a));
    BuiltQuery(a);
    assert q.region == q.gender == q.category == q.tags == q.paymentMethod == None;
    assert q.ageMin == q.ageMax == q.dateFrom == q.dateTo == None;
  }

  /** An age bound as the server reads it back: the number sent, or absent. */
  lemma AgeBoundReadBack(n: Num)
    ensures Truthy(NumberValue(n)) <==> NumTruthy(n)
    ensures NumTruthy(n) ==> NumOf(NumberValue(n)) == n
  {
    if NumTruthy(n) {
      ReadsAs(n.value);
    }
  }

  /**
   * The server's age range: none when neither bound is set (0 or NaN), otherwise
   * the bounds the client holds, with an unset minimum read as 0 and an unset
   * maximum as 999.
   */
  lemma ServerReadsAges(a: FetchArgs)
    requires a.filters.Some?
    ensures var spec, min, max := BuildFilterSpec(QueryOf(QueryParams(a))),
        a.filters.value.ageRange.min, a.filters.value.ageRange.max;
      if !NumTruthy(min) && !NumTruthy(max) then spec.ageRange.None?
      else spec.ageRange == Some(AgeRange(if NumTruthy(min) then min.value else 0, if NumTruthy(max) then max.value else 999))
  {
    var q := QueryOf(QueryParams(a));
    BuiltQuery(a);
    assert q.ageMin == NumberValue(a.filters.value.ageRange.min);
    assert q.ageMax == NumberValue(a.filters.value.ageRange.max);
    AgeBoundReadBack(a.filters.value.ageRange.min);
    AgeBoundReadBack(a.filters.value.ageRange.max);
  }

  /** Untouched filters still send ages 18 to 75: the server filters on that range from the first request. */
  lemma InitialFiltersSendAges(search: string, sort: Option<SortChoice>, page: int, pageSize: int)
    ensures BuildFilterSpec(QueryOf(QueryParams(FetchArgs(Some(InitialFilters), search, sort, page, pageSize)))) ==
      FilterSpec([], [], Some(AgeRange(18, 75)), [], [], [], None)
  {
    var a := FetchArgs(Some(InitialFilters), search, sort, page, pageSize);
    ServerReadsLists(a);
    ServerReadsAges(a);
    ServerReadsDates(a, Records.Platform(_ => None, (x, y) => 0), "");
  }

  /**
   * The server's date window holds the bounds the client set and drops the empty
   * ones, and it admits exactly the dates the client's bounds admit.
   */
  lemma ServerReadsDates(a: FetchArgs, p: Records.Platform, date: string)
    requires a.filters.Some?
    ensures var spec := BuildFilterSpec(QueryOf(QueryParams(a)));
      var from, to := a.filters.value.dateRange.from, a.filters.value.dateRange.to;
      (spec.dateRange.None? <==> !Truthy(from) && !Truthy(to)) &&
      (spec.dateRange.Some? ==> spec.dateRange.value == DateRange(Given(from), Given(to))) &&
      (DateInRange(p, spec.dateRange, date) <==> DateInRange(p, Some(DateRange(from, to)), date))
  {
    var q := QueryOf(QueryParams(a));
    BuiltQuery(a);
    assert q.dateFrom == Given(a.filters.value.dateRange.from);
    assert q.dateTo == Given(a.filters.value.dateRange.to);
  }

  /**
   * The search text, page, page size and sort the server works with: what the
   * client holds, except that an empty search and an unset sort are absent and a
   * page or page size of 0 falls back to the server's 1 and 10.
   */
  lemma ServerReadsOptions(a: FetchArgs)
    ensures var options := BuildOptions(QueryOf(QueryParams(a)));
      options.search == (if a.search != "" then Some(a.search) else None) &&
      options.page == (if a.page != 0 then Int(a.page) else Int(1)) &&
      options.limit == (if a.pageSize != 0 then Int(a.pageSize) else Int(10)) &&
      options.sortBy == (if SortGiven(a.sort) then a.sort.value.field else None) &&
      options.sortOrder == (if SortGiven(a.sort) then Some(OrderOrAsc(a.sort.value.order)) else None)
  {
    var q := QueryOf(QueryParams(a));
    BuiltQuery(a);
    assert q.search == (if a.search != "" then Some(a.search) else None);
    assert q.page == (if a.page != 0 then Some(DecimalString(a.page)) else None);
    assert q.limit == (if a.pageSize != 0 then Some(DecimalString(a.pageSize)) else None);
    assert q.sortBy == (if SortGiven(a.sort) then a.sort.value.field else None);
    assert q.sortOrder == (if SortGiven(a.sort) then Some(OrderOrAsc(a.sort.value.order)) else None);
    ParseIntDecimalString(a.page);
    ParseIntDecimalString(a.pageSize);
  }

  /** A page of at least 1 and a page size from 1 to 100, as the client store holds them, pass validation. */
  lemma ClientPagingIsValid(a: FetchArgs)
    requires a.page >= 1 && 1 <= a.pageSize <= 100
    ensures ValidateQuery(QueryOf(QueryParams(a)).page, QueryOf(QueryParams(a)).limit) == Proceed
  {
    var q := QueryOf(QueryParams(a));
    BuiltQuery(a);
    assert q.page == Some(DecimalString(a.page)) && q.limit == Some(DecimalString(a.pageSize));
    LimitVerdict(a.page, a.pageSize);
  }
}
