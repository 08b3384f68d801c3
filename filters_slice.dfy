/**
 * The `filters` slice of the client store, and the `search` slice that sits in
 * the same file. Each filter reducer replaces one field with its payload;
 * `clearAllFilters` replaces the whole state with the initial one.
 */
module FiltersSlice {
  import opened Wrappers
  import opened JsText

  /** `{ min, max }`: the age inputs hold `parseInt` of what was typed, so NaN once cleared. */
  datatype AgeInput = AgeInput(min: Num, max: Num)

  /** `{ from, to }`: each bound `null` until a date is picked, then the input's text. */
  datatype DateInput = DateInput(from: Option<string>, to: Option<string>)

  /** A snapshot of the filter state: what the query builder is handed. */
  datatype FilterValues = FilterValues(
    region: seq<string>,
    gender: seq<string>,
    ageRange: AgeInput,
    category: seq<string>,
    tags: seq<string>,
    paymentMethod: seq<string>,
    dateRange: DateInput)

  /** `initialState`: nothing selected, ages 18 to 75, no dates. */
  const InitialFilters := FilterValues([], [], AgeInput(Int(18), Int(75)), [], [], [], DateInput(None, None))

  class FiltersState {
    var region: seq<string>
    var gender: seq<string>
    var ageRange: AgeInput
    var category: seq<string>
    var tags: seq<string>
    var paymentMethod: seq<string>
    var dateRange: DateInput

    /** The state as a value. */
    function Values(): FilterValues
      reads this
    {
      FilterValues(region, gender, ageRange, category, tags, paymentMethod, dateRange)
    }

    constructor ()
      ensures Values() == InitialFilters
    {
      region, gender, ageRange := [], [], AgeInput(Int(18), Int(75));
      category, tags, paymentMethod := [], [], [];
      dateRange := DateInput(None, None);
    }

    /** `setRegionFilter`: the regions become the payload; nothing else changes. */
    method SetRegionFilter(payload: seq<string>)
      modifies this
      ensures Values() == old(Values()).(region := payload)
    {
      region := payload;
    }

    /** `setGenderFilter`: the genders become the payload; nothing else changes. */
    method SetGenderFilter(payload: seq<string>)
      modifies this
      ensures Values() == old(Values()).(gender := payload)
    {
      gender := payload;
    }

    /** `setAgeRangeFilter`: the age bounds become the payload; nothing else changes. */
    method SetAgeRangeFilter(payload: AgeInput)
      modifies this
      ensures Values() == old(Values()).(ageRange := payload)
    {
      ageRange := payload;
    }

    /** `setCategoryFilter`: the categories become the payload; nothing else changes. */
    method SetCategoryFilter(payload: seq<string>)
      modifies this
      ensures Values() == old(Values()).(category := payload)
    {
      category := payload;
    }

    /** `setTagsFilter`: the tags become the payload; nothing else changes. */
    method SetTagsFilter(payload: seq<string>)
      modifies this
      ensures Values() == old(Values()).(tags := payload)
    {
      tags := payload;
    }

    /** `setPaymentMethodFilter`: the payment methods become the payload; nothing else changes. */
    method SetPaymentMethodFilter(payload: seq<string>)
      modifies this
      ensures Values() == old(Values()).(paymentMethod := payload)
    {
      paymentMethod := payload;
    }

    /** `setDateRangeFilter`: the date bounds become the payload; nothing else changes. */
    method SetDateRangeFilter(payload: DateInput)
      modifies this
      ensures Values() == old(Values()).(dateRange := payload)
    {
      dateRange := payload;
    }

    /** `clearAllFilters`: the initial state, whatever the state before, so clearing twice is clearing once. */
    method ClearAllFilters()
      modifies this
      ensures Values() == InitialFilters
    {
      region, gender, ageRange := [], [], AgeInput(Int(18), Int(75));
      category, tags, paymentMethod := [], [], [];
      dateRange := DateInput(None, None);
    }
  }

  class SearchState {
    var query: string

    /** `initialState: { query: '' }`. */
    constructor ()
      ensures query == ""
    {
      query := "";
    }

    /** `setSearchQuery`: the payload, stored unchanged. */
    method SetSearchQuery(payload: string)
      modifies this
      ensures query == payload
    {
      query := payload;
    }

    /** `clearSearch`: back to the empty query. */
    method ClearSearch()
      modifies this
      ensures query == ""
    {
      query := "";
    }
  }
}
