/**
 * `filterService.applyFilters`: keeps, in order, the records that pass every
 * active criterion. A multi-select list that is empty is no constraint; a
 * non-empty one asks for an exact match with one of its values (for tags: one
 * shared tag). The age range is inclusive. The date window runs from the start
 * of `from` to the end of `to`; a date that does not parse on either side of a
 * comparison makes that comparison false, so such a record is not excluded.
 */
module Filters {
  import opened Wrappers
  import opened JsText
  import opened Seqs
  import opened Records

  datatype AgeRange = AgeRange(min: int, max: int)

  /** `{ from, to }`: each bound the query-string text, absent or empty when not given. */
  datatype DateRange = DateRange(from: Option<string>, to: Option<string>)

  /** The `filters` object the request handler builds. */
  datatype FilterSpec = FilterSpec(
    region: seq<string>,
    gender: seq<string>,
    ageRange: Option<AgeRange>,
    category: seq<string>,
    tags: seq<string>,
    paymentMethod: seq<string>,
    dateRange: Option<DateRange>)

  /** The spec with no criterion at all. */
  const NoFilters := FilterSpec([], [], None, [], [], [], None)

  // ------------------------------------------------------------- criteria

  /** A multi-select criterion: no constraint when nothing is selected, otherwise membership. */
  predicate Selected(selection: seq<string>, v: string) {
    |selection| == 0 || v in selection
  }

  /** `selection.some(tag => tags.includes(tag))`. */
  function SomeShared(selection: seq<string>, tags: seq<string>): (b: bool)
    ensures b <==> exists t :: t in selection && t in tags
  {
    if selection == [] then false
    else selection[0] in tags || (assert forall t :: t in selection[1..] ==> t in selection;
                                  SomeShared(selection[1..], tags))
  }

  predicate TagsSelected(selection: seq<string>, tags: seq<string>) {
    |selection| == 0 || SomeShared(selection, tags)
  }

  predicate AgeInRange(range: Option<AgeRange>, age: int) {
    range.None? || (range.value.min <= age && age <= range.value.max)
  }

  /** `new Date(date) < new Date(from)`: false as soon as either side is an invalid date. */
  predicate BeforeDay(p: Platform, date: string, from: string) {
    var d, f := p.parseDate(date), p.parseDate(from);
    d.Some? && f.Some? && d.value < f.value
  }

  /** `new Date(date) >= toDate`, `toDate` being `new Date(to)` moved one day on. */
  predicate AfterDay(p: Platform, date: string, to: string) {
    var d, t := p.parseDate(date), p.parseDate(to);
    d.Some? && t.Some? && d.value >= t.value + 1
  }

  /** The date criterion: a given (non-empty) bound excludes the dates on the wrong side of it. */
  predicate DateInRange(p: Platform, range: Option<DateRange>, date: string) {
    range.None? ||
    ((Truthy(range.value.from) ==> !BeforeDay(p, date, range.value.from.value)) &&
     (Truthy(range.value.to) ==> !AfterDay(p, date, range.value.to.value)))
  }

  /** A record passes when it meets all seven criteria. */
  predicate Passes(p: Platform, spec: FilterSpec, r: Record) {
    Selected(spec.region, r.region) &&
    Selected(spec.gender, r.gender) &&
    AgeInRange(spec.ageRange, r.age) &&
    Selected(spec.category, r.category) &&
    TagsSelected(spec.tags, r.tags) &&
    Selected(spec.paymentMethod, r.paymentMethod) &&
    DateInRange(p, spec.dateRange, r.date)
  }

  /** The records `applyFilters` keeps. */
  function Filtered(p: Platform, items: seq<Record>, spec: FilterSpec): seq<Record> {
    Select(items, (r: Record) => Passes(p, spec, r))
  }

  // ------------------------------------------------------------- the service

  /** The body of the loop: the `passes` flag, each test run only while the flag still holds. */
  method Check(p: Platform, spec: FilterSpec, item: Record) returns (passes: bool)
    ensures passes <==> Passes(p, spec, item)
  {
    passes := true;
    if |spec.region| > 0 {
      if item.region !in spec.region {
        passes := false;
      }
    }
    if passes && |spec.gender| > 0 {
      if item.gender !in spec.gender {
        passes := false;
      }
    }
    if passes && spec.ageRange.Some? {
      var min, max := spec.ageRange.value.min, spec.ageRange.value.max;
      if item.age < min || item.age > max {
        passes := false;
      }
    }
    if passes && |spec.category| > 0 {
      if item.category !in spec.category {
        passes := false;
      }
    }
    if passes && |spec.tags| > 0 {
      var hasTag := SomeShared(spec.tags, item.tags);
      if !hasTag {
        passes := false;
      }
    }
    if passes && |spec.paymentMethod| > 0 {
      if item.paymentMethod !in spec.paymentMethod {
        passes := false;
      }
    }
    if passes && spec.dateRange.Some? && (Truthy(spec.dateRange.value.from) || Truthy(spec.dateRange.value.to)) {
      var range := spec.dateRange.value;
      if Truthy(range.from) {
        if BeforeDay(p, item.date, range.from.value) {
          passes := false;
        }
      }
      if passes && Truthy(range.to) {
        if AfterDay(p, item.date, range.to.value) {
          passes := false;
        }
      }
    }
  }

  /**
   * `filterService.applyFilters(items, filters)`: the order-preserving
   * subsequence of exactly the records that pass.
   */
  method ApplyFilters(p: Platform, items: seq<Record>, spec: FilterSpec) returns (results: seq<Record>)
    ensures results == Filtered(p, items, spec)
    ensures IsSubsequence(results, items)
    ensures forall r :: r in results <==> r in items && Passes(p, spec, r)
  {
    results := [];
    var i := 0;
    while i < |items|
      invariant 0 <= i <= |items|
      invariant results == Filtered(p, items[..i], spec)
    {
      var item := items[i];
      SelectSnoc(items[..i], item, (r: Record) => Passes(p, spec, r));
      assert items[..i + 1] == items[..i] + [item];
      var passes := Check(p, spec, item);
      if passes {
        results := results + [item];
      }
      i := i + 1;
    }
    assert items[..i] == items;
    SelectIsSubsequence(items, (r: Record) => Passes(p, spec, r));
    SelectMembers(items, (r: Record) => Passes(p, spec, r));
  }

  // ------------------------------------------------------------- properties

  /** With no criterion every record passes, so the input comes back unchanged. */
  lemma NoFiltersKeepAll(p: Platform, items: seq<Record>)
    ensures Filtered(p, items, NoFilters) == items
  {
    SelectAll(items, (r: Record) => Passes(p, NoFilters, r));
  }

  /** Empty lists and an empty date window are no constraint either, whatever the age range. */
  lemma EmptyCriteriaKeepAll(p: Platform, items: seq<Record>, spec: FilterSpec)
    requires spec.region == [] && spec.gender == [] && spec.category == []
    requires spec.tags == [] && spec.paymentMethod == []
    requires spec.ageRange.None?
    requires spec.dateRange.None? || (!Truthy(spec.dateRange.value.from) && !Truthy(spec.dateRange.value.to))
    ensures Filtered(p, items, spec) == items
  {
    SelectAll(items, (r: Record) => Passes(p, spec, r));
  }

  /** A record whose date does not parse is never excluded by the date window. */
  lemma UnparsableDatePasses(p: Platform, range: Option<DateRange>, date: string)
    requires p.parseDate(date).None?
    ensures DateInRange(p, range, date)
  {
  }

  /**
   * With every date valid, the window holds the days from `from` up to and
   * including `to`: `from <= d < to + 1`.
   */
  lemma DateWindow(p: Platform, date: string, from: string, to: string)
    requires from != "" && to != ""
    requires p.parseDate(date).Some? && p.parseDate(from).Some? && p.parseDate(to).Some?
    ensures DateInRange(p, Some(DateRange(Some(from), Some(to))), date) <==>
      p.parseDate(from).value <= p.parseDate(date).value <= p.parseDate(to).value
  {
  }

  /** A multi-select list accepts a value when either half of the list does: OR inside a criterion. */
  lemma SelectionIsUnion(a: seq<string>, b: seq<string>, v: string)
    requires a != [] && b != []
    ensures Selected(a + b, v) <==> Selected(a, v) || Selected(b, v)
    ensures TagsSelected(a + b, [v]) <==> TagsSelected(a, [v]) || TagsSelected(b, [v])
  {
    assert v in a + b <==> v in a || v in b;
  }

  /** Filtering twice keeps the records that pass both specs: AND across criteria. */
  lemma FilterTwice(p: Platform, items: seq<Record>, spec: FilterSpec, spec': FilterSpec)
    ensures forall r :: r in Filtered(p, Filtered(p, items, spec), spec') <==>
      r in items && Passes(p, spec, r) && Passes(p, spec', r)
  {
    var f := Filtered(p, items, spec);
    SelectMembers(items, (r: Record) => Passes(p, spec, r));
    SelectMembers(f, (r: Record) => Passes(p, spec', r));
  }

  /** The order in which two filters are applied makes no difference. */
  lemma FiltersCommute(p: Platform, items: seq<Record>, spec: FilterSpec, spec': FilterSpec)
    ensures Filtered(p, Filtered(p, items, spec), spec') == Filtered(p, Filtered(p, items, spec'), spec)
  {
    SelectCommutes(items, (r: Record) => Passes(p, spec, r), (r: Record) => Passes(p, spec', r));
  }

  /** Filtering the result again with the same spec changes nothing. */
  lemma FilterIdempotent(p: Platform, items: seq<Record>, spec: FilterSpec)
    ensures Filtered(p, Filtered(p, items, spec), spec) == Filtered(p, items, spec)
  {
    SelectIdempotent(items, (r: Record) => Passes(p, spec, r));
  }
}
