/**
 * `sortService.sort`: a stable sort of a copy of the records by date, quantity
 * or customer name. The key and the order are compared after `toLowerCase`.
 * Descending order negates the comparator instead of reversing the result, so
 * records that tie keep their input order in both directions. An unknown or
 * absent key compares every pair as equal, which leaves the order as it was.
 */
module Sorting {
  import opened Wrappers
  import opened JsText
  import opened Seqs
  import opened StableSort
  import opened Records

  datatype SortKey = ByDate | ByQuantity | ByCustomerName | Unsorted

  /**
   * `switch (sortBy?.toLowerCase())`. ASCII folding is exact here: no character
   * outside ASCII lower-cases to a letter of "date", "quantity" or "customername".
   */
  function KeyOf(sortBy: Option<string>): SortKey {
    if sortBy.None? then Unsorted
    else
      var k := LowerAscii(sortBy.value);
      if k == "date" then ByDate
      else if k == "quantity" then ByQuantity
      else if k == "customername" then ByCustomerName
      else Unsorted
  }

  /** `sortOrder.toLowerCase() === 'desc'`. */
  predicate IsDescending(sortOrder: string) {
    LowerAscii(sortOrder) == "desc"
  }

  /**
   * The ascending comparison for a key. Subtracting two dates gives NaN when
   * either is invalid, and the sort reads a NaN comparison as 0.
   */
  function Ascending(p: Platform, key: SortKey, a: Record, b: Record): int {
    match key
    case ByDate =>
      var da, db := p.parseDate(a.date), p.parseDate(b.date);
      if da.Some? && db.Some? then da.value - db.value else 0
    case ByQuantity => a.quantity - b.quantity
    case ByCustomerName => p.collate(a.customerName, b.customerName)
    case Unsorted => 0
  }

  /** The comparator handed to `Array.prototype.sort`: negated for descending order. */
  function Comparator(p: Platform, key: SortKey, descending: bool): (Record, Record) -> int {
    (a: Record, b: Record) => if descending then -Ascending(p, key, a, b) else Ascending(p, key, a, b)
  }

  /** The order the sort leaves the records in. */
  function SortedRecords(p: Platform, items: seq<Record>, sortBy: Option<string>, sortOrder: string): seq<Record> {
    InsertionSorted(items, Comparator(p, KeyOf(sortBy), IsDescending(sortOrder)))
  }

  /** `sortService.sort(items, sortBy, sortOrder)`: copy the records into an array and sort it in place. */
  method Sort(p: Platform, items: seq<Record>, sortBy: Option<string>, sortOrder: string) returns (sorted: seq<Record>)
    ensures sorted == SortedRecords(p, items, sortBy, sortOrder)
    ensures multiset(sorted) == multiset(items)
  {
    sorted := SortedCopy(items, Comparator(p, KeyOf(sortBy), IsDescending(sortOrder)));
    InsertionSortedPermutes(items, Comparator(p, KeyOf(sortBy), IsDescending(sortOrder)));
  }

  // ------------------------------------------------------------- properties

  /** The key is read without regard to case. */
  lemma KeyIgnoresCase(sortBy: string)
    ensures KeyOf(Some(sortBy)) == KeyOf(Some(LowerAscii(sortBy)))
  {
    LowerAsciiIdempotent(sortBy);
  }

  /** `customerName`, the field's own spelling, selects the name order. */
  lemma CamelCaseKey(sortBy: string)
    requires sortBy == "customerName"
    ensures KeyOf(Some(sortBy)) == ByCustomerName
  {
    LowerAsciiIs(sortBy, "customername");
  }

  /** "quantity" selects the quantity order. */
  lemma QuantityKey()
    ensures KeyOf(Some("quantity")) == ByQuantity
  {
    LowerAsciiIs("quantity", "quantity");
  }

  /** "DESC" selects descending order, and "asc" and the empty string ascending order. */
  lemma OrderIgnoresCase()
    ensures IsDescending("DESC") && IsDescending("desc")
    ensures !IsDescending("asc") && !IsDescending("")
  {
    LowerAsciiIs("DESC", "desc");
    LowerAsciiIs("desc", "desc");
    LowerAsciiIs("asc", "asc");
  }

  /** An absent or unknown key keeps the input order, in either direction. */
  lemma UnknownKeyKeepsOrder(p: Platform, items: seq<Record>, sortBy: Option<string>, sortOrder: string)
    requires KeyOf(sortBy) == Unsorted
    ensures SortedRecords(p, items, sortBy, sortOrder) == items
  {
    InsertionSortedWithoutOrder(items, Comparator(p, Unsorted, IsDescending(sortOrder)));
  }

  /**
   * When the comparison is a total preorder on the records, which holds for
   * quantities, for dates that all parse, and for names when `localeCompare` is one.
   */
  ghost predicate Comparable(p: Platform, key: SortKey, items: seq<Record>) {
    match key
    case ByDate => forall r :: r in items ==> p.parseDate(r.date).Some?
    case ByCustomerName => ConsistentOn(Comparator(p, ByCustomerName, false), items)
    case _ => true
  }

  /** Under `Comparable`, the comparator in either direction is consistent on the records. */
  lemma ComparatorConsistent(p: Platform, key: SortKey, descending: bool, items: seq<Record>)
    requires Comparable(p, key, items)
    ensures ConsistentOn(Comparator(p, key, descending), items)
  {
    var asc := Comparator(p, key, false);
    var cmp := Comparator(p, key, descending);
    forall a, b | a in items && b in items
      ensures Opposed(cmp, a, b)
    {
      if key == ByCustomerName {
        assert Opposed(asc, a, b) && Opposed(asc, b, a);
      }
    }
    forall a, b, c | a in items && b in items && c in items
      ensures Chains(cmp, a, b, c)
    {
      if key == ByCustomerName {
        assert Opposed(asc, a, b) && Opposed(asc, b, a);
        assert Opposed(asc, b, c) && Opposed(asc, c, b);
        assert Opposed(asc, a, c) && Opposed(asc, c, a);
        assert Chains(asc, a, b, c) && Chains(asc, c, b, a);
      }
    }
  }

  /** The result is a permutation of the input. */
  lemma SortPermutes(p: Platform, items: seq<Record>, sortBy: Option<string>, sortOrder: string)
    ensures multiset(SortedRecords(p, items, sortBy, sortOrder)) == multiset(items)
    ensures |SortedRecords(p, items, sortBy, sortOrder)| == |items|
  {
    InsertionSortedPermutes(items, Comparator(p, KeyOf(sortBy), IsDescending(sortOrder)));
  }

  /**
   * On comparable records the result is ordered: ascending by the key, or, for
   * "desc", no record compares below one that comes after it.
   */
  lemma SortOrders(p: Platform, items: seq<Record>, sortBy: Option<string>, sortOrder: string)
    requires Comparable(p, KeyOf(sortBy), items)
    ensures var r := SortedRecords(p, items, sortBy, sortOrder);
      forall i, j :: 0 <= i < j < |r| ==>
        if IsDescending(sortOrder) then Ascending(p, KeyOf(sortBy), r[i], r[j]) >= 0
        else Ascending(p, KeyOf(sortBy), r[i], r[j]) <= 0
  {
    var cmp := Comparator(p, KeyOf(sortBy), IsDescending(sortOrder));
    ComparatorConsistent(p, KeyOf(sortBy), IsDescending(sortOrder), items);
    InsertionSortedIsSorted(items, cmp);
  }

  /**
   * Records that tie on the key keep their input order, in ascending and in
   * descending order alike.
   */
  lemma TiesKeepInputOrder(p: Platform, items: seq<Record>, sortBy: Option<string>, sortOrder: string, k: Record)
    requires Comparable(p, KeyOf(sortBy), items) && k in items
    ensures var ties := TiesWith(k, Comparator(p, KeyOf(sortBy), false));
      Select(SortedRecords(p, items, sortBy, sortOrder), ties) == Select(items, ties)
  {
    var key, descending := KeyOf(sortBy), IsDescending(sortOrder);
    var cmp := Comparator(p, key, descending);
    var asc := Comparator(p, key, false);
    assert items + [k] == items + [k];
    ComparatorConsistent(p, key, descending, items);
    assert forall y :: y in items + [k] ==> y in items;
    ConsistentOnSubset(cmp, items + [k], items);
    InsertionSortedKeepsTies(items, k, cmp);
    var r := SortedRecords(p, items, sortBy, sortOrder);
    InsertionSortedPermutes(items, cmp);
    assert forall x :: x in r ==> x in multiset(r);
    SelectAgreeing(r, TiesWith(k, cmp), TiesWith(k, asc));
    SelectAgreeing(items, TiesWith(k, cmp), TiesWith(k, asc));
  }

  /**
   * Descending order is not the reverse of ascending order: two records with the
   * same quantity come out in their input order under both.
   */
  lemma DescendingIsNotReversal(p: Platform, a: Record, b: Record)
    requires a != b && a.quantity == b.quantity
    ensures SortedRecords(p, [a, b], Some("quantity"), "asc") == [a, b]
    ensures SortedRecords(p, [a, b], Some("quantity"), "desc") == [a, b]
  {
    QuantityKey();
    forall descending: bool
      ensures InsertionSorted([a, b], Comparator(p, ByQuantity, descending)) == [a, b]
    {
      var cmp := Comparator(p, ByQuantity, descending);
      assert cmp(a, b) == 0;
      assert [a, b][..1] == [a];
      assert [a][..0] == [];
      assert InsertionSorted([a], cmp) == [a];
    }
  }
}
