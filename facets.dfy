/**
 * `getDistinctValuesOptimized`: the facet index the filter panel is built from,
 * gathered in one pass over the records. Five `Map`s collect the distinct truthy
 * region, gender, category, payment-method and tag values in first-seen order
 * (a `Map`'s keys keep insertion order and setting a key twice changes nothing);
 * the keys are then sorted with the default comparator. Alongside, the pass keeps
 * the smallest and largest positive age and the lexically smallest and largest
 * non-empty date.
 */
module Facets {
  import opened Wrappers
  import opened JsText
  import opened Seqs
  import opened StableSort
  import opened Records

  datatype AgeBounds = AgeBounds(min: int, max: int)

  /** `{from, to}`, each `null` when no record has a date. */
  datatype DateBounds = DateBounds(from: Option<string>, to: Option<string>)

  datatype FacetIndex = FacetIndex(
    regions: seq<string>,
    genders: seq<string>,
    categories: seq<string>,
    paymentMethods: seq<string>,
    tags: seq<string>,
    ageRange: AgeBounds,
    dateRange: DateBounds)

  /** The five multi-valued facets. */
  datatype Facet = Region | Gender | Category | PaymentMethod | Tag

  /** The values a record contributes to a facet: its one field, or all its tags. */
  function Values(r: Record, f: Facet): seq<string> {
    match f
    case Region => [r.region]
    case Gender => [r.gender]
    case Category => [r.category]
    case PaymentMethod => [r.paymentMethod]
    case Tag => r.tags
  }

  // ------------------------------------------------------------ distinct keys

  /** `if (v) keys.set(v, true)` on the key sequence of a `Map`. */
  function AddKey(keys: seq<string>, v: string): seq<string> {
    if v == "" || v in keys then keys else keys + [v]
  }

  /** Each of `vs` added in turn. */
  function AddKeys(keys: seq<string>, vs: seq<string>): seq<string> {
    if vs == [] then keys else AddKey(AddKeys(keys, vs[..|vs| - 1]), vs[|vs| - 1])
  }

  /** The keys of a facet's `Map` after the records of `items` have been visited in order. */
  function Gather(items: seq<Record>, f: Facet): seq<string> {
    if items == [] then []
    else AddKeys(Gather(items[..|items| - 1], f), Values(items[|items| - 1], f))
  }

  /** `x` is one of the values some record of `items` contributes to facet `f`. */
  ghost predicate Occurs(items: seq<Record>, f: Facet, x: string) {
    exists r :: r in items && x in Values(r, f)
  }

  predicate NoDuplicates(s: seq<string>) {
    forall i, j :: 0 <= i < j < |s| ==> s[i] != s[j]
  }

  /** Strictly increasing in JavaScript's string order. */
  predicate StrictlyAscending(s: seq<string>) {
    forall i, j :: 0 <= i < j < |s| ==> Less(s[i], s[j])
  }

  /** Adding keys keeps the old ones, adds exactly the truthy new values, and never duplicates. */
  lemma {:induction false} AddKeysMembers(keys: seq<string>, vs: seq<string>)
    requires NoDuplicates(keys)
    ensures NoDuplicates(AddKeys(keys, vs))
    ensures forall x :: x in AddKeys(keys, vs) <==> x in keys || (x != "" && x in vs)
  {
    if vs != [] {
      var init, last := vs[..|vs| - 1], vs[|vs| - 1];
      AddKeysMembers(keys, init);
      assert vs == init + [last];
    }
  }

  /** A facet's keys are the distinct truthy values the records contribute to it. */
  lemma {:induction false} GatherMembers(items: seq<Record>, f: Facet)
    ensures NoDuplicates(Gather(items, f))
    ensures forall x :: x in Gather(items, f) <==> x != "" && Occurs(items, f, x)
  {
    if items != [] {
      var init, last := items[..|items| - 1], items[|items| - 1];
      GatherMembers(init, f);
      AddKeysMembers(Gather(init, f), Values(last, f));
      assert items == init + [last];
      forall x
        ensures Occurs(items, f, x) <==> Occurs(init, f, x) || x in Values(last, f)
      {
        if Occurs(items, f, x) {
          var r :| r in items && x in Values(r, f);
          if r != last {
            assert r in init;
          }
        }
      }
    }
  }

  // ---------------------------------------------------------- sorting the keys

  /** The default comparator is a total order on strings. */
  lemma CompareStringsConsistent(s: seq<string>)
    ensures ConsistentOn(CompareStrings, s)
  {
    forall a, b, c | a in s && b in s && c in s
      ensures Chains(CompareStrings, a, b, c)
    {
      if Less(a, b) && Less(b, c) {
        LessTransitive(a, b, c);
      }
    }
  }

  /** A sequence without duplicates holds each value at most once. */
  lemma {:induction false} NoDuplicatesCount(s: seq<string>, x: string)
    requires NoDuplicates(s)
    ensures multiset(s)[x] <= 1
  {
    if s != [] {
      var init := s[..|s| - 1];
      NoDuplicatesCount(init, x);
      assert s == init + [s[|s| - 1]];
      if x == s[|s| - 1] {
        assert x !in init;
      }
    }
  }

  /** A value at two positions is counted twice. */
  lemma CountedTwice(a: seq<string>, i: nat, j: nat)
    requires i < j < |a|
    ensures a[i] == a[j] ==> multiset(a)[a[i]] >= 2
  {
    assert a == a[..j] + a[j..];
    assert a[i] in a[..j] && a[j] in a[j..];
  }

  /** A rearrangement of a sequence without duplicates has none either. */
  lemma NoDuplicatesPermuted(a: seq<string>, b: seq<string>)
    requires multiset(a) == multiset(b) && NoDuplicates(b)
    ensures NoDuplicates(a)
  {
    forall i, j | 0 <= i < j < |a|
      ensures a[i] != a[j]
    {
      CountedTwice(a, i, j);
      NoDuplicatesCount(b, a[i]);
    }
  }

  /** `Array.from(map.keys()).sort()`. */
  function SortedKeys(keys: seq<string>): seq<string> {
    InsertionSorted(keys, CompareStrings)
  }

  /** Sorting distinct keys gives them in strictly ascending order, and nothing else. */
  lemma SortedKeysAscending(keys: seq<string>)
    requires NoDuplicates(keys)
    ensures StrictlyAscending(SortedKeys(keys))
    ensures forall x :: x in SortedKeys(keys) <==> x in keys
  {
    var r := SortedKeys(keys);
    CompareStringsConsistent(keys);
    InsertionSortedIsSorted(keys, CompareStrings);
    InsertionSortedPermutes(keys, CompareStrings);
    NoDuplicatesPermuted(r, keys);
    assert forall x :: x in r <==> x in multiset(r);
  }

  /** Two strictly ascending sequences with the same elements are the same sequence. */
  lemma {:induction false} AscendingUnique(a: seq<string>, b: seq<string>)
    requires StrictlyAscending(a) && StrictlyAscending(b)
    requires forall x :: x in a <==> x in b
    ensures a == b
  {
    assert a != [] ==> a[0] in b;
    assert b != [] ==> b[0] in a;
    if a != [] {
      var k :| 0 <= k < |b| && b[k] == a[0];
      assert b[0] in a;
      var m :| 0 <= m < |a| && a[m] == b[0];
      if k > 0 && m > 0 {
        LessAsymmetric(a[0], b[0]);
      }
      assert a[0] == b[0];
      forall x
        ensures x in a[1..] <==> x in b[1..]
      {
        AscendingTail(a, x);
        AscendingTail(b, x);
      }
      AscendingUnique(a[1..], b[1..]);
      assert a == [a[0]] + a[1..] && b == [b[0]] + b[1..];
    }
  }

  /** The tail of a strictly ascending sequence holds everything but its first element. */
  lemma AscendingTail(a: seq<string>, x: string)
    requires a != [] && StrictlyAscending(a)
    ensures x in a[1..] <==> x in a && x != a[0]
  {
    if x in a[1..] {
      var k :| 1 <= k < |a| && a[k] == x;
      LessIrreflexive(a[0]);
    }
    if x in a && x != a[0] {
      var k :| 0 <= k < |a| && a[k] == x;
      assert a[1..][k - 1] == x;
    }
  }

  // --------------------------------------------------------- age and date range

  /** `if (age > 0 && age < minAge) minAge = age`, `None` standing for the initial `Infinity`. */
  function LowerAge(m: Option<int>, a: int): Option<int> {
    if a > 0 && (m.None? || a < m.value) then Some(a) else m
  }

  /** `if (age > 0 && age > maxAge) maxAge = age`, `None` standing for the initial `-Infinity`. */
  function RaiseAge(m: Option<int>, a: int): Option<int> {
    if a > 0 && (m.None? || a > m.value) then Some(a) else m
  }

  /** `if (date && (!minDate || date < minDate)) minDate = date`, `None` standing for `null`. */
  function LowerDate(m: Option<string>, d: string): Option<string> {
    if d != "" && (m.None? || Less(d, m.value)) then Some(d) else m
  }

  /** `if (date && (!maxDate || date > maxDate)) maxDate = date`, `None` standing for `null`. */
  function RaiseDate(m: Option<string>, d: string): Option<string> {
    if d != "" && (m.None? || Less(m.value, d)) then Some(d) else m
  }

  /** The smallest positive age among `items`. */
  function MinAge(items: seq<Record>): Option<int> {
    if items == [] then None else LowerAge(MinAge(items[..|items| - 1]), items[|items| - 1].age)
  }

  /** The largest positive age among `items`. */
  function MaxAge(items: seq<Record>): Option<int> {
    if items == [] then None else RaiseAge(MaxAge(items[..|items| - 1]), items[|items| - 1].age)
  }

  /** The lexically smallest non-empty date among `items`. */
  function MinDate(items: seq<Record>): Option<string> {
    if items == [] then None else LowerDate(MinDate(items[..|items| - 1]), items[|items| - 1].date)
  }

  /** The lexically largest non-empty date among `items`. */
  function MaxDate(items: seq<Record>): Option<string> {
    if items == [] then None else RaiseDate(MaxDate(items[..|items| - 1]), items[|items| - 1].date)
  }

  /** `MinAge` is the minimum over the positive ages, and absent exactly when there is none. */
  lemma {:induction false} MinAgeIsMinimum(items: seq<Record>)
    ensures MinAge(items).None? <==> forall r :: r in items ==> r.age <= 0
    ensures MinAge(items).Some? ==> exists r :: r in items && r.age > 0 && r.age == MinAge(items).value
    ensures MinAge(items).Some? ==> forall r :: r in items && r.age > 0 ==> MinAge(items).value <= r.age
  {
    if items != [] {
      var init := items[..|items| - 1];
      MinAgeIsMinimum(init);
      assert items == init + [items[|items| - 1]];
    }
  }

  /** `MaxAge` is the maximum over the positive ages, and absent exactly when there is none. */
  lemma {:induction false} MaxAgeIsMaximum(items: seq<Record>)
    ensures MaxAge(items).None? <==> forall r :: r in items ==> r.age <= 0
    ensures MaxAge(items).Some? ==> exists r :: r in items && r.age > 0 && r.age == MaxAge(items).value
    ensures MaxAge(items).Some? ==> forall r :: r in items && r.age > 0 ==> r.age <= MaxAge(items).value
  {
    if items != [] {
      var init := items[..|items| - 1];
      MaxAgeIsMaximum(init);
      assert items == init + [items[|items| - 1]];
    }
  }

  /** `MinDate` is the least non-empty date, and absent exactly when every date is empty. */
  lemma {:induction false} MinDateIsMinimum(items: seq<Record>)
    ensures MinDate(items).None? <==> forall r :: r in items ==> r.date == ""
    ensures MinDate(items).Some? ==> exists r :: r in items && r.date != "" && r.date == MinDate(items).value
    ensures MinDate(items).Some? ==> forall r :: r in items && r.date != "" ==> !Less(r.date, MinDate(items).value)
  {
    if items != [] {
      var init, last := items[..|items| - 1], items[|items| - 1];
      MinDateIsMinimum(init);
      assert items == init + [last];
      assert forall r :: r in items <==> r in init || r == last;
      LessIrreflexive(last.date);
      var m := MinDate(init);
      if last.date != "" && m.Some? && Less(last.date, m.value) {
        forall r | r in init && r.date != ""
          ensures !Less(r.date, last.date)
        {
          if Less(r.date, last.date) {
            LessTransitive(r.date, last.date, m.value);
          }
        }
      }
    }
  }

  /** `MaxDate` is the greatest non-empty date, and absent exactly when every date is empty. */
  lemma {:induction false} MaxDateIsMaximum(items: seq<Record>)
    ensures MaxDate(items).None? <==> forall r :: r in items ==> r.date == ""
    ensures MaxDate(items).Some? ==> exists r :: r in items && r.date != "" && r.date == MaxDate(items).value
    ensures MaxDate(items).Some? ==> forall r :: r in items && r.date != "" ==> !Less(MaxDate(items).value, r.date)
  {
    if items != [] {
      var init, last := items[..|items| - 1], items[|items| - 1];
      MaxDateIsMaximum(init);
      assert items == init + [last];
      assert forall r :: r in items <==> r in init || r == last;
      LessIrreflexive(last.date);
      var m := MaxDate(init);
      if last.date != "" && m.Some? && Less(m.value, last.date) {
        forall r | r in init && r.date != ""
          ensures !Less(last.date, r.date)
        {
          if Less(last.date, r.date) {
            LessTransitive(m.value, last.date, r.date);
          }
        }
      }
    }
  }

  // ------------------------------------------------------------- the index

  /** The state of the pass: the keys of the five `Map`s and the four running extremes. */
  datatype Scan = Scan(
    regions: seq<string>,
    genders: seq<string>,
    categories: seq<string>,
    payments: seq<string>,
    tags: seq<string>,
    minAge: Option<int>,
    maxAge: Option<int>,
    minDate: Option<string>,
    maxDate: Option<string>)

  /** The state of the pass once it has visited `items`. */
  function ScanOf(items: seq<Record>): Scan {
    Scan(Gather(items, Region), Gather(items, Gender), Gather(items, Category),
      Gather(items, PaymentMethod), Gather(items, Tag),
      MinAge(items), MaxAge(items), MinDate(items), MaxDate(items))
  }

  /** The returned object: each key list sorted, 18 and 75 for a missing age bound, `null` for a missing date. */
  function Finish(s: Scan): FacetIndex {
    FacetIndex(
      SortedKeys(s.regions), SortedKeys(s.genders), SortedKeys(s.categories),
      SortedKeys(s.payments), SortedKeys(s.tags),
      AgeBounds(s.minAge.GetOr(18), s.maxAge.GetOr(75)),
      DateBounds(s.minDate, s.maxDate))
  }

  /** The facet index of `items`. */
  function FacetIndexOf(items: seq<Record>): FacetIndex {
    Finish(ScanOf(items))
  }

  /** The list of a facet in the index. */
  function List(index: FacetIndex, f: Facet): seq<string> {
    match f
    case Region => index.regions
    case Gender => index.genders
    case Category => index.categories
    case PaymentMethod => index.paymentMethods
    case Tag => index.tags
  }

  /** A facet's list is its sorted keys. */
  lemma ListOf(items: seq<Record>, f: Facet)
    ensures List(FacetIndexOf(items), f) == SortedKeys(Gather(items, f))
  {
  }

  /**
   * Each facet list is strictly ascending (so sorted and free of duplicates),
   * holds no empty string, and holds exactly the values the records contribute.
   */
  lemma FacetListIsSortedDistinctValues(items: seq<Record>, f: Facet)
    ensures StrictlyAscending(List(FacetIndexOf(items), f))
    ensures "" !in List(FacetIndexOf(items), f)
    ensures forall x :: x in List(FacetIndexOf(items), f) <==> x != "" && Occurs(items, f, x)
  {
    ListOf(items, f);
    GatherMembers(items, f);
    SortedKeysAscending(Gather(items, f));
  }

  /**
   * The age range is the least and greatest positive age, 18 and 75 when no age
   * is positive; the date range is the least and greatest non-empty date, both
   * `null` when there is none.
   */
  lemma RangesAreExtremes(items: seq<Record>)
    ensures var a := FacetIndexOf(items).ageRange;
      ((forall r :: r in items ==> r.age <= 0) ==> a == AgeBounds(18, 75)) &&
      (forall r :: r in items && r.age > 0 ==> a.min <= r.age <= a.max) &&
      ((exists r :: r in items && r.age > 0) ==>
        (exists r :: r in items && r.age > 0 && r.age == a.min) &&
        (exists r :: r in items && r.age > 0 && r.age == a.max))
    ensures var d := FacetIndexOf(items).dateRange;
      (d.from.None? <==> forall r :: r in items ==> r.date == "") &&
      (d.to.None? <==> forall r :: r in items ==> r.date == "") &&
      (d.from.Some? ==>
        (exists r :: r in items && r.date != "" && r.date == d.from.value) &&
        (forall r :: r in items && r.date != "" ==> !Less(r.date, d.from.value))) &&
      (d.to.Some? ==>
        (exists r :: r in items && r.date != "" && r.date == d.to.value) &&
        (forall r :: r in items && r.date != "" ==> !Less(d.to.value, r.date)))
  {
    MinAgeIsMinimum(items);
    MaxAgeIsMaximum(items);
    MinDateIsMinimum(items);
    MaxDateIsMaximum(items);
  }

  /** The index depends only on which records there are, not on their order. */
  lemma FacetIndexIgnoresOrder(items: seq<Record>, items': seq<Record>)
    requires multiset(items) == multiset(items')
    ensures FacetIndexOf(items) == FacetIndexOf(items')
  {
    assert forall r :: r in items <==> r in items' by {
      forall r
        ensures r in items <==> r in items'
      {
        assert r in items <==> r in multiset(items);
        assert r in items' <==> r in multiset(items');
      }
    }
    SameList(items, items', Region);
    SameList(items, items', Gender);
    SameList(items, items', Category);
    SameList(items, items', PaymentMethod);
    SameList(items, items', Tag);
    SameMinAge(items, items');
    SameMaxAge(items, items');
    SameDates(items, items');
  }

  /** A facet list is the same for two sequences holding the same records. */
  lemma SameList(items: seq<Record>, items': seq<Record>, f: Facet)
    requires forall r :: r in items <==> r in items'
    ensures SortedKeys(Gather(items, f)) == SortedKeys(Gather(items', f))
  {
    GatherMembers(items, f);
    GatherMembers(items', f);
    SortedKeysAscending(Gather(items, f));
    SortedKeysAscending(Gather(items', f));
    AscendingUnique(SortedKeys(Gather(items, f)), SortedKeys(Gather(items', f)));
  }

  /** The least age is the same for two sequences holding the same records. */
  lemma SameMinAge(items: seq<Record>, items': seq<Record>)
    requires forall r :: r in items <==> r in items'
    ensures MinAge(items) == MinAge(items')
  {
    MinAgeIsMinimum(items);
    MinAgeIsMinimum(items');
  }

  /** The greatest age is the same for two sequences holding the same records. */
  lemma SameMaxAge(items: seq<Record>, items': seq<Record>)
    requires forall r :: r in items <==> r in items'
    ensures MaxAge(items) == MaxAge(items')
  {
    MaxAgeIsMaximum(items);
    MaxAgeIsMaximum(items');
  }

  /** The date extremes are the same for two sequences holding the same records. */
  lemma SameDates(items: seq<Record>, items': seq<Record>)
    requires forall r :: r in items <==> r in items'
    ensures MinDate(items) == MinDate(items') && MaxDate(items) == MaxDate(items')
  {
    MinDateIsMinimum(items);
    MinDateIsMinimum(items');
    MaxDateIsMaximum(items);
    MaxDateIsMaximum(items');
    if MinDate(items).Some? && MinDate(items').Some? {
      var a, b := MinDate(items).value, MinDate(items').value;
      if a != b {
        LessTotal(a, b);
      }
    }
    if MaxDate(items).Some? && MaxDate(items').Some? {
      var a, b := MaxDate(items).value, MaxDate(items').value;
      if a != b {
        LessTotal(a, b);
      }
    }
  }

  // ------------------------------------------------------------- the one pass

  /** What visiting one record does to the state of the pass. */
  function Step(s: Scan, r: Record): Scan {
    Scan(
      AddKey(s.regions, r.region), AddKey(s.genders, r.gender), AddKey(s.categories, r.category),
      AddKey(s.payments, r.paymentMethod), AddKeys(s.tags, r.tags),
      LowerAge(s.minAge, r.age), RaiseAge(s.maxAge, r.age),
      LowerDate(s.minDate, r.date), RaiseDate(s.maxDate, r.date))
  }

  /** For a one-value facet, adding the record's values is adding its one value. */
  lemma AddOneKey(keys: seq<string>, v: string)
    ensures AddKeys(keys, [v]) == AddKey(keys, v)
  {
    assert [v][..0] == [];
  }

  /** Visiting one more record is one `Step`. */
  lemma ScanStep(items: seq<Record>, i: nat)
    requires i < |items|
    ensures ScanOf(items[..i + 1]) == Step(ScanOf(items[..i]), items[i])
  {
    var prefix := items[..i + 1];
    assert prefix[..i] == items[..i];
    var s := ScanOf(items[..i]);
    var r := items[i];
    AddOneKey(s.regions, r.region);
    AddOneKey(s.genders, r.gender);
    AddOneKey(s.categories, r.category);
    AddOneKey(s.payments, r.paymentMethod);
  }

  /** The inner `forEach` over a record's tags: each new non-empty tag becomes a key. */
  method AddTagKeys(keys: seq<string>, tags: seq<string>) returns (r: seq<string>)
    ensures r == AddKeys(keys, tags)
  {
    r := keys;
    var j := 0;
    while j < |tags|
      invariant 0 <= j <= |tags|
      invariant r == AddKeys(keys, tags[..j])
    {
      var tag := tags[j];
      assert tags[..j + 1][..j] == tags[..j];
      if tag != "" && tag !in r {
        r := r + [tag];
      }
      j := j + 1;
    }
    assert tags[..j] == tags;
  }

  /** The `for` loop of `getDistinctValuesOptimized`. */
  method ScanRecords(items: seq<Record>) returns (s: Scan)
    ensures s == ScanOf(items)
  {
    var regions: seq<string> := [];
    var genders: seq<string> := [];
    var categories: seq<string> := [];
    var payments: seq<string> := [];
    var tags: seq<string> := [];
    var minAge: Option<int> := None;
    var maxAge: Option<int> := None;
    var minDate: Option<string> := None;
    var maxDate: Option<string> := None;
    var i := 0;
    while i < |items|
      invariant 0 <= i <= |items|
      invariant Scan(regions, genders, categories, payments, tags, minAge, maxAge, minDate, maxDate)
        == ScanOf(items[..i])
    {
      var item := items[i];
      ScanStep(items, i);
      ghost var next := Step(ScanOf(items[..i]), item);
      if item.region != "" && item.region !in regions {
        regions := regions + [item.region];
      }
      assert regions == next.regions;
      if item.gender != "" && item.gender !in genders {
        genders := genders + [item.gender];
      }
      assert genders == next.genders;
      if item.category != "" && item.category !in categories {
        categories := categories + [item.category];
      }
      assert categories == next.categories;
      if item.paymentMethod != "" && item.paymentMethod !in payments {
        payments := payments + [item.paymentMethod];
      }
      assert payments == next.payments;
      tags := AddTagKeys(tags, item.tags);
      if item.age > 0 {
        if minAge.None? || item.age < minAge.value {
          minAge := Some(item.age);
        }
        if maxAge.None? || item.age > maxAge.value {
          maxAge := Some(item.age);
        }
      }
      assert minAge == next.minAge && maxAge == next.maxAge;
      if item.date != "" {
        if minDate.None? || Less(item.date, minDate.value) {
          minDate := Some(item.date);
        }
        if maxDate.None? || Less(maxDate.value, item.date) {
          maxDate := Some(item.date);
        }
      }
      assert minDate == next.minDate && maxDate == next.maxDate;
      i := i + 1;
    }
    assert items[..i] == items;
    s := Scan(regions, genders, categories, payments, tags, minAge, maxAge, minDate, maxDate);
  }

  /** `getDistinctValuesOptimized(items)`: the pass, then each key list sorted. */
  method BuildFacetIndex(items: seq<Record>) returns (index: FacetIndex)
    ensures index == FacetIndexOf(items)
  {
    var s := ScanRecords(items);
    var regions := SortedCopy(s.regions, CompareStrings);
    var genders := SortedCopy(s.genders, CompareStrings);
    var categories := SortedCopy(s.categories, CompareStrings);
    var payments := SortedCopy(s.payments, CompareStrings);
    var tags := SortedCopy(s.tags, CompareStrings);
    index := FacetIndex(
      regions, genders, categories, payments, tags,
      AgeBounds(if s.minAge.None? then 18 else s.minAge.value, if s.maxAge.None? then 75 else s.maxAge.value),
      DateBounds(s.minDate, s.maxDate));
  }
}
