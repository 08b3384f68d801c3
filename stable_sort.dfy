/**
 * `Array.prototype.sort(cmp)` as the engine uses it: a stable sort that runs in
 * place on an array and consults a comparator returning a negative number, zero or
 * a positive number. It is modelled by insertion sort; `StableSortIsUnique` shows
 * that for a consistent comparator every stable sort yields the same order, so the
 * engine's behaviour does not depend on which stable algorithm the runtime uses.
 */
module StableSort {
  import opened Seqs

  /** "Not greater" chains from `a` through `b` to `c`. */
  ghost predicate Chains<T>(cmp: (T, T) -> int, a: T, b: T, c: T) {
    cmp(a, b) <= 0 && cmp(b, c) <= 0 ==> cmp(a, c) <= 0
  }

  /** `a` compares below `b` exactly when `b` compares above `a`. */
  ghost predicate Opposed<T>(cmp: (T, T) -> int, a: T, b: T) {
    cmp(a, b) < 0 <==> cmp(b, a) > 0
  }

  /**
   * `cmp` is a total preorder on the elements of `s`: `cmp(a, b)` and `cmp(b, a)`
   * have opposite signs, and "not greater" is transitive. (Both are used through
   * `Opposed` and `Chains`, one instance at a time.)
   */
  ghost predicate ConsistentOn<T>(cmp: (T, T) -> int, s: seq<T>) {
    (forall a, b {:trigger Opposed(cmp, a, b)} :: a in s && b in s ==> Opposed(cmp, a, b)) &&
    (forall a, b, c {:trigger Chains(cmp, a, b, c)} :: a in s && b in s && c in s ==> Chains(cmp, a, b, c))
  }

  /** No element compares greater than one that comes after it. */
  ghost predicate Sorted<T>(s: seq<T>, cmp: (T, T) -> int) {
    forall i, j :: 0 <= i < j < |s| ==> cmp(s[i], s[j]) <= 0
  }

  /** The elements tying with `k` appear in `r` and in `r'` in the same order. */
  ghost predicate SameTies<T>(r: seq<T>, r': seq<T>, k: T, cmp: (T, T) -> int) {
    Select(r, TiesWith(k, cmp)) == Select(r', TiesWith(k, cmp))
  }

  /** The elements that tie with `k`. */
  function TiesWith<T>(k: T, cmp: (T, T) -> int): T -> bool {
    x => cmp(x, k) == 0
  }

  /** Inserts `x` from the right: it moves left past every element that compares greater, and no further. */
  function Insert<T>(s: seq<T>, x: T, cmp: (T, T) -> int): seq<T> {
    if s == [] then [x]
    else if cmp(s[|s| - 1], x) > 0 then Insert(s[..|s| - 1], x, cmp) + [s[|s| - 1]]
    else s + [x]
  }

  /** The order a stable sort by `cmp` gives `s`: each element inserted in turn into the sorted prefix. */
  function InsertionSorted<T>(s: seq<T>, cmp: (T, T) -> int): seq<T> {
    if s == [] then []
    else Insert(InsertionSorted(s[..|s| - 1], cmp), s[|s| - 1], cmp)
  }

  lemma {:induction false} InsertPermutes<T>(s: seq<T>, x: T, cmp: (T, T) -> int)
    ensures multiset(Insert(s, x, cmp)) == multiset(s) + multiset{x}
  {
    if s != [] && cmp(s[|s| - 1], x) > 0 {
      InsertPermutes(s[..|s| - 1], x, cmp);
      assert s == s[..|s| - 1] + [s[|s| - 1]];
    }
  }

  /** Sorting only rearranges: the result is a permutation of the input. */
  lemma {:induction false} InsertionSortedPermutes<T>(s: seq<T>, cmp: (T, T) -> int)
    ensures multiset(InsertionSorted(s, cmp)) == multiset(s)
    ensures |InsertionSorted(s, cmp)| == |s|
  {
    if s != [] {
      InsertionSortedPermutes(s[..|s| - 1], cmp);
      InsertPermutes(InsertionSorted(s[..|s| - 1], cmp), s[|s| - 1], cmp);
      assert s == s[..|s| - 1] + [s[|s| - 1]];
    }
    assert |InsertionSorted(s, cmp)| == |multiset(InsertionSorted(s, cmp))|;
  }

  lemma ConsistentOnSubset<T>(cmp: (T, T) -> int, a: seq<T>, b: seq<T>)
    requires ConsistentOn(cmp, b)
    requires forall y :: y in a ==> y in b
    ensures ConsistentOn(cmp, a)
  {
  }

  /** A consistent comparator ties every element with itself. */
  lemma ConsistentReflexive<T>(cmp: (T, T) -> int, s: seq<T>, a: T)
    requires ConsistentOn(cmp, s) && a in s
    ensures cmp(a, a) == 0
  {
    assert Opposed(cmp, a, a);
  }

  lemma {:induction false} InsertKeepsSorted<T>(s: seq<T>, x: T, cmp: (T, T) -> int)
    requires Sorted(s, cmp)
    requires ConsistentOn(cmp, s + [x])
    ensures Sorted(Insert(s, x, cmp), cmp)
  {
    if s != [] {
      var init, last := s[..|s| - 1], s[|s| - 1];
      assert last in s + [x];
      if cmp(last, x) > 0 {
        ConsistentOnSubset(cmp, init + [x], s + [x]);
        InsertKeepsSorted(init, x, cmp);
        var t := Insert(init, x, cmp);
        InsertPermutes(init, x, cmp);
        forall y | y in t
          ensures cmp(y, last) <= 0
        {
          assert y in multiset(t);
          if y == x {
            assert Opposed(cmp, last, x);
          } else {
            assert y in init;
            var i :| 0 <= i < |init| && init[i] == y;
            assert s[i] == y;
          }
        }
        forall i, j | 0 <= i < j < |t + [last]|
          ensures cmp((t + [last])[i], (t + [last])[j]) <= 0
        {
          if j == |t| {
            assert (t + [last])[i] in t;
          } else {
            assert (t + [last])[i] == t[i] && (t + [last])[j] == t[j];
          }
        }
      } else {
        forall i, j | 0 <= i < j < |s + [x]|
          ensures cmp((s + [x])[i], (s + [x])[j]) <= 0
        {
          if j == |s| {
            assert (s + [x])[i] == s[i] && s[i] in s + [x];
            if i < |s| - 1 {
              assert cmp(s[i], last) <= 0;
              assert Chains(cmp, s[i], last, x);
            }
          } else {
            assert (s + [x])[i] == s[i] && (s + [x])[j] == s[j];
          }
        }
      }
    }
  }

  /** Under a consistent comparator the result is sorted. */
  lemma {:induction false} InsertionSortedIsSorted<T>(s: seq<T>, cmp: (T, T) -> int)
    requires ConsistentOn(cmp, s)
    ensures Sorted(InsertionSorted(s, cmp), cmp)
  {
    if s != [] {
      var init, last := s[..|s| - 1], s[|s| - 1];
      assert s == init + [last];
      ConsistentOnSubset(cmp, init, s);
      InsertionSortedIsSorted(init, cmp);
      var t := InsertionSorted(init, cmp);
      InsertionSortedPermutes(init, cmp);
      forall y | y in t + [last]
        ensures y in s
      {
        if y != last {
          assert y in multiset(t);
        }
      }
      ConsistentOnSubset(cmp, t + [last], s);
      InsertKeepsSorted(t, last, cmp);
    }
  }

  /** Inserting `x` never reorders `s`, and never moves `x` ahead of an element that ties with it. */
  lemma {:induction false} InsertKeepsTies<T>(s: seq<T>, x: T, k: T, cmp: (T, T) -> int)
    requires ConsistentOn(cmp, s + [x, k])
    ensures Select(Insert(s, x, cmp), TiesWith(k, cmp)) == Select(s + [x], TiesWith(k, cmp))
  {
    var p := TiesWith(k, cmp);
    if s != [] {
      var init, last := s[..|s| - 1], s[|s| - 1];
      if cmp(last, x) > 0 {
        assert s == init + [last];
        ConsistentOnSubset(cmp, init + [x, k], s + [x, k]);
        assert last in s + [x, k] && x in s + [x, k] && k in s + [x, k];
        assert Chains(cmp, last, k, x) && Opposed(cmp, x, k);
        var t := Insert(init, x, cmp);
        var lastPart := if p(last) then [last] else [];
        var xPart := if p(x) then [x] else [];
        assert lastPart == [] || xPart == [];
        calc {
          Select(Insert(s, x, cmp), p);
          Select(t + [last], p);
          { SelectSnoc(t, last, p); }
          Select(t, p) + lastPart;
          { InsertKeepsTies(init, x, k, cmp); }
          Select(init + [x], p) + lastPart;
          { SelectSnoc(init, x, p); }
          Select(init, p) + xPart + lastPart;
          Select(init, p) + lastPart + xPart;
          { SelectSnoc(init, last, p); }
          Select(s, p) + xPart;
          { SelectSnoc(s, x, p); }
          Select(s + [x], p);
        }
      }
    }
  }

  /** Stability: the elements that tie with `k` come out in the order they went in. */
  lemma {:induction false} InsertionSortedKeepsTies<T>(s: seq<T>, k: T, cmp: (T, T) -> int)
    requires ConsistentOn(cmp, s + [k])
    ensures Select(InsertionSorted(s, cmp), TiesWith(k, cmp)) == Select(s, TiesWith(k, cmp))
  {
    if s != [] {
      var init, last := s[..|s| - 1], s[|s| - 1];
      assert s == init + [last];
      ConsistentOnSubset(cmp, init + [k], s + [k]);
      InsertionSortedKeepsTies(init, k, cmp);
      var t := InsertionSorted(init, cmp);
      InsertionSortedPermutes(init, cmp);
      forall y | y in t + [last, k]
        ensures y in s + [k]
      {
        if y != last && y != k {
          assert y in multiset(t);
        }
      }
      ConsistentOnSubset(cmp, t + [last, k], s + [k]);
      InsertKeepsTies(t, last, k, cmp);
      SelectSnoc(t, last, TiesWith(k, cmp));
      SelectSnoc(init, last, TiesWith(k, cmp));
    }
  }

  /** A comparator that ties everything leaves the order as it is. */
  lemma {:induction false} InsertionSortedWithoutOrder<T>(s: seq<T>, cmp: (T, T) -> int)
    requires forall a, b :: a in s && b in s ==> cmp(a, b) == 0
    ensures InsertionSorted(s, cmp) == s
  {
    if s != [] {
      var init, last := s[..|s| - 1], s[|s| - 1];
      assert s == init + [last];
      InsertionSortedWithoutOrder(init, cmp);
      if init != [] {
        assert init[|init| - 1] in s;
      }
    }
  }

  /** Two sorted arrangements of the same elements end in elements that tie. */
  lemma SortedLastsTie<T>(r: seq<T>, r': seq<T>, cmp: (T, T) -> int)
    requires r != [] && multiset(r) == multiset(r')
    requires ConsistentOn(cmp, r)
    requires Sorted(r, cmp) && Sorted(r', cmp)
    ensures |r| == |r'|
    ensures cmp(r[|r| - 1], r'[|r'| - 1]) == 0 && cmp(r'[|r'| - 1], r[|r| - 1]) == 0
  {
    assert |r| == |multiset(r)| == |multiset(r')| == |r'|;
    var n := |r|;
    var last, last' := r[n - 1], r'[n - 1];
    assert last in multiset(r') && last' in multiset(r);
    assert last in r && last' in r;
    ConsistentReflexive(cmp, r, last);
    if last != last' {
      var i :| 0 <= i < n && r[i] == last';
      var i' :| 0 <= i' < n && r'[i'] == last;
      assert cmp(last', last) <= 0 && cmp(last, last') <= 0;
      assert Opposed(cmp, last, last') && Opposed(cmp, last', last);
    }
  }

  /** If moreover the elements tying with the last one keep their order, the last elements are equal. */
  lemma StableLastsEqual<T>(r: seq<T>, r': seq<T>, cmp: (T, T) -> int)
    requires r != [] && multiset(r) == multiset(r')
    requires ConsistentOn(cmp, r)
    requires Sorted(r, cmp) && Sorted(r', cmp)
    requires SameTies(r, r', r[|r| - 1], cmp)
    ensures |r| == |r'| && r[|r| - 1] == r'[|r'| - 1]
  {
    SortedLastsTie(r, r', cmp);
    var n := |r|;
    var last, last' := r[n - 1], r'[n - 1];
    ConsistentReflexive(cmp, r, last);
    var p := TiesWith(last, cmp);
    var s, s' := Select(r[..n - 1], p), Select(r'[..n - 1], p);
    assert p(last) && p(last');
    assert Select(r, p) == s + [last];
    assert Select(r', p) == s' + [last'];
    assert |s| == |s'|;
    assert (s + [last])[|s|] == last && (s' + [last'])[|s'|] == last';
  }

  /** Equal selections from sequences with the same last element stay equal without it. */
  lemma SelectDropLast<T>(r: seq<T>, r': seq<T>, p: T -> bool)
    requires r != [] && |r| == |r'| && r[|r| - 1] == r'[|r'| - 1]
    requires Select(r, p) == Select(r', p)
    ensures Select(r[..|r| - 1], p) == Select(r'[..|r'| - 1], p)
  {
    var n := |r|;
    var a, b, x := r[..n - 1], r'[..n - 1], r[n - 1];
    var e := if p(x) then [x] else [];
    var sa, sb := Select(a, p), Select(b, p);
    assert Select(r, p) == sa + e;
    assert Select(r', p) == sb + e;
    assert |sa| == |sb|;
    assert sa == (sa + e)[..|sa|];
  }

  lemma MultisetDropLast<T>(r: seq<T>, r': seq<T>)
    requires r != [] && |r| == |r'| && r[|r| - 1] == r'[|r'| - 1]
    requires multiset(r) == multiset(r')
    ensures multiset(r[..|r| - 1]) == multiset(r'[..|r'| - 1])
  {
    var n := |r|;
    assert r == r[..n - 1] + [r[n - 1]] && r' == r'[..n - 1] + [r[n - 1]];
    assert multiset(r) == multiset(r[..n - 1]) + multiset{r[n - 1]};
    assert multiset(r') == multiset(r'[..n - 1]) + multiset{r[n - 1]};
    assert multiset(r[..n - 1]) == multiset(r) - multiset{r[n - 1]};
    assert multiset(r'[..n - 1]) == multiset(r') - multiset{r[n - 1]};
  }

  lemma SortedPrefix<T>(s: seq<T>, n: nat, cmp: (T, T) -> int)
    requires n <= |s| && Sorted(s, cmp)
    ensures Sorted(s[..n], cmp)
  {
    forall i, j | 0 <= i < j < n
      ensures cmp(s[..n][i], s[..n][j]) <= 0
    {
      assert s[..n][i] == s[i] && s[..n][j] == s[j];
    }
  }

  /** Removing the common last element keeps every premise of `StableSortIsUnique`. */
  lemma StableStep<T>(r: seq<T>, r': seq<T>, cmp: (T, T) -> int)
    requires r != [] && multiset(r) == multiset(r')
    requires ConsistentOn(cmp, r)
    requires Sorted(r, cmp) && Sorted(r', cmp)
    requires forall k {:trigger SameTies(r, r', k, cmp)} :: k in r ==> SameTies(r, r', k, cmp)
    ensures |r| == |r'| && r[|r| - 1] == r'[|r'| - 1]
    ensures multiset(r[..|r| - 1]) == multiset(r'[..|r| - 1])
    ensures ConsistentOn(cmp, r[..|r| - 1])
    ensures Sorted(r[..|r| - 1], cmp) && Sorted(r'[..|r| - 1], cmp)
    ensures forall k {:trigger SameTies(r[..|r| - 1], r'[..|r| - 1], k, cmp)} ::
      k in r[..|r| - 1] ==> SameTies(r[..|r| - 1], r'[..|r| - 1], k, cmp)
  {
    var n := |r|;
    assert SameTies(r, r', r[n - 1], cmp);
    StableLastsEqual(r, r', cmp);
    var init, init' := r[..n - 1], r'[..n - 1];
    MultisetDropLast(r, r');
    forall k | k in init
      ensures SameTies(init, init', k, cmp)
    {
      assert k in r && SameTies(r, r', k, cmp);
      SelectDropLast(r, r', TiesWith(k, cmp));
    }
    ConsistentOnSubset(cmp, init, r);
    SortedPrefix(r, n - 1, cmp);
    SortedPrefix(r', n - 1, cmp);
  }

  /**
   * Any two sorted, stable arrangements of the same elements are equal: the order a
   * stable sort produces is determined by the comparator alone.
   */
  lemma {:induction false} StableSortIsUnique<T>(r: seq<T>, r': seq<T>, cmp: (T, T) -> int)
    requires multiset(r) == multiset(r')
    requires ConsistentOn(cmp, r)
    requires Sorted(r, cmp) && Sorted(r', cmp)
    requires forall k {:trigger SameTies(r, r', k, cmp)} :: k in r ==> SameTies(r, r', k, cmp)
    ensures r == r'
  {
    if r == [] {
      assert |r'| == |multiset(r')| == 0;
    } else {
      var n := |r|;
      StableStep(r, r', cmp);
      StableSortIsUnique(r[..n - 1], r'[..n - 1], cmp);
      assert r == r[..n - 1] + [r[n - 1]] && r' == r'[..n - 1] + [r'[n - 1]];
    }
  }

  /** So insertion sort is *the* stable sort: any sorted, stable permutation of `s` equals it. */
  lemma InsertionSortedIsTheStableSort<T>(s: seq<T>, r: seq<T>, cmp: (T, T) -> int)
    requires ConsistentOn(cmp, s)
    requires multiset(r) == multiset(s)
    requires Sorted(r, cmp)
    requires forall k {:trigger SameTies(r, s, k, cmp)} :: k in s ==> SameTies(r, s, k, cmp)
    ensures r == InsertionSorted(s, cmp)
  {
    var t := InsertionSorted(s, cmp);
    InsertionSortedIsSorted(s, cmp);
    InsertionSortedPermutes(s, cmp);
    forall y | y in r
      ensures y in s
    {
      assert y in multiset(s);
    }
    forall k | k in r
      ensures SameTies(r, t, k, cmp)
    {
      assert SameTies(r, s, k, cmp);
      ConsistentOnSubset(cmp, s + [k], s);
      InsertionSortedKeepsTies(s, k, cmp);
    }
    ConsistentOnSubset(cmp, r, s);
    StableSortIsUnique(r, t, cmp);
  }

  /** Where the shifting loop of `InsertInPlace` stops, `Insert` puts `x`. */
  lemma {:induction false} InsertSplit<T>(p: seq<T>, j: nat, x: T, cmp: (T, T) -> int)
    requires j <= |p|
    requires forall m :: j <= m < |p| ==> cmp(p[m], x) > 0
    requires j == 0 || cmp(p[j - 1], x) <= 0
    ensures Insert(p, x, cmp) == p[..j] + [x] + p[j..]
    decreases |p|
  {
    if |p| == j {
      assert p[..j] == p && p[j..] == [];
    } else {
      var init, last := p[..|p| - 1], p[|p| - 1];
      assert cmp(last, x) > 0;
      assert Insert(p, x, cmp) == Insert(init, x, cmp) + [last];
      assert forall m :: j <= m < |init| ==> init[m] == p[m];
      assert j > 0 ==> init[j - 1] == p[j - 1];
      InsertSplit(init, j, x, cmp);
      assert init[..j] == p[..j];
      assert init[j..] + [last] == p[j..];
    }
  }

  /** The inner loop of insertion sort: moves `a[i]` left into the sorted prefix `a[..i]`. */
  method InsertInPlace<T>(a: array<T>, i: nat, cmp: (T, T) -> int)
    requires i < a.Length
    modifies a
    ensures a[..i + 1] == Insert(old(a[..i]), old(a[i]), cmp)
    ensures a[i + 1..] == old(a[i + 1..])
  {
    ghost var p := a[..i];
    var x := a[i];
    var j := i;
    while j > 0 && cmp(a[j - 1], x) > 0
      invariant 0 <= j <= i
      invariant forall m :: 0 <= m < j ==> a[m] == p[m]
      invariant forall m :: j < m <= i ==> a[m] == p[m - 1]
      invariant forall m :: i < m < a.Length ==> a[m] == old(a[m])
      invariant forall m :: j <= m < i ==> cmp(p[m], x) > 0
    {
      a[j] := a[j - 1];
      j := j - 1;
    }
    a[j] := x;
    InsertSplit(p, j, x, cmp);
    assert a[..i + 1] == p[..j] + [x] + p[j..] by {
      forall m | 0 <= m <= i
        ensures a[..i + 1][m] == (p[..j] + [x] + p[j..])[m]
      {
        if m < j {
        } else if m == j {
        } else {
          assert (p[..j] + [x] + p[j..])[m] == p[m - 1];
        }
      }
    }
  }

  /** Sorts `a` in place by `cmp`, stably: `a.sort(cmp)`. */
  method SortInPlace<T>(a: array<T>, cmp: (T, T) -> int)
    modifies a
    ensures a[..] == InsertionSorted(old(a[..]), cmp)
  {
    ghost var s := a[..];
    var i := 0;
    while i < a.Length
      invariant 0 <= i <= a.Length
      invariant a[..i] == InsertionSorted(s[..i], cmp)
      invariant a[i..] == s[i..]
    {
      InsertInPlace(a, i, cmp);
      assert s[..i + 1][..i] == s[..i] && s[..i + 1][i] == s[i];
      i := i + 1;
    }
    assert s[..a.Length] == s;
  }

  /** `[...s].sort(cmp)`: a sorted copy; `s` itself, a value, is untouched. */
  method SortedCopy<T>(s: seq<T>, cmp: (T, T) -> int) returns (r: seq<T>)
    ensures r == InsertionSorted(s, cmp)
  {
    var a := new T[|s|](i requires 0 <= i < |s| => s[i]);
    assert a[..] == s;
    SortInPlace(a, cmp);
    r := a[..];
  }
}
