/** Order-preserving selection from a sequence: what a `for … if (…) results.push(item)` loop builds. */
module Seqs {

  /** `a` can be obtained from `b` by deleting elements: an order-preserving subsequence. */
  predicate IsSubsequence<T(==)>(a: seq<T>, b: seq<T>) {
    a == [] ||
    (b != [] && if a[0] == b[0] then IsSubsequence(a[1..], b[1..]) else IsSubsequence(a, b[1..]))
  }

  /** The elements of `s` that satisfy `p`, in their original order, duplicates kept. */
  function Select<T>(s: seq<T>, p: T -> bool): seq<T> {
    if s == [] then []
    else Select(s[..|s| - 1], p) + (if p(s[|s| - 1]) then [s[|s| - 1]] else [])
  }

  /** The selection holds exactly the elements of `s` that satisfy `p`, and is no longer than `s`. */
  lemma {:induction false} SelectMembers<T>(s: seq<T>, p: T -> bool)
    ensures |Select(s, p)| <= |s|
    ensures forall x :: x in Select(s, p) ==> x in s && p(x)
    ensures forall x :: x in s && p(x) ==> x in Select(s, p)
  {
    if s != [] {
      SelectMembers(s[..|s| - 1], p);
      assert s == s[..|s| - 1] + [s[|s| - 1]];
    }
  }

  /** One more element at the end adds it to the selection exactly when it satisfies `p`. */
  lemma SelectSnoc<T>(s: seq<T>, x: T, p: T -> bool)
    ensures Select(s + [x], p) == Select(s, p) + (if p(x) then [x] else [])
  {
    assert (s + [x])[..|s|] == s;
  }

  /** Selecting from a concatenation selects from each part. */
  lemma {:induction false} SelectAppend<T>(a: seq<T>, b: seq<T>, p: T -> bool)
    ensures Select(a + b, p) == Select(a, p) + Select(b, p)
  {
    if b == [] {
      assert a + b == a;
    } else {
      var init, last := b[..|b| - 1], b[|b| - 1];
      assert b == init + [last];
      assert a + b == (a + init) + [last];
      SelectAppend(a, init, p);
      SelectSnoc(a + init, last, p);
    }
  }

  /** The first element is selected exactly when it satisfies `p`. */
  lemma SelectCons<T>(x: T, s: seq<T>, p: T -> bool)
    ensures Select([x] + s, p) == (if p(x) then [x] else []) + Select(s, p)
  {
    SelectAppend([x], s, p);
    assert Select([x], p) == Select([], p) + (if p(x) then [x] else []) by {
      assert [x] == [] + [x];
      SelectSnoc([], x, p);
    }
  }

  /** The selection is an order-preserving subsequence of the input. */
  lemma {:induction false} SelectIsSubsequence<T>(s: seq<T>, p: T -> bool)
    ensures IsSubsequence(Select(s, p), s)
  {
    if s != [] {
      SelectIsSubsequence(s[1..], p);
      assert s == [s[0]] + s[1..];
      SelectCons(s[0], s[1..], p);
      var rest := Select(s[1..], p);
      if p(s[0]) {
        assert ([s[0]] + rest)[1..] == rest;
      } else {
        assert Select(s, p) == rest;
        if rest != [] {
          SkipHead(rest, s);
        }
      }
    }
  }

  /** A subsequence of the tail is a subsequence of the whole. */
  lemma {:induction false} SkipHead<T>(a: seq<T>, b: seq<T>)
    requires b != [] && IsSubsequence(a, b[1..])
    ensures IsSubsequence(a, b)
    decreases |b|, 1
  {
    if a != [] && a[0] == b[0] {
      DropHead(a, b[1..]);
    }
  }

  /** Dropping the first element of a subsequence keeps it a subsequence. */
  lemma {:induction false} DropHead<T>(a: seq<T>, b: seq<T>)
    requires a != [] && IsSubsequence(a, b)
    ensures IsSubsequence(a[1..], b)
    decreases |b|, 2
  {
    if a[0] == b[0] {
      if a[1..] != [] {
        SkipHead(a[1..], b);
      }
    } else {
      DropHead(a, b[1..]);
      if a[1..] != [] {
        SkipHead(a[1..], b);
      }
    }
  }

  /** When every element satisfies `p`, selection is the identity. */
  lemma {:induction false} SelectAll<T>(s: seq<T>, p: T -> bool)
    requires forall x :: x in s ==> p(x)
    ensures Select(s, p) == s
  {
    if s != [] {
      SelectAll(s[..|s| - 1], p);
      assert s[..|s| - 1] + [s[|s| - 1]] == s;
    }
  }

  /** Selecting twice with the same predicate changes nothing more. */
  lemma SelectIdempotent<T>(s: seq<T>, p: T -> bool)
    ensures Select(Select(s, p), p) == Select(s, p)
  {
    SelectMembers(s, p);
    SelectAll(Select(s, p), p);
  }

  /** Selection never adds copies: every element occurs in it at most as often as in the input. */
  lemma {:induction false} SelectSubMultiset<T>(s: seq<T>, p: T -> bool)
    ensures multiset(Select(s, p)) <= multiset(s)
  {
    if s != [] {
      SelectSubMultiset(s[..|s| - 1], p);
      assert s == s[..|s| - 1] + [s[|s| - 1]];
    }
  }

  /** The selection holds each element that satisfies `p` as often as `s` does, and no other. */
  lemma {:induction false} SelectCounts<T>(s: seq<T>, p: T -> bool)
    ensures forall x :: multiset(Select(s, p))[x] == if p(x) then multiset(s)[x] else 0
  {
    if s != [] {
      var init, last := s[..|s| - 1], s[|s| - 1];
      SelectCounts(init, p);
      assert s == init + [last];
    }
  }

  /** The elements that satisfy both predicates. */
  function Both<T>(p: T -> bool, q: T -> bool): T -> bool {
    x => p(x) && q(x)
  }

  /** Two predicates that agree on the elements of `s` select the same elements. */
  lemma {:induction false} SelectAgreeing<T>(s: seq<T>, p: T -> bool, q: T -> bool)
    requires forall x :: x in s ==> p(x) == q(x)
    ensures Select(s, p) == Select(s, q)
  {
    if s != [] {
      SelectAgreeing(s[..|s| - 1], p, q);
      assert s[|s| - 1] in s;
    }
  }

  /** Selecting with `q` from a selection with `p` selects the elements satisfying both. */
  lemma {:induction false} SelectSelect<T>(s: seq<T>, p: T -> bool, q: T -> bool)
    ensures Select(Select(s, p), q) == Select(s, Both(p, q))
  {
    if s != [] {
      var init, last := s[..|s| - 1], s[|s| - 1];
      SelectSelect(init, p, q);
      assert Both(p, q)(last) == (p(last) && q(last));
      if p(last) {
        SelectSnoc(Select(init, p), last, q);
      } else {
        assert Select(s, p) == Select(init, p);
      }
    }
  }

  /** Two selections applied one after the other give the same result in either order. */
  lemma SelectCommutes<T>(s: seq<T>, p: T -> bool, q: T -> bool)
    ensures Select(Select(s, p), q) == Select(Select(s, q), p)
  {
    SelectSelect(s, p, q);
    SelectSelect(s, q, p);
    SelectAgreeing(s, Both(p, q), Both(q, p));
  }
}
