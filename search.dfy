/**
 * `searchService.search`: a case-insensitive match of the trimmed query against
 * the customer name and the phone number. The query is turned into a regular
 * expression after every metacharacter has been escaped, so the pattern only
 * ever stands for the query text itself. Case folding is ASCII `toLowerCase`.
 */
module Search {
  import opened Wrappers
  import opened JsText
  import opened Seqs
  import opened Records

  // ------------------------------------------------------------ the pattern

  /** The characters of the class `[.*+?^${}()|[\]\\]`: the ones the engine escapes. */
  predicate IsRegexMeta(c: char) {
    c == '.' || c == '*' || c == '+' || c == '?' || c == '^' || c == '$' || c == '{' || c == '}'
    || c == '(' || c == ')' || c == '|' || c == '[' || c == ']' || c == '\\'
  }

  /** `replace(/[.*+?^${}()|[\]\\]/g, '\\$&')`: a backslash in front of each metacharacter. */
  function Escape(q: string): string {
    if q == [] then []
    else (if IsRegexMeta(q[0]) then ['\\', q[0]] else [q[0]]) + Escape(q[1..])
  }

  /**
   * The text a pattern made only of literal atoms matches: an ordinary character
   * stands for itself and `\` followed by a metacharacter for that metacharacter.
   * Any other pattern (a class, a quantifier, an anchor, `\d`, ...) is `None`.
   */
  function LiteralOf(p: string): Option<string> {
    if p == [] then Some([])
    else if p[0] == '\\' then
      if |p| >= 2 && IsRegexMeta(p[1]) then
        match LiteralOf(p[2..])
        case Some(rest) => Some([p[1]] + rest)
        case None => None
      else None
    else if IsRegexMeta(p[0]) then None
    else
      match LiteralOf(p[1..])
      case Some(rest) => Some([p[0]] + rest)
      case None => None
  }

  /** The escaped query is a literal pattern that stands for exactly the query. */
  lemma {:induction false} EscapeIsLiteral(q: string)
    ensures LiteralOf(Escape(q)) == Some(q)
  {
    if q != [] {
      EscapeIsLiteral(q[1..]);
      var e := Escape(q);
      if IsRegexMeta(q[0]) {
        assert e[2..] == Escape(q[1..]);
      } else {
        assert e[1..] == Escape(q[1..]);
      }
      assert q == [q[0]] + q[1..];
    }
  }

  /** A query without metacharacters is its own pattern. */
  lemma {:induction false} EscapePlain(q: string)
    requires forall i :: 0 <= i < |q| ==> !IsRegexMeta(q[i])
    ensures Escape(q) == q
  {
    if q != [] {
      EscapePlain(q[1..]);
      assert q == [q[0]] + q[1..];
    }
  }

  // ------------------------------------------------------------ matching

  /** `s` holds `t` as a contiguous piece, found by trying each starting position in turn. */
  predicate Contains(s: string, t: string)
    decreases |s|
  {
    (|t| <= |s| && s[..|t|] == t) || (s != [] && Contains(s[1..], t))
  }

  /** `t` occurs in `s` at position `i`. */
  ghost predicate OccursAt(s: string, t: string, i: int) {
    0 <= i && i + |t| <= |s| && s[i..i + |t|] == t
  }

  /** `Contains` finds `t` exactly when it occurs at some position of `s`. */
  lemma {:induction false} ContainsIff(s: string, t: string)
    ensures Contains(s, t) <==> exists i :: OccursAt(s, t, i)
    decreases |s|
  {
    if |t| <= |s| && s[..|t|] == t {
      assert OccursAt(s, t, 0);
    }
    if s != [] {
      ContainsIff(s[1..], t);
      forall i | OccursAt(s[1..], t, i)
        ensures OccursAt(s, t, i + 1)
      {
        assert s[i + 1..i + 1 + |t|] == s[1..][i..i + |t|];
      }
      forall i | OccursAt(s, t, i) && i > 0
        ensures OccursAt(s[1..], t, i - 1)
      {
        assert s[1..][i - 1..i - 1 + |t|] == s[i..i + |t|];
      }
    }
    if exists i :: OccursAt(s, t, i) {
      var i :| OccursAt(s, t, i);
      assert i == 0 || OccursAt(s[1..], t, i - 1);
    }
  }

  /** `new RegExp(pattern, 'i').test(s)` for a literal pattern. */
  predicate RegexTest(pattern: string, s: string) {
    match LiteralOf(pattern)
    case Some(lit) => Contains(LowerAscii(s), LowerAscii(lit))
    case None => false
  }

  /** The search test of one record against a trimmed query, as the engine runs it. */
  predicate Hit(r: Record, q: string) {
    var pattern := Escape(q);
    RegexTest(pattern, r.customerName) || RegexTest(pattern, r.phoneNumber)
  }

  /** `s` mentions `q` ignoring case: the folded query occurs somewhere in the folded text. */
  ghost predicate Mentions(s: string, q: string) {
    exists i :: OccursAt(LowerAscii(s), LowerAscii(q), i)
  }

  /** The regular-expression test is exactly a literal, case-insensitive substring test on either field. */
  lemma HitIffMentions(r: Record, q: string)
    ensures Hit(r, q) <==> Mentions(r.customerName, q) || Mentions(r.phoneNumber, q)
  {
    EscapeIsLiteral(q);
    ContainsIff(LowerAscii(r.customerName), LowerAscii(q));
    ContainsIff(LowerAscii(r.phoneNumber), LowerAscii(q));
  }

  // ------------------------------------------------------------ the search

  /** The query is absent in effect: `!query || query.trim() === ''`. */
  predicate Blank(query: string) {
    Trim(query) == ""
  }

  /** The records a search keeps, in their input order. */
  function SearchResult(items: seq<Record>, query: string): seq<Record> {
    if Blank(query) then items
    else Select(items, (r: Record) => Hit(r, Trim(query)))
  }

  /**
   * `searchService.search(items, query)`: a blank query gives back the input;
   * otherwise the result keeps, in order, exactly the records whose name or phone
   * number mentions the trimmed query, read literally and ignoring case.
   */
  method Search(items: seq<Record>, query: string) returns (results: seq<Record>)
    ensures results == SearchResult(items, query)
    ensures Blank(query) ==> results == items
    ensures !Blank(query) ==> IsSubsequence(results, items)
    ensures !Blank(query) ==> forall r :: r in results <==>
      r in items && (Mentions(r.customerName, Trim(query)) || Mentions(r.phoneNumber, Trim(query)))
  {
    if Blank(query) {
      return items;
    }
    var q := Trim(query);
    results := [];
    var i := 0;
    while i < |items|
      invariant 0 <= i <= |items|
      invariant results == Select(items[..i], (r: Record) => Hit(r, q))
    {
      var item := items[i];
      SelectSnoc(items[..i], item, (r: Record) => Hit(r, q));
      assert items[..i + 1] == items[..i] + [item];
      if Hit(item, q) {
        results := results + [item];
      }
      i := i + 1;
    }
    assert items[..i] == items;
    SearchResultMeaning(items, query);
  }

  /** What a non-blank search keeps: an order-preserving subsequence of exactly the mentioning records. */
  lemma SearchResultMeaning(items: seq<Record>, query: string)
    ensures !Blank(query) ==> IsSubsequence(SearchResult(items, query), items)
    ensures !Blank(query) ==> forall r :: r in SearchResult(items, query) <==>
      r in items && (Mentions(r.customerName, Trim(query)) || Mentions(r.phoneNumber, Trim(query)))
  {
    if !Blank(query) {
      var q := Trim(query);
      SelectIsSubsequence(items, (r: Record) => Hit(r, q));
      SelectMembers(items, (r: Record) => Hit(r, q));
      forall r
        ensures Hit(r, q) <==> Mentions(r.customerName, q) || Mentions(r.phoneNumber, q)
      {
        HitIffMentions(r, q);
      }
    }
  }

  /** Searching the result again with the same query changes nothing. */
  lemma SearchIdempotent(items: seq<Record>, query: string)
    ensures SearchResult(SearchResult(items, query), query) == SearchResult(items, query)
  {
    if !Blank(query) {
      SelectIdempotent(items, (r: Record) => Hit(r, Trim(query)));
    }
  }
}
