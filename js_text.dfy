/**
 * The pieces of JavaScript's string and number semantics that the query engine
 * and its clients lean on: `String.prototype.trim`, `split(',')` and `join(',')`,
 * `parseInt` without a radix, the `isNaN` test of a query parameter, `String(n)`
 * for an integer, `toLowerCase` on ASCII and the `<` order on strings.
 */
module JsText {
  import opened Wrappers

  /** A JavaScript number as far as this model needs one: an integer, or NaN. */
  datatype Num = Int(value: int) | NaN

  /** A string that may be `undefined`/`null` is truthy when present and non-empty. */
  predicate Truthy(s: Option<string>) {
    s.Some? && s.value != ""
  }

  // ---------------------------------------------------------------- whitespace

  /** ECMAScript WhiteSpace and LineTerminator code points: what `trim` removes. */
  predicate IsSpace(c: char) {
    c == '\t' || c == '\n' || c == '\U{000B}' || c == '\U{000C}' || c == '\r' || c == ' '
    || c == '\U{00A0}' || c == '\U{1680}' || ('\U{2000}' <= c <= '\U{200A}')
    || c == '\U{2028}' || c == '\U{2029}' || c == '\U{202F}' || c == '\U{205F}'
    || c == '\U{3000}' || c == '\U{FEFF}'
  }

  predicate IsTrimmed(s: string) {
    s == [] || (!IsSpace(s[0]) && !IsSpace(s[|s| - 1]))
  }

  /** `trimStart`: the suffix left after dropping the leading whitespace. */
  function TrimStart(s: string): (r: string)
    ensures |r| <= |s|
    ensures r == s[|s| - |r|..]
    ensures forall i :: 0 <= i < |s| - |r| ==> IsSpace(s[i])
    ensures r == [] || !IsSpace(r[0])
  {
    if s != [] && IsSpace(s[0]) then TrimStart(s[1..]) else s
  }

  /** `trimEnd`: the prefix left after dropping the trailing whitespace. */
  function TrimEnd(s: string): (r: string)
    ensures |r| <= |s|
    ensures r == s[..|r|]
    ensures forall i :: |r| <= i < |s| ==> IsSpace(s[i])
    ensures r == [] || !IsSpace(r[|r| - 1])
  {
    if s != [] && IsSpace(s[|s| - 1]) then TrimEnd(s[..|s| - 1]) else s
  }

  /**
   * `trim`: both ends. The result is the run of `s` after its leading whitespace with only
   * whitespace after it, and is itself trimmed, so exactly the whitespace at the two ends
   * goes; a trimmed string is left as it is.
   */
  function Trim(s: string): (r: string)
    ensures IsTrimmed(r)
    ensures |r| <= |s|
    ensures IsTrimmed(s) ==> r == s
    ensures EdgesStripped(s, |s| - |TrimStart(s)|, r)
  {
    var t := TrimStart(s);
    var r := TrimEnd(t);
    assert r != [] ==> r[0] == t[0];
    BothEndsStripped(s, t, r);
    r
  }

  /** `r` is `s` from index `i`, with only whitespace before `i` and after `r`. */
  predicate EdgesStripped(s: string, i: int, r: string) {
    0 <= i && i + |r| <= |s| && r == s[i..i + |r|] &&
    (forall k :: 0 <= k < i ==> IsSpace(s[k])) &&
    (forall k :: i + |r| <= k < |s| ==> IsSpace(s[k]))
  }

  /** `trimEnd` after `trimStart` strips exactly the whitespace at both ends. */
  lemma BothEndsStripped(s: string, t: string, u: string)
    requires t == TrimStart(s) && u == TrimEnd(t)
    ensures EdgesStripped(s, |s| - |t|, u)
  {
    PrefixOfSuffix(s, t, u, IsSpace);
  }

  /** A prefix `u` of a suffix `t` of `s` sits in `s` where `t` starts, and what `p` holds of the rest of `t` it holds of the rest of `s`. */
  lemma PrefixOfSuffix<T>(s: seq<T>, t: seq<T>, u: seq<T>, p: T -> bool)
    requires |t| <= |s| && t == s[|s| - |t|..]
    requires |u| <= |t| && u == t[..|u|]
    requires forall j :: |u| <= j < |t| ==> p(t[j])
    ensures var i := |s| - |t|;
      i + |u| <= |s| && u == s[i..i + |u|] &&
      (forall k :: i + |u| <= k < |s| ==> p(s[k]))
  {
    var i := |s| - |t|;
    forall k | i + |u| <= k < |s|
      ensures p(s[k])
    {
      assert s[k] == t[k - i];
    }
  }

  lemma TrimIdempotent(s: string)
    ensures Trim(Trim(s)) == Trim(s)
  {
  }

  // ------------------------------------------------------------- split / join

  /** `s.split(sep)` for a one-character separator: never empty, and no piece holds `sep`. */
  function Split(s: string, sep: char): (r: seq<string>)
    ensures |r| >= 1
    ensures forall p :: p in r ==> sep !in p
  {
    if s == [] then [""]
    else
      var rest := Split(s[1..], sep);
      if s[0] == sep then [""] + rest else [[s[0]] + rest[0]] + rest[1..]
  }

  /** `parts.join(sep)`. */
  function Join(parts: seq<string>, sep: char): string {
    if |parts| == 0 then ""
    else if |parts| == 1 then parts[0]
    else parts[0] + [sep] + Join(parts[1..], sep)
  }

  /** Joining the pieces of a split gives the string back. */
  lemma {:induction false} JoinSplit(s: string, sep: char)
    ensures Join(Split(s, sep), sep) == s
  {
    if s != [] {
      var rest := Split(s[1..], sep);
      JoinSplit(s[1..], sep);
      if s[0] == sep {
        assert Split(s, sep) == [""] + rest;
        assert ([""] + rest)[1..] == rest;
      } else {
        var parts := [[s[0]] + rest[0]] + rest[1..];
        assert Split(s, sep) == parts;
        if |rest| == 1 {
          assert Join(rest, sep) == rest[0];
        } else {
          assert parts[1..] == rest[1..];
          assert Join(rest, sep) == rest[0] + [sep] + Join(rest[1..], sep);
        }
      }
    }
  }

  /** Splitting a prefix free of the separator only lengthens the first piece. */
  lemma {:induction false} SplitPrefix(a: string, rest: string, sep: char)
    requires sep !in a
    ensures Split(a + rest, sep) == [a + Split(rest, sep)[0]] + Split(rest, sep)[1..]
  {
    if a != [] {
      assert (a + rest)[1..] == a[1..] + rest;
      SplitPrefix(a[1..], rest, sep);
      assert [a[0]] + (a[1..] + Split(rest, sep)[0]) == a + Split(rest, sep)[0];
    } else {
      var r := Split(rest, sep);
      assert a + rest == rest && a + r[0] == r[0];
      assert r == [r[0]] + r[1..];
    }
  }

  /** Splitting a join of separator-free pieces gives the pieces back: `join` then `split` round-trips. */
  lemma {:induction false} SplitJoin(parts: seq<string>, sep: char)
    requires |parts| >= 1
    requires forall p :: p in parts ==> sep !in p
    ensures Split(Join(parts, sep), sep) == parts
  {
    if |parts| == 1 {
      SplitPrefix(parts[0], "", sep);
      assert parts[0] + "" == parts[0];
      assert Split("", sep) == [""] && [""][1..] == [];
    } else {
      var tail := Join(parts[1..], sep);
      SplitJoin(parts[1..], sep);
      assert parts[0] + [sep] + tail == parts[0] + ([sep] + tail);
      SplitPrefix(parts[0], [sep] + tail, sep);
      assert ([sep] + tail)[1..] == tail;
      assert Split([sep] + tail, sep) == [""] + parts[1..];
      assert parts[0] + "" == parts[0];
      assert [parts[0]] + parts[1..] == parts;
    }
  }

  /** `parts.map(t => t.trim())`. */
  function TrimEach(parts: seq<string>): (r: seq<string>)
    ensures |r| == |parts|
    ensures forall i :: 0 <= i < |parts| ==> r[i] == Trim(parts[i])
  {
    if parts == [] then [] else [Trim(parts[0])] + TrimEach(parts[1..])
  }

  /** Trimming pieces that are already trimmed leaves them as they are. */
  lemma TrimEachTrimmed(parts: seq<string>)
    requires forall p :: p in parts ==> IsTrimmed(p)
    ensures TrimEach(parts) == parts
  {
  }

  // ------------------------------------------------------------------ digits

  /** The value of `c` as a digit of radix up to 36, or -1. */
  function DigitValue(c: char): (d: int)
    ensures -1 <= d < 36
  {
    if '0' <= c <= '9' then c as int - '0' as int
    else if 'a' <= c <= 'z' then c as int - 'a' as int + 10
    else if 'A' <= c <= 'Z' then c as int - 'A' as int + 10
    else -1
  }

  predicate IsDigit(c: char, radix: nat) {
    0 <= DigitValue(c) < radix
  }

  predicate AllDigits(s: string, radix: nat) {
    forall i :: 0 <= i < |s| ==> IsDigit(s[i], radix)
  }

  /** The longest prefix of `s` made of digits of `radix`. */
  function DigitPrefix(s: string, radix: nat): (r: string)
    ensures |r| <= |s|
    ensures r == s[..|r|]
    ensures AllDigits(r, radix)
    ensures |r| == |s| || !IsDigit(s[|r|], radix)
  {
    if s != [] && IsDigit(s[0], radix) then [s[0]] + DigitPrefix(s[1..], radix) else ""
  }

  /** The number a digit string denotes, most significant digit first. */
  function DigitsValue(ds: string, radix: nat): nat
    requires AllDigits(ds, radix)
  {
    if ds == [] then 0
    else DigitsValue(ds[..|ds| - 1], radix) * radix + DigitValue(ds[|ds| - 1])
  }

  /**
   * `parseInt(s)` with no radix: skip leading whitespace, take one optional sign,
   * read hexadecimal after a `0x`/`0X` prefix and decimal otherwise, stop at the
   * first character that is not a digit; NaN when no digit was read.
   */
  function ParseInt(s: string): Num {
    var t := TrimStart(s);
    if |t| > 0 && t[0] == '-' then Negate(ParseUnsigned(t[1..]))
    else if |t| > 0 && t[0] == '+' then ParseUnsigned(t[1..])
    else ParseUnsigned(t)
  }

  /** The unsigned part of `parseInt`: hexadecimal after `0x`/`0X`, decimal otherwise. */
  function ParseUnsigned(u: string): Num {
    if |u| >= 2 && u[0] == '0' && (u[1] == 'x' || u[1] == 'X') then ParseDigits(u[2..], 16)
    else ParseDigits(u, 10)
  }

  /** The value of the longest digit prefix of `u`, or NaN when there is none. */
  function ParseDigits(u: string, radix: nat): Num {
    var ds := DigitPrefix(u, radix);
    if ds == [] then NaN else Int(DigitsValue(ds, radix))
  }

  /** Unary minus on a JavaScript number (NaN stays NaN). */
  function Negate(x: Num): Num {
    match x
    case Int(v) => Int(-v)
    case NaN => NaN
  }


  /** `parseInt(s) || d`: both NaN and zero are falsy and give way to the default. */
  function IntOr(n: Num, d: int): (r: int)
    ensures n.NaN? ==> r == d
    ensures n.Int? && n.value != 0 ==> r == n.value
  {
    match n
    case NaN => d
    case Int(v) => if v == 0 then d else v
  }

  function DigitChar(d: nat): (c: char)
    requires d < 10
    ensures IsDigit(c, 10) && DigitValue(c) == d
  {
    ('0' as int + d) as char
  }

  /** The decimal digits of `n`, without leading zeros. */
  function DecimalDigits(n: nat): (r: string)
    ensures |r| >= 1
    ensures AllDigits(r, 10)
    ensures r[0] == '0' ==> n == 0
    ensures DigitsValue(r, 10) == n
  {
    if n < 10 then [DigitChar(n)]
    else
      var r := DecimalDigits(n / 10) + [DigitChar(n % 10)];
      assert r[..|r| - 1] == DecimalDigits(n / 10);
      r
  }

  /** `String(n)` for an integer `n` (the form `URLSearchParams.append` writes). */
  function DecimalString(n: int): string {
    if n < 0 then "-" + DecimalDigits(-n) else DecimalDigits(n)
  }

  lemma {:induction false} DigitPrefixOfDigits(s: string, radix: nat)
    requires AllDigits(s, radix)
    ensures DigitPrefix(s, radix) == s
  {
    if s != [] {
      DigitPrefixOfDigits(s[1..], radix);
    }
  }

  /** `parseInt('')` is NaN. */
  lemma ParseIntEmpty()
    ensures ParseInt("") == NaN
  {
    assert TrimStart("") == "";
  }

  /** `parseInt(String(n)) == n`: what a client writes as a number, the server reads back. */
  lemma ParseIntDecimalString(n: int)
    ensures ParseInt(DecimalString(n)) == Int(n)
  {
    var ds := DecimalDigits(if n < 0 then -n else n);
    ParseUnsignedDigits(ds);
    NoSpaceBeforeDigits(ds);
    if n < 0 {
      var s := "-" + ds;
      assert DecimalString(n) == s;
      TrimStartUnchanged(s);
      assert s[0] == '-' && s[1..] == ds;
      assert ParseInt(s) == Negate(ParseUnsigned(ds));
    } else {
      assert DecimalString(n) == ds;
      TrimStartUnchanged(ds);
      assert ParseInt(ds) == ParseUnsigned(ds);
    }
  }

  lemma TrimStartUnchanged(s: string)
    requires s == [] || !IsSpace(s[0])
    ensures TrimStart(s) == s
  {
  }


  lemma ParseUnsignedDigits(ds: string)
    requires ds != [] && AllDigits(ds, 10)
    ensures ParseUnsigned(ds) == Int(DigitsValue(ds, 10))
  {
    DigitPrefixOfDigits(ds, 10);
    assert IsDigit(ds[0], 10);
    if |ds| >= 2 {
      assert IsDigit(ds[1], 10);
    }
  }

  lemma NoSpaceBeforeDigits(ds: string)
    requires ds != [] && AllDigits(ds, 10)
    ensures !IsSpace(ds[0]) && ds[0] != '-' && ds[0] != '+'
  {
    assert IsDigit(ds[0], 10);
  }




  // --------------------------------------------------------- ToNumber / isNaN

  /** The first index of a character of `cs` in `s`, or `|s|`. */
  function IndexOfAny(s: string, cs: set<char>): (k: nat)
    ensures k <= |s|
    ensures k < |s| ==> s[k] in cs
    ensures forall i :: 0 <= i < k ==> s[i] !in cs
  {
    if s == [] then 0
    else if s[0] in cs then 0
    else 1 + IndexOfAny(s[1..], cs)
  }

  /** Digits with at most one decimal point and at least one digit. */
  predicate IsMantissa(m: string) {
    var k := IndexOfAny(m, {'.'});
    if k == |m| then |m| > 0 && AllDigits(m, 10)
    else |m| > 1 && AllDigits(m[..k], 10) && AllDigits(m[k + 1..], 10)
  }

  predicate IsSignedInteger(e: string) {
    var d := if |e| > 0 && (e[0] == '+' || e[0] == '-') then e[1..] else e;
    |d| > 0 && AllDigits(d, 10)
  }

  predicate IsUnsignedDecimal(u: string) {
    u == "Infinity" ||
    var e := IndexOfAny(u, {'e', 'E'});
    if e == |u| then IsMantissa(u) else IsMantissa(u[..e]) && IsSignedInteger(u[e + 1..])
  }

  predicate IsNonDecimalInteger(t: string) {
    |t| >= 3 && t[0] == '0' &&
    ((t[1] in {'x', 'X'} && AllDigits(t[2..], 16)) ||
     (t[1] in {'o', 'O'} && AllDigits(t[2..], 8)) ||
     (t[1] in {'b', 'B'} && AllDigits(t[2..], 2)))
  }

  predicate IsNumericLiteral(t: string) {
    IsNonDecimalInteger(t) ||
    IsUnsignedDecimal(if |t| > 0 && (t[0] == '+' || t[0] == '-') then t[1..] else t)
  }

  /**
   * `!isNaN(s)` for a string: `Number(s)` accepts a blank string (as 0) and one
   * numeric literal between optional whitespace, and is NaN for everything else.
   */
  predicate IsNumericString(s: string) {
    var t := Trim(s);
    t == "" || IsNumericLiteral(t)
  }

  /** The decimal form of an integer is a number: `isNaN(String(n))` is false. */
  lemma DecimalStringIsNumeric(n: int)
    ensures IsNumericString(DecimalString(n))
  {
    var ds := DecimalDigits(if n < 0 then -n else n);
    var s := DecimalString(n);
    assert IsDigit(s[|s| - 1], 10);
    assert IsTrimmed(s);
    DigitsAreUnsignedDecimal(ds);
    if n < 0 {
      assert s[1..] == ds;
    }
    assert IsNumericLiteral(s);
  }

  lemma {:induction false} IndexOfAnyAbsent(s: string, cs: set<char>)
    requires forall i :: 0 <= i < |s| ==> s[i] !in cs
    ensures IndexOfAny(s, cs) == |s|
  {
    if s != [] {
      IndexOfAnyAbsent(s[1..], cs);
    }
  }

  lemma DigitsAreUnsignedDecimal(ds: string)
    requires |ds| > 0 && AllDigits(ds, 10)
    ensures IsUnsignedDecimal(ds)
  {
    IndexOfAnyAbsent(ds, {'e', 'E'});
    IndexOfAnyAbsent(ds, {'.'});
  }

  // ------------------------------------------------------- case and ordering

  /** `toLowerCase` on one character, for the ASCII letters. */
  function LowerChar(c: char): char {
    if 'A' <= c <= 'Z' then (c as int + 32) as char else c
  }

  /** `toLowerCase` on the ASCII letters (other characters are left as they are). */
  function LowerAscii(s: string): (r: string)
    ensures |r| == |s|
    ensures forall i :: 0 <= i < |s| ==> r[i] == LowerChar(s[i])
  {
    if s == [] then "" else [LowerChar(s[0])] + LowerAscii(s[1..])
  }

  /** Folding a given string character by character (this keeps the verifier from unrolling it). */
  lemma LowerAsciiIs(s: string, t: string)
    requires |s| == |t| && forall i :: 0 <= i < |s| ==> LowerChar(s[i]) == t[i]
    ensures LowerAscii(s) == t
  {
  }

  lemma LowerAsciiIdempotent(s: string)
    ensures LowerAscii(LowerAscii(s)) == LowerAscii(s)
  {
  }

  /** JavaScript's `a < b` on strings: lexicographic by character. */
  predicate Less(a: string, b: string) {
    if a == [] then b != []
    else b != [] && (a[0] < b[0] || (a[0] == b[0] && Less(a[1..], b[1..])))
  }

  lemma {:induction false} LessIrreflexive(a: string)
    ensures !Less(a, a)
  {
    if a != [] {
      LessIrreflexive(a[1..]);
    }
  }

  lemma {:induction false} LessTransitive(a: string, b: string, c: string)
    requires Less(a, b) && Less(b, c)
    ensures Less(a, c)
  {
    if a != [] && a[0] == b[0] && b[0] == c[0] {
      LessTransitive(a[1..], b[1..], c[1..]);
    }
  }

  lemma {:induction false} LessTotal(a: string, b: string)
    requires a != b
    ensures Less(a, b) || Less(b, a)
  {
    if a != [] && b != [] && a[0] == b[0] {
      assert a[1..] != b[1..] by {
        assert a == [a[0]] + a[1..] && b == [b[0]] + b[1..];
      }
      LessTotal(a[1..], b[1..]);
    }
  }

  lemma {:induction false} LessAsymmetric(a: string, b: string)
    requires Less(a, b)
    ensures !Less(b, a)
  {
    if Less(b, a) {
      LessTransitive(a, b, a);
      LessIrreflexive(a);
    }
  }

  /** The comparison `Array.prototype.sort()` uses when given no comparator. */
  function CompareStrings(a: string, b: string): (r: int)
    ensures r == 0 <==> a == b
    ensures r < 0 <==> Less(a, b)
    ensures r > 0 <==> Less(b, a)
  {
    if a == b then (LessIrreflexive(a); 0)
    else if Less(a, b) then (LessAsymmetric(a, b); -1)
    else (LessTotal(a, b); 1)
  }
}
