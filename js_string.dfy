/**
 * The JavaScript string built-ins the core relies on: `trim` and the regular
 * expression class `\s`, `toLowerCase`, `startsWith`, `split` on one
 * character, `replace` with a string pattern, the default order of
 * `Array.prototype.sort` on strings, and the decimal text of numbers.
 */
module JsString {
  import opened Wrappers

  /** ECMAScript WhiteSpace and LineTerminator code points: what `trim` removes and `\s` matches. */
  predicate IsSpace(c: char) {
    var k := c as int;
    k == 0x09 || k == 0x0A || k == 0x0B || k == 0x0C || k == 0x0D || k == 0x20 ||
    k == 0xA0 || k == 0x1680 || (0x2000 <= k <= 0x200A) || k == 0x2028 || k == 0x2029 ||
    k == 0x202F || k == 0x205F || k == 0x3000 || k == 0xFEFF
  }

  predicate AllSpace(s: string) {
    forall i :: 0 <= i < |s| ==> IsSpace(s[i])
  }

  // ---------------------------------------------------------------- trim

  function TrimLeft(s: string): (r: string)
    ensures |r| <= |s| && r == s[|s| - |r|..]
    ensures r == [] || !IsSpace(r[0])
    ensures AllSpace(s[..|s| - |r|])
  {
    if s != [] && IsSpace(s[0]) then
      var r := TrimLeft(s[1..]);
      assert s[..|s| - |r|] == [s[0]] + s[1..][..|s| - 1 - |r|];
      r
    else s
  }

  function TrimRight(s: string): (r: string)
    ensures |r| <= |s| && r == s[..|r|]
    ensures r == [] || !IsSpace(r[|r| - 1])
    ensures AllSpace(s[|r|..])
  {
    if s != [] && IsSpace(s[|s| - 1]) then
      var r := TrimRight(s[..|s| - 1]);
      assert s[|r|..] == s[..|s| - 1][|r|..] + [s[|s| - 1]];
      r
    else s
  }

  /** Text that neither starts nor ends with white space. */
  predicate Trimmed(s: string) {
    s == [] || (!IsSpace(s[0]) && !IsSpace(s[|s| - 1]))
  }

  /** `String.prototype.trim`: the longest slice of `s` that neither starts nor ends with white space. */
  function Trim(s: string): (r: string)
    ensures |r| <= |s|
    ensures Trimmed(r)
  {
    TrimRight(TrimLeft(s))
  }

  /** The trimmed text is a slice of the input with only white space cut away on either side. */
  lemma TrimIsSlice(s: string) returns (a: nat)
    ensures a + |Trim(s)| <= |s| && Trim(s) == s[a..a + |Trim(s)|]
    ensures AllSpace(s[..a]) && AllSpace(s[a + |Trim(s)|..])
  {
    var l := TrimLeft(s);
    var r := TrimRight(l);
    a := |s| - |l|;
    assert l == s[a..];
    assert r == l[..|r|];
    assert s[a + |r|..] == l[|r|..];
  }

  lemma {:induction false} TrimLeftOfSpaces(s: string)
    requires AllSpace(s)
    ensures TrimLeft(s) == []
  {
    if s != [] {
      TrimLeftOfSpaces(s[1..]);
    }
  }

  /** The trimmed text is empty exactly when every character is white space. */
  lemma TrimEmptyIff(s: string)
    ensures Trim(s) == [] <==> AllSpace(s)
  {
    if AllSpace(s) {
      TrimLeftOfSpaces(s);
    } else {
      var i :| 0 <= i < |s| && !IsSpace(s[i]);
      var l := TrimLeft(s);
      assert i >= |s| - |l|;
      assert l[i - (|s| - |l|)] == s[i];
    }
  }

  /** Text that neither starts nor ends with white space is its own trim. */
  lemma TrimOfTrimmed(s: string)
    requires Trimmed(s)
    ensures Trim(s) == s
  {
  }

  /** `trim` is idempotent. */
  lemma TrimIdempotent(s: string)
    ensures Trim(Trim(s)) == Trim(s)
  {
    TrimOfTrimmed(Trim(s));
  }

  // ---------------------------------------------------------------- case, prefix

  function LowerChar(c: char): char {
    if 'A' <= c <= 'Z' then (c as int + 32) as char else c
  }

  /** `toLowerCase` on the ASCII letters. */
  function ToLower(s: string): (r: string)
  {
    seq(|s|, i requires 0 <= i < |s| => LowerChar(s[i]))
  }

  predicate StartsWith(s: string, prefix: string) {
    |prefix| <= |s| && s[..|prefix|] == prefix
  }

  // ---------------------------------------------------------------- split on one character

  function IndexOfChar(s: string, c: char): (k: nat)
    requires c in s
    ensures k < |s| && s[k] == c && c !in s[..k]
  {
    if s[0] == c then 0 else IndexOfChar(s[1..], c) + 1
  }

  function Join(parts: seq<string>, sep: char): string
    requires |parts| >= 1
  {
    if |parts| == 1 then parts[0] else parts[0] + [sep] + Join(parts[1..], sep)
  }

  /** `s.split(sep)` for a one-character separator: the maximal pieces between separators. */
  function Split(s: string, sep: char): (parts: seq<string>)
    ensures |parts| >= 1
    ensures forall i :: 0 <= i < |parts| ==> sep !in parts[i]
    ensures Join(parts, sep) == s
    decreases |s|
  {
    if sep !in s then [s]
    else
      var k := IndexOfChar(s, sep);
      var rest := Split(s[k + 1..], sep);
      assert s == s[..k] + [sep] + s[k + 1..];
      [s[..k]] + rest
  }

  lemma {:induction false} SplitWithout(s: string, sep: char)
    requires sep !in s
    ensures Split(s, sep) == [s]
  {
  }

  /**
   * The second piece of a split is the text after the first separator, up to
   * the next separator or the end.
   */
  lemma {:induction false} SplitSecond(head: string, field: string, rest: string, sep: char)
    requires sep !in head && sep !in field
    requires rest == [] || rest[0] == sep
    ensures |Split(head + [sep] + field + rest, sep)| >= 2
    ensures Split(head + [sep] + field + rest, sep)[1] == field
  {
    var s := head + [sep] + field + rest;
    assert s[|head|] == sep;
    var k := IndexOfChar(s, sep);
    assert k == |head|;
    var tail := s[k + 1..];
    assert s == head + [sep] + (field + rest);
    assert tail == field + rest;
    if sep in tail {
      var j := IndexOfChar(tail, sep);
      assert tail[..|field|] == field;
      assert rest != [] && tail[|field|] == sep;
      assert j == |field|;
      assert tail[..j] == field;
    } else {
      assert rest == [];
      SplitWithout(tail, sep);
    }
  }

  // ---------------------------------------------------------------- replace with a string pattern

  predicate MatchesAt(s: string, pat: string, k: nat) {
    k + |pat| <= |s| && s[k..k + |pat|] == pat
  }

  function IndexOfFrom(s: string, pat: string, from: nat): (r: Option<nat>)
    requires from <= |s|
    ensures r.Some? ==> from <= r.value && MatchesAt(s, pat, r.value) &&
                        forall j :: from <= j < r.value ==> !MatchesAt(s, pat, j)
    ensures r.None? ==> forall j :: from <= j <= |s| ==> !MatchesAt(s, pat, j)
    decreases |s| - from
  {
    if MatchesAt(s, pat, from) then Some(from)
    else if from == |s| then None
    else IndexOfFrom(s, pat, from + 1)
  }

  /** `s.indexOf(pat)`: the first position where `pat` occurs, if any. */
  function IndexOf(s: string, pat: string): (r: Option<nat>)
    ensures r.Some? ==> MatchesAt(s, pat, r.value) && forall j :: 0 <= j < r.value ==> !MatchesAt(s, pat, j)
    ensures r.None? ==> forall j :: 0 <= j <= |s| ==> !MatchesAt(s, pat, j)
  {
    IndexOfFrom(s, pat, 0)
  }

  /**
   * `s.replace(pat, rep)` with a string pattern: only the first occurrence is
   * replaced; `$` patterns in `rep` are not interpreted.
   */
  function ReplaceFirst(s: string, pat: string, rep: string): string {
    match IndexOf(s, pat)
    case None => s
    case Some(k) => s[..k] + rep + s[k + |pat|..]
  }

  /** With no occurrence of the pattern the text comes back unchanged. */
  lemma ReplaceAbsent(s: string, pat: string, rep: string)
    requires forall j :: 0 <= j <= |s| ==> !MatchesAt(s, pat, j)
    ensures ReplaceFirst(s, pat, rep) == s
  {
  }

  /**
   * When `pre` holds no occurrence of `pat` that starts inside it, the first
   * occurrence of `pat` in `pre + pat + post` is the one after `pre`: it alone
   * is replaced and `post` (with any later occurrences) stays as it was.
   */
  lemma ReplaceFirstOccurrence(pre: string, pat: string, post: string, rep: string)
    requires forall j :: 0 <= j < |pre| ==> !MatchesAt(pre + pat + post, pat, j)
    ensures ReplaceFirst(pre + pat + post, pat, rep) == pre + rep + post
  {
    var s := pre + pat + post;
    assert MatchesAt(s, pat, |pre|) by { assert s[|pre|..|pre| + |pat|] == pat; }
    var r := IndexOf(s, pat);
    assert r == Some(|pre|);
    assert s[..|pre|] == pre;
    assert s[|pre| + |pat|..] == post;
  }

  // ---------------------------------------------------------------- the default sort order on strings

  /** `a <= b` in the order `Array.prototype.sort` uses by default, character by character (each `char` standing for one code unit). */
  predicate StringLe(a: string, b: string) {
    a == [] || (b != [] && (a[0] < b[0] || (a[0] == b[0] && StringLe(a[1..], b[1..]))))
  }

  lemma {:induction false} StringLeTotal(a: string, b: string)
    ensures StringLe(a, b) || StringLe(b, a)
  {
    if a != [] && b != [] && a[0] == b[0] {
      StringLeTotal(a[1..], b[1..]);
    }
  }

  lemma {:induction false} StringLeAntisymmetric(a: string, b: string)
    requires StringLe(a, b) && StringLe(b, a)
    ensures a == b
  {
    if a != [] {
      StringLeAntisymmetric(a[1..], b[1..]);
      assert a == [a[0]] + a[1..] && b == [b[0]] + b[1..];
    }
  }

  lemma {:induction false} StringLeTransitive(a: string, b: string, c: string)
    requires StringLe(a, b) && StringLe(b, c)
    ensures StringLe(a, c)
  {
    if a != [] && b != [] && c != [] && a[0] == b[0] && b[0] == c[0] {
      StringLeTransitive(a[1..], b[1..], c[1..]);
    }
  }

  // ---------------------------------------------------------------- decimal text of numbers

  predicate IsDigit(c: char) { '0' <= c <= '9' }

  predicate AllDigits(s: string) {
    forall i :: 0 <= i < |s| ==> IsDigit(s[i])
  }

  function DigitChar(d: nat): (c: char)
    requires d < 10
    ensures IsDigit(c) && (c as int - '0' as int) == d
  {
    ('0' as int + d) as char
  }

  function DigitValue(c: char): (d: nat)
    requires IsDigit(c)
    ensures d < 10
  {
    c as int - '0' as int
  }

  /** The number a string of decimal digits denotes (0 for the empty string). */
  function DigitsValue(s: string): nat
    requires AllDigits(s)
  {
    if s == [] then 0 else DigitsValue(s[..|s| - 1]) * 10 + DigitValue(s[|s| - 1])
  }

  function Pow10(k: nat): (p: nat)
    ensures p >= 1
  {
    if k == 0 then 1 else 10 * Pow10(k - 1)
  }

  /** `String(n)` for a non-negative integer: its decimal digits with no leading zero. */
  function NatText(n: nat): (r: string)
    ensures |r| >= 1 && AllDigits(r)
    ensures r[0] == '0' ==> n == 0
    ensures DigitsValue(r) == n
  {
    if n < 10 then [DigitChar(n)]
    else
      var r := NatText(n / 10) + [DigitChar(n % 10)];
      assert r[..|r| - 1] == NatText(n / 10);
      r
  }

  /** A number in [10^(k-1), 10^k) has exactly k decimal digits. */
  lemma {:induction false} NatTextLength(n: nat, k: nat)
    requires k >= 1 && Pow10(k - 1) <= n < Pow10(k)
    ensures |NatText(n)| == k
  {
    if n >= 10 {
      assert Pow10(k - 1) == 10 * Pow10(k - 2);
      assert Pow10(k - 2) <= n / 10 < Pow10(k - 1);
      NatTextLength(n / 10, k - 1);
    }
  }

  function IntText(i: int): string {
    if i < 0 then "-" + NatText(-i) else NatText(i)
  }

  /** Digits of a fraction in [0, 1), most significant first, stopping when nothing is left. */
  function FractionDigits(f: real, fuel: nat): (r: string)
    requires 0.0 <= f < 1.0
    ensures AllDigits(r) && |r| <= fuel
    decreases fuel
  {
    if fuel == 0 || f == 0.0 then ""
    else
      var d := (f * 10.0).Floor;
      [DigitChar(d)] + FractionDigits(f * 10.0 - d as real, fuel - 1)
  }

  /** The text of a non-negative number: integer digits, then a point and the fraction's digits if any. */
  function UnsignedText(m: real): string
    requires m >= 0.0
  {
    NatText(m.Floor) + (if m == m.Floor as real then "" else "." + FractionDigits(m - m.Floor as real, 20))
  }

  /**
   * `String(x)` for a finite number: a sign when negative, the integer part,
   * then, when it has one, a point and the decimal digits of its fraction (at
   * most 20 of them).
   */
  function NumText(x: real): string
  {
    if x < 0.0 then "-" + UnsignedText(-x) else UnsignedText(x)
  }

  /** An integral number is shown as its integer digits. */
  lemma NumTextOfInt(i: int)
    ensures NumText(i as real) == IntText(i)
  {
    var m := if i < 0 then -i else i;
    assert (m as real).Floor == m;
    assert (if (i as real) < 0.0 then -(i as real) else i as real) == m as real;
  }
}
