/** The one-time-password helpers: lifetime constant, code generation and the email-shape test. */
module OtpUtil {
  import opened JsString

  const OtpExpirationMinutes: nat := 5

  /** The lifetime in milliseconds, as the handler computes it: minutes * 60 * 1000. */
  const OtpLifetimeMs: nat := OtpExpirationMinutes * 60 * 1000

  lemma LifetimeIsFiveMinutes()
    ensures OtpLifetimeMs == 300000
  {
  }

  /**
   * `Math.floor(100000 + Math.random() * 900000).toString()`, with the draw
   * `Math.floor(Math.random() * 900000)` given as `draw`.
   */
  function GenerateOtp(draw: nat): (code: string)
    requires draw < 900000
    ensures |code| == 6 && AllDigits(code) && code[0] != '0'
    ensures DigitsValue(code) == 100000 + draw
  {
    assert Pow10(5) == 100000 && Pow10(6) == 1000000;
    NatTextLength(100000 + draw, 6);
    NatText(100000 + draw)
  }

  // ---------------------------------------------------------------- /\S+@\S+\.\S+/.test(s)

  /**
   * The regular expression matches with its `@` at `i` and its `.` at `j`:
   * a non-space before the `@`, a non-empty run of non-spaces between `@` and
   * `.`, and a non-space after the `.`. The search is unanchored.
   */
  ghost predicate EmailShapeAt(s: string, i: int, j: int) {
    && 1 <= i && i + 2 <= j && j + 1 < |s|
    && s[i] == '@' && s[j] == '.'
    && !IsSpace(s[i - 1])
    && (forall m :: i < m < j ==> !IsSpace(s[m]))
    && !IsSpace(s[j + 1])
  }

  ghost predicate EmailShape(s: string) {
    exists i, j :: EmailShapeAt(s, i, j)
  }

  /** The end of the run of non-space characters that starts at `k`. */
  function RunEnd(s: string, k: nat): (e: nat)
    requires k <= |s|
    ensures k <= e <= |s|
    ensures forall m :: k <= m < e ==> !IsSpace(s[m])
    ensures e < |s| ==> IsSpace(s[e])
    decreases |s| - k
  {
    if k == |s| || IsSpace(s[k]) then k else RunEnd(s, k + 1)
  }

  function HasDotIn(s: string, lo: nat, hi: nat): (b: bool)
    requires hi <= |s|
    ensures b <==> exists j :: lo <= j < hi && s[j] == '.'
    decreases hi - lo
  {
    if lo >= hi then false else s[lo] == '.' || HasDotIn(s, lo + 1, hi)
  }

  /** A match whose `@` sits at `i`. */
  predicate MatchAt(s: string, i: nat) {
    1 <= i < |s| && s[i] == '@' && !IsSpace(s[i - 1]) &&
    var e := RunEnd(s, i + 1);
    e >= 1 && HasDotIn(s, i + 2, e - 1)
  }

  function SearchFrom(s: string, i: nat): bool
    decreases |s| - i
  {
    i < |s| && (MatchAt(s, i) || SearchFrom(s, i + 1))
  }

  /** `looksLikeEmail(value = '')`: scan for a position where the expression matches. */
  function LooksLikeEmail(s: string): bool {
    SearchFrom(s, 0)
  }

  lemma {:induction false} SearchFinds(s: string, i: nat)
    requires SearchFrom(s, i)
    ensures exists k :: i <= k && MatchAt(s, k)
    decreases |s| - i
  {
    if !MatchAt(s, i) {
      SearchFinds(s, i + 1);
    }
  }

  lemma {:induction false} SearchReaches(s: string, i: nat, k: nat)
    requires i <= k && MatchAt(s, k)
    ensures SearchFrom(s, i)
    decreases k - i
  {
    if i < k {
      SearchReaches(s, i + 1, k);
    }
  }

  lemma MatchAtShape(s: string, i: nat)
    requires MatchAt(s, i)
    ensures EmailShape(s)
  {
    var e := RunEnd(s, i + 1);
    var j :| i + 2 <= j < e - 1 && s[j] == '.';
    assert EmailShapeAt(s, i, j);
  }

  lemma ShapeMatchAt(s: string, i: nat, j: nat)
    requires EmailShapeAt(s, i, j)
    ensures MatchAt(s, i)
  {
    var e := RunEnd(s, i + 1);
    assert e > j + 1;
    assert i + 2 <= j < e - 1 && s[j] == '.';
  }

  /** The scan is exactly the regular expression's search. */
  lemma LooksLikeEmailIff(s: string)
    ensures LooksLikeEmail(s) <==> EmailShape(s)
  {
    if LooksLikeEmail(s) {
      SearchFinds(s, 0);
      var k :| 0 <= k && MatchAt(s, k);
      MatchAtShape(s, k);
    }
    if EmailShape(s) {
      var i, j :| EmailShapeAt(s, i, j);
      ShapeMatchAt(s, i, j);
      SearchReaches(s, 0, i);
    }
  }

  /** Unanchored: text around a matching string never hides the match. */
  lemma LooksLikeEmailInContext(before: string, s: string, after: string)
    requires LooksLikeEmail(s)
    ensures LooksLikeEmail(before + s + after)
  {
    LooksLikeEmailIff(s);
    var i, j :| EmailShapeAt(s, i, j);
    var t := before + s + after;
    var d := |before|;
    forall m | i + d < m < j + d
      ensures !IsSpace(t[m])
    {
      assert t[m] == s[m - d];
    }
    assert EmailShapeAt(t, i + d, j + d);
    LooksLikeEmailIff(t);
  }

  /** Without an `@` there is no match; in particular the empty default gives false. */
  lemma NoAtNoEmail(s: string)
    requires '@' !in s
    ensures !LooksLikeEmail(s)
  {
    LooksLikeEmailIff(s);
    forall i | 0 <= i < |s|
      ensures s[i] != '@'
    {
      assert s[i] in s;
    }
  }

  lemma EmptyIsNotEmail()
    ensures !LooksLikeEmail("")
  {
  }

  lemma SpacedTextMatches()
    ensures LooksLikeEmail("x a@b.c y")
  {
    var s := "x a@b.c y";
    assert EmailShapeAt(s, 3, 5);
    LooksLikeEmailIff(s);
  }

  lemma SpaceBreaksDomain()
    ensures !LooksLikeEmail("a@ b.c")
  {
    var s := "a@ b.c";
    LooksLikeEmailIff(s);
    forall i: int, j: int
      ensures !EmailShapeAt(s, i, j)
    {
      if 1 <= i < |s| && s[i] == '@' {
        assert i == 1 && IsSpace(s[2]);
      }
    }
  }
}
