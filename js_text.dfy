/**
 * The few ECMAScript string operations the application relies on, written
 * out over `string` (a sequence of Unicode scalar values): `trim`,
 * `indexOf` / `includes`, `replace` with a string pattern, `String(n)` on
 * integers and `padStart`.
 */
module JsText {
  import opened Wrappers

  // ---------------------------------------------------------------------------
  // String.prototype.trim
  // ---------------------------------------------------------------------------

  /** The WhiteSpace and LineTerminator code points that `trim` removes. */
  predicate IsWhitespace(c: char) {
    c == '\t' || c == '\n' || c == '\U{000B}' || c == '\U{000C}' || c == '\r' || c == ' '
    || c == '\U{00A0}' || c == '\U{1680}' || ('\U{2000}' <= c <= '\U{200A}')
    || c == '\U{2028}' || c == '\U{2029}' || c == '\U{202F}' || c == '\U{205F}'
    || c == '\U{3000}' || c == '\U{FEFF}'
  }

  predicate AllWhitespace(s: string) {
    forall i :: 0 <= i < |s| ==> IsWhitespace(s[i])
  }

  /** Drops leading white space; what is left is a suffix of `s`. */
  function TrimStart(s: string): (r: string)
    ensures |r| <= |s| && r == s[|s| - |r|..]
    ensures r != [] ==> !IsWhitespace(r[0])
  {
    if |s| > 0 && IsWhitespace(s[0]) then TrimStart(s[1..]) else s
  }

  /** Drops trailing white space; what is left is a prefix of `s`. */
  function TrimEnd(s: string): (r: string)
    ensures |r| <= |s| && r == s[..|r|]
    ensures r != [] ==> !IsWhitespace(r[|r| - 1])
    ensures |s| > 0 && !IsWhitespace(s[0]) ==> r != []
  {
    if |s| > 0 && IsWhitespace(s[|s| - 1]) then TrimEnd(s[..|s| - 1]) else s
  }

  /**
   * `s.trim()`: the part of `s` between a white-space prefix and a
   * white-space suffix, with no white space left at either end; nothing is
   * left exactly when the text was all white space.
   */
  function Trim(s: string): (r: string)
    ensures exists i, j :: 0 <= i <= j <= |s| && r == s[i..j] && AllWhitespace(s[..i]) && AllWhitespace(s[j..])
    ensures r != [] ==> !IsWhitespace(r[0]) && !IsWhitespace(r[|r| - 1])
    ensures r == [] <==> AllWhitespace(s)
  {
    TrimmedInfix(s);
    TrimEnd(TrimStart(s))
  }

  /** Trimming keeps the part of `s` between two runs of white space. */
  lemma TrimmedInfix(s: string)
    ensures var r := TrimEnd(TrimStart(s));
      exists i, j :: 0 <= i <= j <= |s| && r == s[i..j] && AllWhitespace(s[..i]) && AllWhitespace(s[j..])
    ensures TrimEnd(TrimStart(s)) == [] <==> AllWhitespace(s)
  {
    TrimStartEmptyIff(s);
    TrimStartDropsWhitespace(s);
    TrimEndDropsWhitespace(TrimStart(s));
    InfixBetweenWhitespace(s, TrimStart(s), TrimEnd(TrimStart(s)));
  }

  /**
   * A prefix `r` of a suffix `t` of `s`, where `s` loses only white space
   * before `t` and `t` only white space after `r`, lies between two runs of
   * white space in `s`.
   */
  lemma InfixBetweenWhitespace(s: string, t: string, r: string)
    requires |t| <= |s| && t == s[|s| - |t|..] && AllWhitespace(s[..|s| - |t|])
    requires |r| <= |t| && r == t[..|r|] && AllWhitespace(t[|r|..])
    ensures exists i, j :: 0 <= i <= j <= |s| && r == s[i..j] && AllWhitespace(s[..i]) && AllWhitespace(s[j..])
  {
    var i := |s| - |t|;
    assert s[i..i + |r|] == r;
    assert s[i + |r|..] == t[|r|..];
  }

  lemma {:induction false} TrimStartDropsWhitespace(s: string)
    ensures AllWhitespace(s[..|s| - |TrimStart(s)|])
  {
    if |s| > 0 && IsWhitespace(s[0]) {
      TrimStartDropsWhitespace(s[1..]);
      var k := |s[1..]| - |TrimStart(s[1..])|;
      assert s[..k + 1] == [s[0]] + s[1..][..k];
    }
  }

  lemma {:induction false} TrimEndDropsWhitespace(s: string)
    ensures AllWhitespace(s[|TrimEnd(s)|..])
  {
    if |s| > 0 && IsWhitespace(s[|s| - 1]) {
      var p := s[..|s| - 1];
      TrimEndDropsWhitespace(p);
      assert s[|TrimEnd(p)|..] == p[|TrimEnd(p)|..] + [s[|s| - 1]];
    }
  }

  /** `!s.trim()` in the source: the trimmed text is empty. */
  predicate IsBlank(s: string) {
    Trim(s) == []
  }

  lemma {:induction false} TrimStartEmptyIff(s: string)
    ensures TrimStart(s) == [] <==> AllWhitespace(s)
  {
    if |s| > 0 && IsWhitespace(s[0]) {
      TrimStartEmptyIff(s[1..]);
      assert AllWhitespace(s[1..]) <==> AllWhitespace(s) by {
        assert forall i :: 1 <= i < |s| ==> s[i] == s[1..][i - 1];
      }
    }
  }

  /** A text is blank exactly when every one of its characters is white space. */
  lemma BlankIffAllWhitespace(s: string)
    ensures IsBlank(s) <==> AllWhitespace(s)
  {
    TrimStartEmptyIff(s);
  }

  /** Text with no white space at either end is its own trim. */
  lemma TrimUnchanged(s: string)
    requires s != [] ==> !IsWhitespace(s[0]) && !IsWhitespace(s[|s| - 1])
    ensures Trim(s) == s
  {
  }

  /** Trimming is idempotent. */
  lemma TrimIdempotent(s: string)
    ensures Trim(Trim(s)) == Trim(s)
  {
    TrimUnchanged(Trim(s));
  }

  // ---------------------------------------------------------------------------
  // indexOf, includes, replace(string, string)
  // ---------------------------------------------------------------------------

  /** `pat` occurs in `s` starting at index `j`. */
  predicate MatchAt(s: string, pat: string, j: int) {
    0 <= j && j + |pat| <= |s| && s[j..j + |pat|] == pat
  }

  /** The first occurrence of `pat` in `s` at or after `k`. */
  function IndexOfFrom(s: string, pat: string, k: nat): (r: Option<nat>)
    requires k <= |s|
    ensures r.Some? ==> k <= r.value && MatchAt(s, pat, r.value)
    ensures r.Some? ==> forall j :: k <= j < r.value ==> !MatchAt(s, pat, j)
    ensures r.None? ==> forall j :: k <= j ==> !MatchAt(s, pat, j)
    decreases |s| - k
  {
    if k + |pat| > |s| then None
    else if s[k..k + |pat|] == pat then Some(k)
    else if k == |s| then None
    else IndexOfFrom(s, pat, k + 1)
  }

  /**
   * `s.indexOf(pat)`, with `None` for -1: the first index where `pat`
   * occurs, or `None` when it occurs nowhere.
   */
  function IndexOf(s: string, pat: string): (r: Option<nat>)
    ensures r.Some? ==> MatchAt(s, pat, r.value) && forall j :: 0 <= j < r.value ==> !MatchAt(s, pat, j)
    ensures r.None? <==> forall j :: !MatchAt(s, pat, j)
  {
    IndexOfFrom(s, pat, 0)
  }

  /** `s.includes(pat)`. */
  predicate Contains(s: string, pat: string) {
    IndexOf(s, pat).Some?
  }

  lemma ContainsIff(s: string, pat: string)
    ensures Contains(s, pat) <==> exists j :: MatchAt(s, pat, j)
  {
  }

  /** Inside an occurrence, the text agrees with the pattern character by character. */
  lemma MatchAtChar(s: string, pat: string, j: int, t: int)
    requires MatchAt(s, pat, j) && 0 <= t < |pat|
    ensures s[j + t] == pat[t]
  {
    assert s[j..j + |pat|][t] == s[j + t];
  }

  /** An occurrence lying inside `s[lo..hi]` is an occurrence in that slice. */
  lemma MatchInSlice(s: string, lo: nat, hi: nat, pat: string, j: int)
    requires lo <= hi <= |s| && MatchAt(s, pat, j) && lo <= j && j + |pat| <= hi
    ensures MatchAt(s[lo..hi], pat, j - lo)
  {
    forall t | 0 <= t < |pat|
      ensures s[lo..hi][j - lo..j - lo + |pat|][t] == pat[t]
    {
      assert s[lo..hi][j - lo..j - lo + |pat|][t] == s[j + t] == s[j..j + |pat|][t];
    }
  }

  /**
   * A pattern without the separator `c` occurs in `a + [c] + b` only if it
   * occurs in `a` or in `b`: no occurrence can straddle the separator.
   */
  lemma {:induction false} NotContainsJoin(a: string, c: char, b: string, pat: string)
    requires c !in pat
    requires !Contains(a, pat) && !Contains(b, pat)
    ensures !Contains(a + [c] + b, pat)
  {
    var s := a + [c] + b;
    ContainsIff(a, pat);
    ContainsIff(b, pat);
    ContainsIff(s, pat);
    forall j | MatchAt(s, pat, j)
      ensures false
    {
      if j + |pat| <= |a| {
        assert s[0..|a|] == a;
        MatchInSlice(s, 0, |a|, pat, j);
      } else if j > |a| {
        assert s[|a| + 1..|s|] == b;
        MatchInSlice(s, |a| + 1, |s|, pat, j);
      } else {
        MatchAtChar(s, pat, j, |a| - j);
        assert false;
      }
    }
  }

  /** A text holds every one of its own infixes. */
  lemma ContainsInfix(a: string, pat: string, b: string)
    ensures Contains(a + pat + b, pat)
  {
    ContainsIff(a + pat + b, pat);
    assert MatchAt(a + pat + b, pat, |a|);
  }

  /**
   * When the pattern's first character does not recur inside it, an
   * occurrence right after a text free of the pattern is the first one: no
   * earlier occurrence can begin inside `a` and run into it.
   */
  lemma IndexOfAfterFree(a: string, pat: string, rest: string)
    requires pat != [] && !Contains(a, pat)
    requires forall t :: 0 < t < |pat| ==> pat[t] != pat[0]
    ensures IndexOf(a + pat + rest, pat) == Some(|a|)
  {
    var s := a + pat + rest;
    assert s[|a|..|a| + |pat|] == pat;
    assert MatchAt(s, pat, |a|);
    ContainsIff(a, pat);
    var i := IndexOf(s, pat).value;
    if i < |a| {
      if i + |pat| <= |a| {
        assert s[0..|a|] == a;
        MatchInSlice(s, 0, |a|, pat, i);
      } else {
        MatchAtChar(s, pat, i, |a| - i);
        MatchAtChar(s, pat, |a|, 0);
      }
      assert false;
    }
  }

  /**
   * `s.replace(pat, rep)` with a string pattern: with no occurrence the text
   * is returned unchanged; otherwise the text before the FIRST occurrence
   * (which itself holds no occurrence), the replacement inserted literally,
   * then everything after that occurrence verbatim, later occurrences
   * included.
   */
  function ReplaceFirst(s: string, pat: string, rep: string): (r: string)
    ensures !Contains(s, pat) ==> r == s
    ensures Contains(s, pat) ==>
      exists i :: (MatchAt(s, pat, i)
                   && (forall j :: 0 <= j < i ==> !MatchAt(s, pat, j))
                   && r == s[..i] + rep + s[i + |pat|..])
  {
    match IndexOf(s, pat)
    case None => s
    case Some(i) =>
      var r := s[..i] + rep + s[i + |pat|..];
      assert MatchAt(s, pat, i) && (forall j :: 0 <= j < i ==> !MatchAt(s, pat, j));
      r
  }

  // ---------------------------------------------------------------------------
  // String(n) for integers, and padStart
  // ---------------------------------------------------------------------------

  predicate IsDigit(c: char) {
    '0' <= c <= '9'
  }

  predicate AllDigits(s: string) {
    forall i :: 0 <= i < |s| ==> IsDigit(s[i])
  }

  function DigitChar(d: nat): (c: char)
    requires d < 10
    ensures IsDigit(c)
  {
    ('0' as int + d) as char
  }

  function DigitValue(c: char): (d: nat)
    requires IsDigit(c)
    ensures d < 10
  {
    c as int - '0' as int
  }

  /** The decimal numeral of `n`, with no leading zeros. */
  function NatToDecimal(n: nat): (r: string)
    ensures r != [] && AllDigits(r)
    ensures |r| == 1 <==> n < 10
    ensures r[0] == '0' ==> n == 0
  {
    if n < 10 then [DigitChar(n)] else NatToDecimal(n / 10) + [DigitChar(n % 10)]
  }

  /**
   * `String(n)` for an integer `n`: a numeral without leading zeros that
   * reads back as `n`, after a `-` for a negative `n`.
   */
  function IntToString(n: int): (r: string)
    ensures n >= 0 ==> r != [] && AllDigits(r) && ParseDecimal(r) == n && (r[0] == '0' ==> r == "0")
    ensures n < 0 ==> r != [] && r[0] == '-' && AllDigits(r[1..]) && ParseDecimal(r[1..]) == -n
  {
    if n < 0 then
      ParseNatToDecimal(-n);
      var d := NatToDecimal(-n);
      assert ("-" + d)[1..] == d;
      "-" + d
    else
      ParseNatToDecimal(n);
      NatToDecimal(n)
  }

  /** The value of a string of decimal digits (leading zeros allowed). */
  function ParseDecimal(s: string): nat
    requires AllDigits(s)
  {
    if s == [] then 0 else 10 * ParseDecimal(s[..|s| - 1]) + DigitValue(s[|s| - 1])
  }

  /** Reading the numeral back gives the number. */
  lemma {:induction false} ParseNatToDecimal(n: nat)
    ensures ParseDecimal(NatToDecimal(n)) == n
  {
    if n >= 10 {
      var s := NatToDecimal(n);
      assert s[..|s| - 1] == NatToDecimal(n / 10);
      ParseNatToDecimal(n / 10);
    }
  }

  function Repeat(c: char, k: nat): (r: string)
    ensures |r| == k && forall i :: 0 <= i < k ==> r[i] == c
  {
    seq(k, _ => c)
  }

  /** `s.padStart(width, fill)` with a one-character fill. */
  function PadStart(s: string, width: nat, fill: char): (r: string)
    ensures |r| == if |s| >= width then |s| else width
    ensures r[|r| - |s|..] == s
    ensures forall i :: 0 <= i < |r| - |s| ==> r[i] == fill
  {
    if |s| >= width then s else Repeat(fill, width - |s|) + s
  }

  /** Leading zeros do not change the value of a numeral. */
  lemma {:induction false} ParseLeadingZeros(k: nat, s: string)
    requires AllDigits(s)
    ensures AllDigits(Repeat('0', k) + s)
    ensures ParseDecimal(Repeat('0', k) + s) == ParseDecimal(s)
  {
    var t := Repeat('0', k) + s;
    if s == [] {
      assert t == Repeat('0', k);
      if k > 0 {
        assert t[..|t| - 1] == Repeat('0', k - 1) + [];
        ParseLeadingZeros(k - 1, []);
      }
    } else {
      assert t[..|t| - 1] == Repeat('0', k) + s[..|s| - 1];
      ParseLeadingZeros(k, s[..|s| - 1]);
    }
  }
}
