/**
 * Slug canonicalisation (`formatSlug`), shared by the publish dialog and the
 * settings form: lower-case, drop combining diacritical marks, turn every
 * other character outside `[a-z0-9-]` into `-`, collapse runs of `-`, and
 * drop one `-` at each end.
 */
module Slug {
  import JsText

  predicate IsSlugChar(c: char) {
    ('a' <= c <= 'z') || ('0' <= c <= '9') || c == '-'
  }

  predicate AllSlugChars(s: string) {
    forall i :: 0 <= i < |s| ==> IsSlugChar(s[i])
  }

  /** No two adjacent hyphens. */
  predicate NoDoubleHyphen(s: string) {
    forall i :: 0 <= i < |s| - 1 ==> !(s[i] == '-' && s[i + 1] == '-')
  }

  /** Neither the first nor the last character is a hyphen. */
  predicate NoEdgeHyphen(s: string) {
    s != [] ==> s[0] != '-' && s[|s| - 1] != '-'
  }

  /** A slug in canonical form: what `formatSlug` produces. */
  predicate IsCanonical(s: string) {
    AllSlugChars(s) && NoDoubleHyphen(s) && NoEdgeHyphen(s)
  }

  // ---------------------------------------------------------------------------
  // The pipeline: lower-case, strip marks, map invalid characters, collapse
  // hyphen runs, trim edge hyphens
  // ---------------------------------------------------------------------------

  /** `toLowerCase`, for the ASCII letters. */
  function LowerChar(c: char): char {
    if 'A' <= c <= 'Z' then (c as int + 32) as char else c
  }

  function ToLower(s: string): string {
    seq(|s|, i requires 0 <= i < |s| => LowerChar(s[i]))
  }

  /** The combining diacritical marks block, U+0300 to U+036F. */
  predicate IsCombiningMark(c: char) {
    '\U{0300}' <= c <= '\U{036F}'
  }

  /** The global replace of the class U+0300 to U+036F by the empty string. */
  function StripMarks(s: string): string {
    if s == [] then []
    else if IsCombiningMark(s[0]) then StripMarks(s[1..])
    else [s[0]] + StripMarks(s[1..])
  }

  /** `replace(/[^a-z0-9-]/g, "-")`. */
  function MapInvalid(s: string): string {
    seq(|s|, i requires 0 <= i < |s| => if IsSlugChar(s[i]) then s[i] else '-')
  }

  /** `replace(/-+/g, "-")`: every run of hyphens becomes one hyphen. */
  function Collapse(s: string): (r: string)
    ensures s != [] ==> r != [] && r[0] == s[0]
  {
    if s == [] then []
    else if s[0] == '-' && |s| > 1 && s[1] == '-' then Collapse(s[1..])
    else [s[0]] + Collapse(s[1..])
  }

  /** `replace(/^-|-$/g, "")`: one leading and one trailing hyphen go. */
  function TrimHyphens(s: string): string {
    var a := if s != [] && s[0] == '-' then s[1..] else s;
    if a != [] && a[|a| - 1] == '-' then a[..|a| - 1] else a
  }

  /**
   * `formatSlug(value)`. Unicode `normalize("NFD")` is taken as the identity:
   * the input is taken to be in NFD form already. Every output is canonical:
   * only `a`-`z`, `0`-`9` and `-`, no `--`, and no hyphen at either end.
   */
  function FormatSlug(value: string): (r: string)
    ensures IsCanonical(r)
  {
    var m := MapInvalid(StripMarks(ToLower(value)));
    CollapseKeepsSlugChars(m);
    CollapseNoDoubleHyphen(m);
    TrimHyphensCanonical(Collapse(m));
    TrimHyphens(Collapse(m))
  }

  // ---------------------------------------------------------------------------
  // Output invariants
  // ---------------------------------------------------------------------------

  lemma {:induction false} CollapseKeepsSlugChars(s: string)
    requires AllSlugChars(s)
    ensures AllSlugChars(Collapse(s))
  {
    if s != [] {
      CollapseKeepsSlugChars(s[1..]);
    }
  }

  /** After collapsing, no two hyphens are adjacent. */
  lemma {:induction false} CollapseNoDoubleHyphen(s: string)
    ensures NoDoubleHyphen(Collapse(s))
  {
    if s != [] {
      CollapseNoDoubleHyphen(s[1..]);
      if !(s[0] == '-' && |s| > 1 && s[1] == '-') {
        var r := Collapse(s);
        var t := Collapse(s[1..]);
        assert r == [s[0]] + t;
        forall i | 0 <= i < |r| - 1
          ensures !(r[i] == '-' && r[i + 1] == '-')
        {
          if i > 0 {
            assert r[i] == t[i - 1] && r[i + 1] == t[i];
          }
        }
      }
    }
  }

  lemma TrimHyphensCanonical(s: string)
    requires AllSlugChars(s) && NoDoubleHyphen(s)
    ensures IsCanonical(TrimHyphens(s))
  {
    var a := if s != [] && s[0] == '-' then s[1..] else s;
    assert AllSlugChars(a) && NoDoubleHyphen(a);
    assert a != [] ==> a[0] != '-';
    var r := TrimHyphens(s);
    if a != [] && a[|a| - 1] == '-' {
      assert r == a[..|a| - 1];
      assert r != [] ==> r[|r| - 1] == a[|a| - 2];
    }
  }

  // ---------------------------------------------------------------------------
  // Canonical slugs are fixed points
  // ---------------------------------------------------------------------------

  /** Text without combining marks passes the mark-stripping step unchanged. */
  lemma {:induction false} StripMarksUnchanged(s: string)
    requires forall i :: 0 <= i < |s| ==> !IsCombiningMark(s[i])
    ensures StripMarks(s) == s
  {
    if s != [] {
      StripMarksUnchanged(s[1..]);
      assert [s[0]] + s[1..] == s;
    }
  }

  /** Text without `--` passes the collapsing step unchanged. */
  lemma {:induction false} CollapseUnchanged(s: string)
    requires NoDoubleHyphen(s)
    ensures Collapse(s) == s
  {
    if s != [] {
      CollapseUnchanged(s[1..]);
      assert [s[0]] + s[1..] == s;
    }
  }

  /** `formatSlug` leaves a canonical slug exactly as it is. */
  lemma CanonicalIsFixedPoint(s: string)
    requires IsCanonical(s)
    ensures FormatSlug(s) == s
  {
    assert ToLower(s) == s;
    StripMarksUnchanged(s);
    assert MapInvalid(s) == s;
    CollapseUnchanged(s);
  }

  /** `formatSlug` is idempotent. */
  lemma FormatSlugIdempotent(value: string)
    ensures FormatSlug(FormatSlug(value)) == FormatSlug(value)
  {
    CanonicalIsFixedPoint(FormatSlug(value));
  }

  /** The fixed points of `formatSlug` are exactly the canonical slugs. */
  lemma FixedPointIffCanonical(s: string)
    ensures FormatSlug(s) == s <==> IsCanonical(s)
  {
    if IsCanonical(s) {
      CanonicalIsFixedPoint(s);
    }
  }

  /** A canonical slug has no white space, so trimming leaves it unchanged. */
  lemma CanonicalIsTrimmed(s: string)
    requires IsCanonical(s)
    ensures JsText.Trim(s) == s
    ensures JsText.IsBlank(s) <==> s == []
  {
    JsText.TrimUnchanged(s);
  }

  /** A canonical slug holds no `.`, so it is a single host label. */
  lemma CanonicalHasNoDot(s: string)
    requires IsCanonical(s)
    ensures '.' !in s
  {
  }
}
