/** The anchor slug of a section name (`slugify`, ingest_manpages.py:169-176):
    strip, lower-case, dashes for em/en dashes and whitespace runs, keep only
    `[a-z0-9_-]`, collapse dash runs, cut to `max_len`, strip `-` and `_`. */
module Slug {
  import opened Strings
  import opened Common

  predicate IsSlugChar(c: char) {
    IsLowerAscii(c) || IsDigit(c) || c == '-' || c == '_'
  }

  predicate IsDashOrUnderscore(c: char) { c == '-' || c == '_' }

  /** No two dashes in a row. */
  predicate NoDoubleDash(s: string) {
    forall i :: 0 <= i < |s| - 1 ==> !(s[i] == '-' && s[i + 1] == '-')
  }

  /** `re.sub(r"[—–]", "-", s)`. */
  function DashesToHyphen(s: string): (r: string)
    ensures |r| == |s|
    ensures forall i :: 0 <= i < |s| ==> r[i] == (if s[i] == '—' || s[i] == '–' then '-' else s[i])
  {
    seq(|s|, i requires 0 <= i < |s| => if s[i] == '—' || s[i] == '–' then '-' else s[i])
  }

  predicate IsSlugText(s: string) {
    forall i :: 0 <= i < |s| ==> IsSlugChar(s[i])
  }

  /** Keeps only the characters of `[a-z0-9_-]`. */
  function KeepSlugChars(s: string): (r: string)
    ensures IsSlugText(r)
    ensures |r| <= |s|
    ensures IsSlugText(s) ==> r == s
    ensures (forall i :: 0 <= i < |s| ==> !IsSlugChar(s[i])) ==> r == []
  {
    if s == [] then []
    else if IsSlugChar(s[0]) then [s[0]] + KeepSlugChars(s[1..])
    else KeepSlugChars(s[1..])
  }

  /** `re.sub(r"-{2,}", "-", s)`; `afterDash` says a dash was just emitted. */
  function CollapseDashes(s: string, afterDash: bool): (r: string)
    ensures NoDoubleDash(r)
    ensures afterDash && r != [] ==> r[0] != '-'
    ensures IsSlugText(s) ==> IsSlugText(r)
    ensures |r| <= |s|
  {
    if s == [] then []
    else if s[0] == '-' then
      if afterDash then CollapseDashes(s[1..], true)
      else "-" + CollapseDashes(s[1..], true)
    else [s[0]] + CollapseDashes(s[1..], false)
  }

  /** `s.lstrip("-_")`. */
  function LStripDashes(s: string): (r: string)
    ensures |r| <= |s| && r == s[|s| - |r|..]
    ensures r == [] || !IsDashOrUnderscore(r[0])
  {
    if s != [] && IsDashOrUnderscore(s[0]) then LStripDashes(s[1..]) else s
  }

  /** `s.rstrip("-_")`. */
  function RStripDashes(s: string): (r: string)
    ensures |r| <= |s| && r == s[..|r|]
    ensures r == [] || !IsDashOrUnderscore(r[|r| - 1])
  {
    if s != [] && IsDashOrUnderscore(s[|s| - 1]) then RStripDashes(s[..|s| - 1]) else s
  }

  /** What `lstrip("-_")` drops is `-` and `_` only. */
  lemma {:induction false} LStripDashesDrops(s: string)
    ensures forall i :: 0 <= i < |s| - |LStripDashes(s)| ==> IsDashOrUnderscore(s[i])
  {
    if s != [] && IsDashOrUnderscore(s[0]) {
      LStripDashesDrops(s[1..]);
      assert forall i :: 1 <= i < |s| ==> s[i] == s[1..][i - 1];
    }
  }

  /** What `rstrip("-_")` drops is `-` and `_` only. */
  lemma {:induction false} RStripDashesDrops(s: string)
    ensures forall i :: |RStripDashes(s)| <= i < |s| ==> IsDashOrUnderscore(s[i])
  {
    if s != [] && IsDashOrUnderscore(s[|s| - 1]) {
      RStripDashesDrops(s[..|s| - 1]);
      assert forall i :: 0 <= i < |s| - 1 ==> s[..|s| - 1][i] == s[i];
    }
  }

  /** Keeping slug characters works piece by piece: it is a filter. */
  lemma {:induction false} KeepSlugCharsAppend(a: string, b: string)
    ensures KeepSlugChars(a + b) == KeepSlugChars(a) + KeepSlugChars(b)
  {
    if a != [] {
      assert (a + b)[1..] == a[1..] + b;
      KeepSlugCharsAppend(a[1..], b);
      if IsSlugChar(a[0]) {
        assert [a[0]] + KeepSlugChars(a[1..]) + KeepSlugChars(b) == [a[0]] + (KeepSlugChars(a[1..]) + KeepSlugChars(b));
      }
    } else {
      assert a + b == b;
    }
  }

  /** A run of dashes. */
  predicate AllDashes(d: string) {
    forall i :: 0 <= i < |d| ==> d[i] == '-'
  }

  /** Right after an emitted dash, a further run of dashes is dropped. */
  lemma {:induction false} DashRunDropped(d: string, t: string)
    requires AllDashes(d)
    ensures CollapseDashes(d + t, true) == CollapseDashes(t, true)
  {
    if d != [] {
      assert (d + t)[1..] == d[1..] + t;
      DashRunDropped(d[1..], t);
    } else {
      assert d + t == t;
    }
  }

  /** `re.sub(r"-{2,}", "-", ...)` piece by piece: a dash-free stretch and
      the whole dash run after it become the stretch and one dash. */
  lemma CollapseDashesStep(w: string, d: string, t: string)
    requires '-' !in w
    requires d != [] && AllDashes(d)
    requires t == [] || t[0] != '-'
    ensures CollapseDashes(w + d + t, false) == w + "-" + CollapseDashes(t, false)
  {
    assert w + d + t == w + (d + t);
    DashFreeCopied(w, d + t);
    DashRunCollapses(d, t);
  }

  /** A stretch without `-` is copied as it is. */
  lemma {:induction false} DashFreeCopied(w: string, b: string)
    requires '-' !in w
    ensures CollapseDashes(w + b, false) == w + CollapseDashes(b, false)
  {
    if w == [] {
      assert w + b == b;
    } else {
      var x := w + b;
      assert x[1..] == w[1..] + b;
      assert x[0] == w[0];
      DashFreeCopied(w[1..], b);
      KeptHead(x);
      assert w + CollapseDashes(b, false) == [w[0]] + (w[1..] + CollapseDashes(b, false));
    }
  }

  /** A text without `-` is left unchanged. */
  lemma DashFreeUnchanged(s: string)
    requires '-' !in s
    ensures CollapseDashes(s, false) == s
  {
    DashFreeCopied(s, []);
    assert s + [] == s;
  }

  /** A character other than `-` is copied. */
  lemma KeptHead(x: string)
    requires x != [] && x[0] != '-'
    ensures CollapseDashes(x, false) == [x[0]] + CollapseDashes(x[1..], false)
  {
  }

  /** A whole run of dashes becomes one dash. */
  lemma DashRunCollapses(d: string, t: string)
    requires d != [] && AllDashes(d)
    requires t == [] || t[0] != '-'
    ensures CollapseDashes(d + t, false) == "-" + CollapseDashes(t, false)
  {
    assert (d + t)[0] == '-';
    assert (d + t)[1..] == d[1..] + t;
    DashRunDropped(d[1..], t);
    AfterDashNoDash(t);
  }

  /** Before a character other than `-`, having just emitted a dash makes
      no difference. */
  lemma AfterDashNoDash(t: string)
    requires t == [] || t[0] != '-'
    ensures CollapseDashes(t, true) == CollapseDashes(t, false)
  {
  }

  /** Everything before the cut: a slug text without `--`. */
  function SlugBody(text: string): (c: string)
    ensures IsSlugText(c) && NoDoubleDash(c)
  {
    CollapseDashes(KeepSlugChars(ReplaceSpaceRuns(DashesToHyphen(Lower(Strip(text))), '-')), false)
  }

  /** `text[:max_len].strip("-_")`. */
  function SlugCut(c: string, maxLen: int): string {
    RStripDashes(LStripDashes(PyPrefix(c, maxLen)))
  }

  /** `slugify(text, max_len)`. */
  function Slugify(text: string, maxLen: int): string {
    SlugCut(SlugBody(text), maxLen)
  }

  /** A slug uses only `[a-z0-9_-]`, is no longer than `max_len`, never holds
      `--`, and neither starts nor ends with `-` or `_`. */
  lemma SlugShape(text: string, maxLen: int)
    ensures var r := Slugify(text, maxLen);
      && IsSlugText(r)
      && (maxLen >= 0 ==> |r| <= maxLen)
      && NoDoubleDash(r)
      && (r != [] ==> !IsDashOrUnderscore(r[0]) && !IsDashOrUnderscore(r[|r| - 1]))
  {
    CutShape(SlugBody(text), maxLen);
  }

  lemma CutShape(c: string, maxLen: int)
    requires IsSlugText(c) && NoDoubleDash(c)
    ensures var r := SlugCut(c, maxLen);
      && IsSlugText(r)
      && (maxLen >= 0 ==> |r| <= maxLen)
      && NoDoubleDash(r)
      && (r != [] ==> !IsDashOrUnderscore(r[0]) && !IsDashOrUnderscore(r[|r| - 1]))
  {
    var p := PyPrefix(c, maxLen);
    PrefixKeepsSlug(c, p);
    var l := LStripDashes(p);
    SuffixKeepsSlug(p, l);
    var r := RStripDashes(l);
    PrefixKeepsSlug(l, r);
    assert SlugCut(c, maxLen) == r;
    assert r != [] ==> r[0] == l[0] && !IsDashOrUnderscore(r[|r| - 1]);
  }

  lemma PrefixKeepsSlug(c: string, p: string)
    requires p <= c && IsSlugText(c) && NoDoubleDash(c)
    ensures IsSlugText(p) && NoDoubleDash(p)
  {
    SliceKeepsSlug(c, 0, |p|);
    assert c[0..|p|] == p;
  }

  lemma SuffixKeepsSlug(c: string, l: string)
    requires |l| <= |c| && l == c[|c| - |l|..] && IsSlugText(c) && NoDoubleDash(c)
    ensures IsSlugText(l) && NoDoubleDash(l)
  {
    SliceKeepsSlug(c, |c| - |l|, |c|);
  }

  lemma SliceKeepsSlug(c: string, a: nat, b: nat)
    requires a <= b <= |c|
    requires IsSlugText(c) && NoDoubleDash(c)
    ensures IsSlugText(c[a..b]) && NoDoubleDash(c[a..b])
  {
    var t := c[a..b];
    assert forall i :: 0 <= i < |t| ==> t[i] == c[a + i];
  }
}
