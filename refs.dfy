/** The cross-references and constants a chunk mentions
    (`extract_see_also_refs` and `extract_constants`,
    ingest_manpages.py:388-400): a left-to-right scan for non-overlapping
    regex matches, then `sorted(set(...))`. */
module Refs {
  import opened Strings
  import opened Common

  // ---------------------------------------------------------------------------
  // extract_see_also_refs: \b([a-zA-Z0-9_+.-]+)\((\d[a-z]?)\)
  // ---------------------------------------------------------------------------

  /** `[a-zA-Z0-9_+.-]`. */
  predicate IsRefNameChar(c: char) {
    IsWordChar(c) || c == '+' || c == '.' || c == '-'
  }

  predicate IsRefName(n: string) {
    n != [] && forall i :: 0 <= i < |n| ==> IsRefNameChar(n[i])
  }

  /** `name(sec)` with a section of one digit and at most one lower-case
      letter: what `f"{m.group(1)}({m.group(2)})"` produces. */
  predicate IsRef(t: string) {
    && |t| >= 4 && t[|t| - 1] == ')'
    && (|| (t[|t| - 3] == '(' && IsDigit(t[|t| - 2]) && IsRefName(t[..|t| - 3]))
        || (|t| >= 5 && t[|t| - 4] == '(' && IsDigit(t[|t| - 3]) && IsLowerAscii(t[|t| - 2])
            && IsRefName(t[..|t| - 4])))
  }

  /** The pattern matches `s[p..e]`: `\b` holds at `p` and the text is a
      reference. */
  predicate RefMatchAt(s: string, p: nat, e: nat)
    requires p <= e <= |s|
  {
    WordBoundary(s, p) && IsRef(s[p..e])
  }

  /** The end of the match that starts at `p`, if the pattern matches there.
      The name takes the whole run of name characters (none of them is `(`),
      and the optional letter is tried first. */
  function RefMatchEnd(s: string, p: nat): (e: Option<nat>)
    requires p <= |s|
    ensures e.Some? ==> p < e.value <= |s| && RefMatchAt(s, p, e.value)
  {
    var q := RunEnd(s, p, IsRefNameChar);
    if !(q > p && WordBoundary(s, p) && q + 2 < |s| && s[q] == '(' && IsDigit(s[q + 1])) then None
    else if q + 3 < |s| && IsLowerAscii(s[q + 2]) && s[q + 3] == ')' then
      assert s[p..q + 4][..q - p] == s[p..q];
      Some(q + 4)
    else if s[q + 2] == ')' then
      assert s[p..q + 3][..q - p] == s[p..q];
      Some(q + 3)
    else None
  }

  /** The match found at `p` is the only one there: a name cannot hold `(`,
      so it is the whole run of name characters, and what follows it decides
      between `(d)` and `(dl)`. */
  lemma RefMatchEndFinds(s: string, p: nat, k: nat)
    requires p < k <= |s| && RefMatchAt(s, p, k)
    ensures RefMatchEnd(s, p) == Some(k)
  {
    var t := s[p..k];
    var q := RunEnd(s, p, IsRefNameChar);
    var n := if t[|t| - 3] == '(' && IsDigit(t[|t| - 2]) && IsRefName(t[..|t| - 3]) then |t| - 3 else |t| - 4;
    assert IsRefName(t[..n]) && t[n] == '(';
    forall i | p <= i < p + n
      ensures IsRefNameChar(s[i])
    {
      assert s[i] == t[..n][i - p];
    }
    assert s[p + n] == t[n];
    NameRunEnds(s, p, p + n);
    assert s[q + 1] == t[n + 1];
    assert s[q + 2] == t[n + 2];
    if n == |t| - 4 {
      assert s[q + 3] == t[n + 3];
    }
  }

  /** A name followed by `(` ends where the run of name characters ends. */
  lemma NameRunEnds(s: string, p: nat, n: nat)
    requires p < n < |s| && s[n] == '('
    requires forall i :: p <= i < n ==> IsRefNameChar(s[i])
    ensures RunEnd(s, p, IsRefNameChar) == n
  {
    RunEndAt(s, p, n, IsRefNameChar);
  }

  /** `re.finditer` from position `p`: after a match the scan resumes at its
      end, otherwise one character further. */
  function RefMatches(s: string, p: nat): (r: seq<string>)
    requires p <= |s|
    ensures forall i :: 0 <= i < |r| ==> IsRef(r[i])
    decreases |s| - p
  {
    if p == |s| then []
    else
      match RefMatchEnd(s, p)
      case Some(e) => [s[p..e]] + RefMatches(s, e)
      case None => RefMatches(s, p + 1)
  }

  /** Where the pattern matches, the scan reports that match and resumes
      after it. */
  lemma RefScanTakes(s: string, p: nat, e: nat)
    requires p < e <= |s| && RefMatchAt(s, p, e)
    ensures RefMatches(s, p) == [s[p..e]] + RefMatches(s, e)
  {
    RefMatchEndFinds(s, p, e);
  }

  /** Where the pattern matches nothing, the scan moves on one character. */
  lemma RefScanSkips(s: string, p: nat)
    requires p < |s| && forall e :: p < e <= |s| ==> !RefMatchAt(s, p, e)
    ensures RefMatches(s, p) == RefMatches(s, p + 1)
  {
  }

  /** `extract_see_also_refs(text)`: the distinct references in increasing
      order. */
  function ExtractSeeAlsoRefs(text: string): (r: seq<string>)
    ensures StrictlySorted(r)
    ensures forall i :: 0 <= i < |r| ==> IsRef(r[i])
    ensures forall x :: x in r <==> x in RefMatches(text, 0)
  {
    var r := SortedSet(RefMatches(text, 0));
    assert forall i :: 0 <= i < |r| ==> r[i] in r;
    r
  }

  /** A text without `(` mentions no reference. */
  lemma {:induction false} NoParenNoRefs(s: string, p: nat)
    requires p <= |s| && '(' !in s
    ensures RefMatches(s, p) == []
    decreases |s| - p
  {
    if p < |s| {
      assert RefMatchEnd(s, p).None? by {
        var q := RunEnd(s, p, IsRefNameChar);
        if q < |s| {
          assert s[q] in s;
        }
      }
      NoParenNoRefs(s, p + 1);
    }
  }

  /** The `SEE ALSO` line `getcwd(3), realpath(3)` yields both pages. */
  lemma SeeAlsoExample()
    ensures ExtractSeeAlsoRefs("getcwd(3), realpath(3)") == ["getcwd(3)", "realpath(3)"]
  {
    var s := "getcwd(3), realpath(3)";
    ExampleFirstRef(s);
    ExampleSkips(s);
    ExampleSecondRef(s);
    assert RefMatches(s, 22) == [];
    assert RefMatches(s, 11) == ["realpath(3)"];
    assert RefMatches(s, 0) == ["getcwd(3)", "realpath(3)"];
    assert Less("getcwd(3)", "realpath(3)");
    assert SortedSet(["getcwd(3)"]) == ["getcwd(3)"];
    assert ["getcwd(3)", "realpath(3)"][..1] == ["getcwd(3)"];
  }

  lemma ExampleFirstRef(s: string)
    requires s == "getcwd(3), realpath(3)"
    ensures RefMatchEnd(s, 0) == Some(9) && s[0..9] == "getcwd(3)"
  {
    assert RunEnd(s, 0, IsRefNameChar) == 6 by {
      assert forall i :: 0 <= i < 6 ==> IsRefNameChar(s[i]);
      RunEndAt(s, 0, 6, IsRefNameChar);
    }
  }

  lemma ExampleSkips(s: string)
    requires s == "getcwd(3), realpath(3)"
    ensures RefMatches(s, 9) == RefMatches(s, 11)
  {
    assert RunEnd(s, 9, IsRefNameChar) == 9;
    assert RunEnd(s, 10, IsRefNameChar) == 10;
  }

  lemma ExampleSecondRef(s: string)
    requires s == "getcwd(3), realpath(3)"
    ensures RefMatchEnd(s, 11) == Some(22) && s[11..22] == "realpath(3)"
  {
    assert !IsWordChar(s[10]);
    assert RunEnd(s, 11, IsRefNameChar) == 19 by {
      assert forall i :: 11 <= i < 19 ==> IsRefNameChar(s[i]);
      RunEndAt(s, 11, 19, IsRefNameChar);
    }
  }

  // ---------------------------------------------------------------------------
  // extract_constants: \b[A-Z][A-Z0-9_]{2,}\b, minus THE, AND and FOR
  // ---------------------------------------------------------------------------

  /** `[A-Z0-9_]`. */
  predicate IsConstChar(c: char) {
    IsUpperAscii(c) || IsDigit(c) || c == '_'
  }

  /** What a constant looks like: an upper-case letter and two or more
      upper-case letters, digits or underscores. */
  predicate IsConstant(t: string) {
    |t| >= 3 && IsUpperAscii(t[0]) && forall i :: 0 <= i < |t| ==> IsConstChar(t[i])
  }

  /** The pattern matches `s[p..e]`: `\b` holds at both ends and the text
      is a constant. */
  predicate ConstMatchAt(s: string, p: nat, e: nat)
    requires p <= e <= |s|
  {
    WordBoundary(s, p) && IsConstant(s[p..e]) && WordBoundary(s, e)
  }

  /** The end of the match at `p`: the run of constant characters after the
      first letter is taken whole, since a shorter one would end between two
      word characters, where `\b` fails. */
  function ConstMatchEnd(s: string, p: nat): (e: Option<nat>)
    requires p <= |s|
    ensures e.Some? ==> p < e.value <= |s| && ConstMatchAt(s, p, e.value)
  {
    if p < |s| && IsUpperAscii(s[p]) && WordBoundary(s, p) then
      var q := RunEnd(s, p + 1, IsConstChar);
      if q - (p + 1) >= 2 && (q == |s| || !IsWordChar(s[q])) then Some(q) else None
    else None
  }

  /** The match found at `p` is the only one there: it cannot stop inside
      the run of constant characters, where `\b` fails. */
  lemma ConstMatchEndFinds(s: string, p: nat, k: nat)
    requires p < k <= |s| && ConstMatchAt(s, p, k)
    ensures ConstMatchEnd(s, p) == Some(k)
  {
    var t := s[p..k];
    assert forall i :: p + 1 <= i < k ==> IsConstChar(s[i]) by {
      assert forall i :: p + 1 <= i < k ==> s[i] == t[i - p];
    }
    assert IsWordChar(s[k - 1]) by {
      assert s[k - 1] == t[|t| - 1];
    }
    RunEndAt(s, p + 1, k, IsConstChar);
  }

  /** `re.findall` from position `p`. */
  function ConstMatches(s: string, p: nat): (r: seq<string>)
    requires p <= |s|
    ensures forall i :: 0 <= i < |r| ==> IsConstant(r[i])
    decreases |s| - p
  {
    if p == |s| then []
    else
      match ConstMatchEnd(s, p)
      case Some(e) => [s[p..e]] + ConstMatches(s, e)
      case None => ConstMatches(s, p + 1)
  }

  /** Where the pattern matches, the scan reports that match and resumes
      after it. */
  lemma ConstScanTakes(s: string, p: nat, e: nat)
    requires p < e <= |s| && ConstMatchAt(s, p, e)
    ensures ConstMatches(s, p) == [s[p..e]] + ConstMatches(s, e)
  {
    ConstMatchEndFinds(s, p, e);
  }

  /** Where the pattern matches nothing, the scan moves on one character. */
  lemma ConstScanSkips(s: string, p: nat)
    requires p < |s| && forall e :: p < e <= |s| ==> !ConstMatchAt(s, p, e)
    ensures ConstMatches(s, p) == ConstMatches(s, p + 1)
  {
  }

  predicate IsStopWord(t: string) {
    t == "THE" || t == "AND" || t == "FOR"
  }

  /** The matches that are not THE, AND or FOR, in order. */
  function WithoutStopWords(xs: seq<string>): (r: seq<string>)
    ensures forall x :: x in r <==> x in xs && !IsStopWord(x)
  {
    if xs == [] then []
    else
      var rest := WithoutStopWords(xs[1..]);
      assert forall x :: x in xs <==> x == xs[0] || x in xs[1..] by {
        assert xs == [xs[0]] + xs[1..];
      }
      if IsStopWord(xs[0]) then rest else [xs[0]] + rest
  }

  /** `extract_constants(text)`: the distinct constants in increasing order,
      never THE, AND or FOR. */
  function ExtractConstants(text: string): (r: seq<string>)
    ensures StrictlySorted(r)
    ensures forall i :: 0 <= i < |r| ==> IsConstant(r[i]) && !IsStopWord(r[i])
    ensures forall x :: x in r <==> x in ConstMatches(text, 0) && !IsStopWord(x)
  {
    var r := SortedSet(WithoutStopWords(ConstMatches(text, 0)));
    assert forall i :: 0 <= i < |r| ==> r[i] in r;
    r
  }

  /** A text without an upper-case ASCII letter mentions no constant. */
  lemma {:induction false} NoUpperNoConstants(s: string, p: nat)
    requires p <= |s|
    requires forall i :: 0 <= i < |s| ==> !IsUpperAscii(s[i])
    ensures ConstMatches(s, p) == []
    decreases |s| - p
  {
    if p < |s| {
      NoUpperNoConstants(s, p + 1);
    }
  }
}
