/** Python string primitives the pipeline relies on, stated over `seq<char>`:
    whitespace (`str.strip`, regex `\s`), line splitting, `str.join`,
    `str.split`, ASCII case mapping, code-point string order with
    `sorted(set(...))`, and the `{n:02d}` number format. */
module Strings {
  import opened Common

  /** Python's `str.isspace` / regex `\s`: U+0009..U+000D, U+001C..U+0020,
      U+0085, U+00A0, U+1680, U+2000..U+200A, U+2028, U+2029, U+202F, U+205F
      and U+3000. */
  predicate IsSpace(c: char) {
    var n := c as int;
    if n <= 0x20 then n >= 0x1C || 0x09 <= n <= 0x0D
    else if n < 0x85 then false
    else (n == 0x85 || n == 0xA0 || n == 0x1680 || 0x2000 <= n <= 0x200A
          || n == 0x2028 || n == 0x2029 || n == 0x202F || n == 0x205F || n == 0x3000)
  }

  predicate AllSpace(s: string) {
    forall i :: 0 <= i < |s| ==> IsSpace(s[i])
  }

  /** The ASCII digits; regex `\d` on `str` also admits every other Unicode
      decimal digit, which this model leaves out. */
  predicate IsDigit(c: char) { '0' <= c <= '9' }
  predicate IsLowerAscii(c: char) { 'a' <= c <= 'z' }
  predicate IsUpperAscii(c: char) { 'A' <= c <= 'Z' }

  /** The ASCII part of regex `\w`: letters, digits and underscore. Python's
      `\w` on `str` also admits every other Unicode letter and digit, which
      this model leaves out. */
  predicate IsWordChar(c: char) {
    IsLowerAscii(c) || IsUpperAscii(c) || IsDigit(c) || c == '_'
  }

  predicate StartsWith(s: string, p: string) {
    |p| <= |s| && s[..|p|] == p
  }

  predicate EndsWith(s: string, p: string) {
    |p| <= |s| && s[|s| - |p|..] == p
  }

  // ---------------------------------------------------------------------------
  // strip / lstrip / rstrip
  // ---------------------------------------------------------------------------

  /** `s.lstrip()`: drops the leading whitespace and nothing else. */
  function LStrip(s: string): (r: string)
    ensures |r| <= |s| && r == s[|s| - |r|..]
    ensures r == [] || !IsSpace(r[0])
  {
    if s != [] && IsSpace(s[0]) then LStrip(s[1..]) else s
  }

  /** `s.rstrip()`: drops the trailing whitespace and nothing else. */
  function RStrip(s: string): (r: string)
    ensures |r| <= |s| && r == s[..|r|]
    ensures r == [] || !IsSpace(r[|r| - 1])
  {
    if s != [] && IsSpace(s[|s| - 1]) then RStrip(s[..|s| - 1]) else s
  }

  /** What `lstrip` drops is whitespace. */
  lemma {:induction false} LStripDropsSpace(s: string)
    ensures AllSpace(s[..|s| - |LStrip(s)|])
  {
    if s != [] && IsSpace(s[0]) {
      LStripDropsSpace(s[1..]);
      assert s[1..][..|s| - 1 - |LStrip(s)|] == s[1..|s| - |LStrip(s)|];
    }
  }

  /** What `rstrip` drops is whitespace. */
  lemma {:induction false} RStripDropsSpace(s: string)
    ensures AllSpace(s[|RStrip(s)|..])
  {
    if s != [] && IsSpace(s[|s| - 1]) {
      RStripDropsSpace(s[..|s| - 1]);
      assert s[..|s| - 1][|RStrip(s)|..] == s[|RStrip(s)|..|s| - 1];
    }
  }

  /** `s.strip()`. */
  function Strip(s: string): (r: string)
    ensures r == [] || (!IsSpace(r[0]) && !IsSpace(r[|r| - 1]))
  {
    var l := LStrip(s);
    var r := RStrip(l);
    assert r != [] ==> r[0] == l[0];
    r
  }

  /** The stripped text is a slice of the text. */
  lemma StripSlice(s: string) returns (a: nat)
    ensures a + |Strip(s)| <= |s| && Strip(s) == s[a..a + |Strip(s)|]
  {
    var l := LStrip(s);
    var r := RStrip(l);
    a := |s| - |l|;
    assert s[a..][..|r|] == s[a..a + |r|];
  }

  /** A line that strips to nothing. */
  predicate Blank(line: string) {
    Strip(line) == []
  }

  /** The index of the first line that is not blank once stripped. */
  function FirstVisibleLine(lines: seq<string>): (r: Option<nat>)
    ensures r.Some? ==> r.value < |lines| && !Blank(lines[r.value])
    ensures r.Some? ==> forall j :: 0 <= j < r.value ==> Blank(lines[j])
    ensures r.None? ==> forall j :: 0 <= j < |lines| ==> Blank(lines[j])
  {
    FirstWhere(lines, Blank)
  }

  /** The index of the first element that fails `skip`; kept generic so that
      the proof does not look into `Blank`. */
  function FirstWhere<T>(s: seq<T>, skip: T -> bool): (r: Option<nat>)
    ensures r.Some? ==> r.value < |s| && !skip(s[r.value])
    ensures r.Some? ==> forall j :: 0 <= j < r.value ==> skip(s[j])
    ensures r.None? ==> forall j :: 0 <= j < |s| ==> skip(s[j])
  {
    if s == [] then None
    else if !skip(s[0]) then Some(0)
    else
      var r := FirstWhere(s[1..], skip);
      assert forall j :: 1 <= j < |s| ==> s[1..][j - 1] == s[j];
      if r.None? then None else Some(r.value + 1)
  }

  /** Skipping a first element moves the found index on by one. */
  lemma FirstWhereSkip<T>(s: seq<T>, skip: T -> bool)
    requires s != [] && skip(s[0])
    ensures FirstWhere(s, skip).Some? <==> FirstWhere(s[1..], skip).Some?
    ensures FirstWhere(s, skip).Some? ==> FirstWhere(s, skip).value == FirstWhere(s[1..], skip).value + 1
  {
  }

  /** Stripping leaves nothing exactly when the text is blank. */
  lemma StripEmptyIffBlank(s: string)
    ensures Strip(s) == [] <==> AllSpace(s)
  {
    var l := LStrip(s);
    LStripDropsSpace(s);
    if l != [] {
      RStripDropsSpace(l);
      assert l == l[..|RStrip(l)|] + l[|RStrip(l)|..];
    }
  }

  lemma StripIdempotentOnStripped(s: string)
    requires s == [] || (!IsSpace(s[0]) && !IsSpace(s[|s| - 1]))
    ensures Strip(s) == s
  {
  }

  lemma LStripOfStripped(s: string)
    requires s == [] || !IsSpace(s[0])
    ensures LStrip(s) == s
  {
  }

  /** `re.sub(r"\s+", c, s)`: each maximal whitespace run becomes one `c`. */
  function ReplaceSpaceRuns(s: string, c: char): (r: string)
    ensures forall i :: 0 <= i < |r| && IsSpace(r[i]) ==> r[i] == c
    ensures forall i :: 0 <= i < |r| - 1 ==> !(IsSpace(r[i]) && IsSpace(r[i + 1]))
    ensures s != [] && !IsSpace(s[0]) ==> r != [] && r[0] == s[0]
    decreases |s|
  {
    if s == [] then []
    else if IsSpace(s[0]) then [c] + ReplaceSpaceRuns(LStrip(s[1..]), c)
    else [s[0]] + ReplaceSpaceRuns(s[1..], c)
  }

  /** A text without whitespace has no run to replace. */
  lemma {:induction false} ReplaceSpaceRunsOfSpaceless(s: string, c: char)
    requires forall i :: 0 <= i < |s| ==> !IsSpace(s[i])
    ensures ReplaceSpaceRuns(s, c) == s
  {
    if s != [] {
      ReplaceSpaceRunsOfSpaceless(s[1..], c);
      assert s == [s[0]] + s[1..];
    }
  }

  /** The visible characters of a text, in order. */
  function NonSpace(s: string): (r: string)
    ensures forall i :: 0 <= i < |r| ==> !IsSpace(r[i])
  {
    if s == [] then [] else (if IsSpace(s[0]) then [] else [s[0]]) + NonSpace(s[1..])
  }

  lemma {:induction false} NonSpaceAppend(a: string, b: string)
    ensures NonSpace(a + b) == NonSpace(a) + NonSpace(b)
  {
    if a == [] {
      assert a + b == b;
    } else {
      assert (a + b)[1..] == a[1..] + b;
      NonSpaceAppend(a[1..], b);
    }
  }

  lemma {:induction false} NonSpaceOfBlank(s: string)
    requires AllSpace(s)
    ensures NonSpace(s) == []
  {
    if s != [] {
      NonSpaceOfBlank(s[1..]);
    }
  }

  /** `strip` drops whitespace only: the visible characters stay. */
  lemma NonSpaceStrip(s: string)
    ensures NonSpace(Strip(s)) == NonSpace(s)
  {
    var l := LStrip(s);
    LStripDropsSpace(s);
    assert s == s[..|s| - |l|] + l;
    NonSpaceAppend(s[..|s| - |l|], l);
    NonSpaceOfBlank(s[..|s| - |l|]);
    var r := RStrip(l);
    RStripDropsSpace(l);
    assert l == r + l[|r|..];
    NonSpaceAppend(r, l[|r|..]);
    NonSpaceOfBlank(l[|r|..]);
  }

  /** `lstrip` keeps the visible characters. */
  lemma NonSpaceLStrip(s: string)
    ensures NonSpace(LStrip(s)) == NonSpace(s)
  {
    var l := LStrip(s);
    LStripDropsSpace(s);
    assert s == s[..|s| - |l|] + l;
    NonSpaceAppend(s[..|s| - |l|], l);
    NonSpaceOfBlank(s[..|s| - |l|]);
  }

  /** `rstrip` keeps the visible characters. */
  lemma NonSpaceRStrip(s: string)
    ensures NonSpace(RStrip(s)) == NonSpace(s)
  {
    var r := RStrip(s);
    RStripDropsSpace(s);
    assert s == r + s[|r|..];
    NonSpaceAppend(r, s[|r|..]);
    NonSpaceOfBlank(s[|r|..]);
  }

  /** Replacing whitespace runs by a whitespace character keeps the
      visible characters, in order. */
  lemma {:induction false} ReplaceSpaceRunsKeepsText(s: string, c: char)
    requires IsSpace(c)
    ensures NonSpace(ReplaceSpaceRuns(s, c)) == NonSpace(s)
    decreases |s|
  {
    if s != [] {
      if IsSpace(s[0]) {
        var t := LStrip(s[1..]);
        ReplaceSpaceRunsKeepsText(t, c);
        NonSpaceLStrip(s[1..]);
        NonSpaceAppend([c], ReplaceSpaceRuns(t, c));
      } else {
        ReplaceSpaceRunsKeepsText(s[1..], c);
        NonSpaceAppend([s[0]], ReplaceSpaceRuns(s[1..], c));
      }
    }
  }

  /** `lstrip` of a whitespace run followed by a visible character (or by
      nothing) drops exactly the run. */
  lemma {:induction false} LStripRun(sp: string, t: string)
    requires AllSpace(sp) && (t == [] || !IsSpace(t[0]))
    ensures LStrip(sp + t) == t
  {
    if sp == [] {
      assert sp + t == t;
    } else {
      assert (sp + t)[1..] == sp[1..] + t;
      LStripRun(sp[1..], t);
    }
  }

  /** `re.sub(r"\s+", c, ...)` piece by piece: a stretch without whitespace
      and the whole whitespace run after it become the stretch and one `c`. */
  lemma ReplaceSpaceRunsStep(w: string, sp: string, t: string, c: char)
    requires forall i :: 0 <= i < |w| ==> !IsSpace(w[i])
    requires sp != [] && AllSpace(sp)
    requires t == [] || !IsSpace(t[0])
    ensures ReplaceSpaceRuns(w + sp + t, c) == w + [c] + ReplaceSpaceRuns(t, c)
  {
    AppendAssoc(w, sp, t);
    SpacelessCopied(w, sp + t, c);
    SpaceRunReplaced(sp, t, c);
    AppendAssoc(w, [c], ReplaceSpaceRuns(t, c));
  }

  /** A stretch without whitespace is copied as it is. */
  lemma {:induction false} SpacelessCopied(w: string, b: string, c: char)
    requires forall i :: 0 <= i < |w| ==> !IsSpace(w[i])
    ensures ReplaceSpaceRuns(w + b, c) == w + ReplaceSpaceRuns(b, c)
  {
    if w == [] {
      assert w + b == b;
    } else {
      var x := w + b;
      assert x[0] == w[0] && x[1..] == w[1..] + b;
      SpacelessCopied(w[1..], b, c);
      assert ReplaceSpaceRuns(x, c) == [w[0]] + ReplaceSpaceRuns(x[1..], c);
      AppendAssoc([w[0]], w[1..], ReplaceSpaceRuns(b, c));
    }
  }

  /** A whole whitespace run becomes one `c`. */
  lemma SpaceRunReplaced(sp: string, t: string, c: char)
    requires sp != [] && AllSpace(sp)
    requires t == [] || !IsSpace(t[0])
    ensures ReplaceSpaceRuns(sp + t, c) == [c] + ReplaceSpaceRuns(t, c)
  {
    var x := sp + t;
    assert IsSpace(x[0]) && x[1..] == sp[1..] + t;
    LStripRun(sp[1..], t);
  }

  /** Regex `\b` at position `p`: a word character on exactly one side. */
  predicate WordBoundary(s: string, p: nat)
    requires p <= |s|
  {
    (p > 0 && IsWordChar(s[p - 1])) != (p < |s| && IsWordChar(s[p]))
  }

  /** Where the run of characters satisfying `ok` that starts at `p` ends. */
  function RunEnd(s: string, p: nat, ok: char -> bool): (q: nat)
    requires p <= |s|
    ensures p <= q <= |s|
    ensures forall i :: p <= i < q ==> ok(s[i])
    ensures q == |s| || !ok(s[q])
    decreases |s| - p
  {
    if p < |s| && ok(s[p]) then RunEnd(s, p + 1, ok) else p
  }

  /** A run that stops where `ok` first fails. */
  lemma {:induction false} RunEndAt(s: string, p: nat, q: nat, ok: char -> bool)
    requires p <= q <= |s|
    requires forall i :: p <= i < q ==> ok(s[i])
    requires q == |s| || !ok(s[q])
    ensures RunEnd(s, p, ok) == q
    decreases q - p
  {
    if p < q {
      RunEndAt(s, p + 1, q, ok);
    }
  }

  // ---------------------------------------------------------------------------
  // split / join / splitlines
  // ---------------------------------------------------------------------------

  /** `sep.join(parts)`. */
  function Join(parts: seq<string>, sep: string): (r: string)
  {
    if parts == [] then []
    else if |parts| == 1 then parts[0]
    else parts[0] + sep + Join(parts[1..], sep)
  }

  lemma {:induction false} JoinAppend(parts: seq<string>, x: string, sep: string)
    requires parts != []
    ensures Join(parts + [x], sep) == Join(parts, sep) + sep + x
  {
    if |parts| == 1 {
      assert parts + [x] == [parts[0], x];
    } else {
      assert (parts + [x])[1..] == parts[1..] + [x];
      JoinAppend(parts[1..], x, sep);
    }
  }

  /** Where the `i`-th element of the list starts in its join. */
  function JoinOffset(parts: seq<string>, sep: string, i: nat): (k: nat)
    requires i < |parts|
    ensures k + |parts[i]| <= |Join(parts, sep)|
    ensures Join(parts, sep)[k..k + |parts[i]|] == parts[i]
  {
    if i == 0 then 0
    else
      var k := JoinOffset(parts[1..], sep, i - 1);
      var j := Join(parts, sep);
      assert j == (parts[0] + sep) + Join(parts[1..], sep);
      assert j[|parts[0]| + |sep| + k..|parts[0]| + |sep| + k + |parts[i]|]
          == Join(parts[1..], sep)[k..k + |parts[i]|];
      |parts[0]| + |sep| + k
  }

  /** A join of texts of which one has a visible character has one too. */
  lemma JoinNotBlank(parts: seq<string>, sep: string, i: nat)
    requires i < |parts| && !AllSpace(parts[i])
    ensures !AllSpace(Join(parts, sep))
  {
    var j := Join(parts, sep);
    var k := JoinOffset(parts, sep, i);
    var m :| 0 <= m < |parts[i]| && !IsSpace(parts[i][m]);
    assert j[k + m] == parts[i][m];
  }

  /** `s.split(c)` for a one-character separator: always at least one part. */
  function Split(s: string, c: char): (r: seq<string>)
    ensures |r| >= 1
    ensures forall i :: 0 <= i < |r| ==> c !in r[i]
  {
    if s == [] then [[]]
    else if s[0] == c then [[]] + Split(s[1..], c)
    else
      var rest := Split(s[1..], c);
      [[s[0]] + rest[0]] + rest[1..]
  }

  /** Splitting and joining back with the separator gives the text back. */
  lemma {:induction false} JoinSplit(s: string, c: char)
    ensures Join(Split(s, c), [c]) == s
  {
    if s == [] {
    } else if s[0] == c {
      JoinSplit(s[1..], c);
    } else {
      var rest := Split(s[1..], c);
      JoinSplit(s[1..], c);
      if |rest| == 1 {
      } else {
        assert ([[s[0]] + rest[0]] + rest[1..])[1..] == rest[1..];
        assert Join(rest, [c]) == rest[0] + [c] + Join(rest[1..], [c]);
      }
    }
  }

  /** Splitting a text without the separator yields just that text. */
  lemma {:induction false} SplitNoSeparator(s: string, c: char)
    requires c !in s
    ensures Split(s, c) == [s]
  {
    if s != [] {
      SplitNoSeparator(s[1..], c);
      assert [s[0]] + s[1..] == s;
    }
  }

  /** The first part of a split is the text before the first separator. */
  lemma {:induction false} SplitFirst(s: string, c: char)
    ensures Split(s, c)[0] <= s
    ensures |Split(s, c)[0]| == |s| || s[|Split(s, c)[0]|] == c
  {
    if s != [] && s[0] != c {
      SplitFirst(s[1..], c);
    }
  }

  /** Splitting at a separator splits the two sides independently. */
  lemma {:induction false} SplitConcat(a: string, b: string, c: char)
    ensures Split(a + [c] + b, c) == Split(a, c) + Split(b, c)
  {
    var x := a + [c] + b;
    if a == [] {
      assert x[1..] == b;
    } else {
      assert x[1..] == a[1..] + [c] + b;
      SplitConcat(a[1..], b, c);
      var rest := Split(a[1..], c);
      var sb := Split(b, c);
      if a[0] != c {
        assert Split(x, c) == Split(a, c) + sb by {
          assert (rest + sb)[0] == rest[0];
          assert (rest + sb)[1..] == rest[1..] + sb;
        }
      } else {
        assert Split(x, c) == Split(a, c) + sb;
      }
    }
  }

  /** A text holding the separator splits into at least two parts. */
  lemma {:induction false} SplitAtLeastTwo(s: string, c: char)
    requires c in s
    ensures |Split(s, c)| >= 2
  {
    if s[0] != c {
      SplitAtLeastTwo(s[1..], c);
    }
  }

  /** `s.splitlines()` with `\n` as the line break: a final line break does not
      start an empty last line, and the empty text has no lines. */
  function SplitLines(s: string): (r: seq<string>)
    ensures forall i :: 0 <= i < |r| ==> '\n' !in r[i]
    ensures s == [] <==> r == []
  {
    if s == [] then []
    else
      var parts := Split(s, '\n');
      if s[|s| - 1] == '\n' then
        SplitEndsEmpty(s);
        parts[..|parts| - 1]
      else parts
  }

  lemma {:induction false} SplitEndsEmpty(s: string)
    requires s != [] && s[|s| - 1] == '\n'
    ensures |Split(s, '\n')| >= 2 && Split(s, '\n')[|Split(s, '\n')| - 1] == []
  {
    if |s| == 1 {
    } else if s[0] == '\n' {
      SplitEndsEmpty(s[1..]);
    } else {
      SplitEndsEmpty(s[1..]);
    }
  }

  /** Joining the lines back with `\n` restores the text, up to one final line
      break. */
  lemma SplitLinesJoin(s: string)
    ensures var j := Join(SplitLines(s), "\n");
            j == s || (s == j + "\n")
  {
    if s != [] {
      var parts := Split(s, '\n');
      JoinSplit(s, '\n');
      if s[|s| - 1] == '\n' {
        SplitEndsEmpty(s);
        var n := |parts|;
        assert parts == parts[..n - 1] + [parts[n - 1]];
        JoinAppend(parts[..n - 1], [], "\n");
      }
    }
  }

  /** A text without line breaks is a single line. */
  lemma SplitLinesSingle(s: string)
    requires s != [] && '\n' !in s
    ensures SplitLines(s) == [s]
  {
    SplitNoSeparator(s, '\n');
  }

  // ---------------------------------------------------------------------------
  // case mapping (ASCII)
  // ---------------------------------------------------------------------------

  function UpperChar(c: char): char {
    if IsLowerAscii(c) then (c as int - 32) as char else c
  }

  /** Upper-casing never turns whitespace into a visible character or back. */
  lemma UpperCharSpace(c: char)
    ensures IsSpace(UpperChar(c)) == IsSpace(c)
  {
  }

  function LowerChar(c: char): char {
    if IsUpperAscii(c) then (c as int + 32) as char else c
  }

  /** `s.upper()`. */
  function Upper(s: string): (r: string)
    ensures |r| == |s|
    ensures forall i :: 0 <= i < |s| ==> r[i] == UpperChar(s[i])
    ensures forall i :: 0 <= i < |s| ==> !IsLowerAscii(r[i])
  {
    seq(|s|, i requires 0 <= i < |s| => UpperChar(s[i]))
  }

  /** `s.lower()`. */
  function Lower(s: string): (r: string)
    ensures |r| == |s|
    ensures forall i :: 0 <= i < |s| ==> r[i] == LowerChar(s[i])
  {
    seq(|s|, i requires 0 <= i < |s| => LowerChar(s[i]))
  }

  // ---------------------------------------------------------------------------
  // code-point order and sorted(set(...))
  // ---------------------------------------------------------------------------

  /** Python's `<` on strings: lexicographic by code point. */
  predicate Less(a: string, b: string) {
    if a == [] then b != []
    else if b == [] then false
    else if a[0] != b[0] then a[0] < b[0]
    else Less(a[1..], b[1..])
  }

  lemma {:induction false} LessIrreflexive(a: string)
    ensures !Less(a, a)
  {
    if a != [] { LessIrreflexive(a[1..]); }
  }

  lemma {:induction false} LessTransitive(a: string, b: string, c: string)
    requires Less(a, b) && Less(b, c)
    ensures Less(a, c)
  {
    if a != [] && b != [] && c != [] && a[0] == b[0] && b[0] == c[0] {
      LessTransitive(a[1..], b[1..], c[1..]);
    }
  }

  lemma {:induction false} LessTotal(a: string, b: string)
    requires a != b
    ensures Less(a, b) || Less(b, a)
  {
    if a != [] && b != [] && a[0] == b[0] {
      assert a == [a[0]] + a[1..] && b == [b[0]] + b[1..];
      LessTotal(a[1..], b[1..]);
    }
  }

  predicate StrictlySorted(s: seq<string>) {
    forall i, j :: 0 <= i < j < |s| ==> Less(s[i], s[j])
  }

  /** Puts `x` into a strictly increasing list unless it is already there. */
  function Insert(s: seq<string>, x: string): (r: seq<string>)
    requires StrictlySorted(s)
    ensures StrictlySorted(r)
    ensures forall y :: y in r <==> y in s || y == x
  {
    if s == [] then [x]
    else if s[0] == x then s
    else if Less(x, s[0]) then
      assert forall j :: 0 < j < |s| ==> Less(x, s[j]) by {
        forall j | 0 < j < |s| ensures Less(x, s[j]) { LessTransitive(x, s[0], s[j]); }
      }
      [x] + s
    else
      LessTotal(x, s[0]);
      var t := Insert(s[1..], x);
      assert forall y :: y in s <==> y == s[0] || y in s[1..] by {
        assert s == [s[0]] + s[1..];
      }
      assert forall j :: 0 <= j < |t| ==> Less(s[0], t[j]) by {
        forall j | 0 <= j < |t| ensures Less(s[0], t[j]) {
          assert t[j] in t;
          if t[j] != x {
            var m :| 0 <= m < |s[1..]| && s[1..][m] == t[j];
            assert s[m + 1] == t[j];
          }
        }
      }
      [s[0]] + t
  }

  /** `sorted(set(xs))`: the distinct elements in increasing order. */
  function SortedSet(xs: seq<string>): (r: seq<string>)
    ensures StrictlySorted(r)
    ensures forall y :: y in r <==> y in xs
  {
    if xs == [] then []
    else
      var r := Insert(SortedSet(xs[..|xs| - 1]), xs[|xs| - 1]);
      assert forall y :: y in xs <==> y in xs[..|xs| - 1] || y == xs[|xs| - 1] by {
        assert xs == xs[..|xs| - 1] + [xs[|xs| - 1]];
      }
      r
  }

  /** A strictly increasing list never repeats an element. */
  lemma StrictlySortedDistinct(s: seq<string>)
    requires StrictlySorted(s)
    ensures forall i, j :: 0 <= i < j < |s| ==> s[i] != s[j]
  {
    forall i, j | 0 <= i < j < |s| ensures s[i] != s[j] {
      LessIrreflexive(s[i]);
    }
  }

  // ---------------------------------------------------------------------------
  // decimal numbers and the `{n:02d}` format
  // ---------------------------------------------------------------------------

  function DigitChar(d: nat): char
    requires d < 10
  {
    ('0' as int + d) as char
  }

  function DigitValue(c: char): nat {
    if IsDigit(c) then c as int - '0' as int else 0
  }

  /** `str(n)` for a natural number. */
  function DecimalString(n: nat): (r: string)
    ensures |r| >= 1
    ensures forall i :: 0 <= i < |r| ==> IsDigit(r[i])
    decreases n
  {
    if n < 10 then [DigitChar(n)] else DecimalString(n / 10) + [DigitChar(n % 10)]
  }

  /** `int(s)` for a string of decimal digits. */
  function ParseDecimal(s: string): nat {
    if s == [] then 0 else ParseDecimal(s[..|s| - 1]) * 10 + DigitValue(s[|s| - 1])
  }

  lemma {:induction false} ParseDecimalString(n: nat)
    ensures ParseDecimal(DecimalString(n)) == n
    decreases n
  {
    if n >= 10 {
      var r := DecimalString(n);
      assert r[..|r| - 1] == DecimalString(n / 10);
      ParseDecimalString(n / 10);
    }
  }

  /** `f"{n:02d}"`: at least two digits, zero-padded. */
  function Pad2(n: nat): (r: string)
    ensures |r| >= 2
    ensures forall i :: 0 <= i < |r| ==> IsDigit(r[i])
  {
    if n < 10 then ['0', DigitChar(n)] else DecimalString(n)
  }

  /** The two-digit format reads back as the number it was made from, so
      distinct numbers give distinct texts. */
  lemma Pad2RoundTrip(n: nat)
    ensures ParseDecimal(Pad2(n)) == n
  {
    if n < 10 {
      var r := Pad2(n);
      assert r[..1] == ['0'];
      assert ['0'][..0] == [];
      assert ParseDecimal(['0']) == 0;
    } else {
      ParseDecimalString(n);
    }
  }

  lemma Pad2Injective(m: nat, n: nat)
    requires Pad2(m) == Pad2(n)
    ensures m == n
  {
    Pad2RoundTrip(m);
    Pad2RoundTrip(n);
  }
}
