/** Clean-up of the Markdown a renderer produced and its split into named
    sections (`normalize_whitespace_preserve_code` and
    `parse_markdown_sections`, ingest_manpages.py:183-219). */
module Sections {
  import opened Strings
  import opened Common

  // ---------------------------------------------------------------------------
  // normalize_whitespace_preserve_code
  // ---------------------------------------------------------------------------

  /** `re.match(r"^```", line)`: the line opens or closes a code fence. */
  predicate IsFence(line: string) {
    StartsWith(line, "```")
  }

  /** The `in_fence` toggle after reading `lines`. */
  function InFenceAfter(lines: seq<string>): bool {
    if lines == [] then false
    else
      var before := InFenceAfter(lines[..|lines| - 1]);
      if IsFence(lines[|lines| - 1]) then !before else before
  }

  /** The toggle is on exactly when an odd number of fence lines was read. */
  lemma {:induction false} InFenceParity(lines: seq<string>)
    ensures InFenceAfter(lines) <==> CountWhere(lines, IsFence) % 2 == 1
  {
    if lines != [] {
      InFenceParity(lines[..|lines| - 1]);
    }
  }

  /** A prose line after clean-up: no whitespace at either end, no whitespace
      other than single spaces. */
  predicate IsTidyProse(s: string) {
    && (s == [] || (!IsSpace(s[0]) && !IsSpace(s[|s| - 1])))
    && (forall i :: 0 <= i < |s| && IsSpace(s[i]) ==> s[i] == ' ')
    && (forall i :: 0 <= i < |s| - 1 ==> !(IsSpace(s[i]) && IsSpace(s[i + 1])))
  }

  /** One line of `normalize_whitespace_preserve_code`: fence lines and code
      lines (inside a fence, or indented by four spaces) only lose their
      trailing whitespace; prose is stripped and its whitespace runs become
      single spaces. */
  function NormalizeLine(line: string, inFence: bool): (r: string)
    ensures r == [] || !IsSpace(r[|r| - 1])
    ensures IsFence(line) || inFence || StartsWith(line, "    ") ==> r <= line && AllSpace(line[|r|..])
    ensures !(IsFence(line) || inFence || StartsWith(line, "    ")) ==> IsTidyProse(r)
    ensures NonSpace(r) == NonSpace(line)
  {
    if IsFence(line) || inFence || StartsWith(line, "    ") then
      CodeLineKept(line);
      RStrip(line)
    else
      ProseLineTidied(line);
      ReplaceSpaceRuns(Strip(line), ' ')
  }

  /** A code line loses only trailing whitespace. */
  lemma CodeLineKept(line: string)
    ensures var r := RStrip(line); r <= line && AllSpace(line[|r|..]) && NonSpace(r) == NonSpace(line)
  {
    RStripDropsSpace(line);
    NonSpaceRStrip(line);
  }

  /** A prose line comes out tidy, with the same visible characters. */
  lemma ProseLineTidied(line: string)
    ensures var r := ReplaceSpaceRuns(Strip(line), ' '); IsTidyProse(r) && NonSpace(r) == NonSpace(line)
  {
    var s := Strip(line);
    TidyOfStripped(s);
    NonSpaceStrip(line);
    ReplaceSpaceRunsKeepsText(s, ' ');
  }

  lemma TidyOfStripped(s: string)
    requires s == [] || (!IsSpace(s[0]) && !IsSpace(s[|s| - 1]))
    ensures IsTidyProse(ReplaceSpaceRuns(s, ' '))
  {
    var r := ReplaceSpaceRuns(s, ' ');
    if s != [] {
      ReplaceSpaceRunsLast(s, ' ');
    }
  }

  /** A text ending in a visible character still does after its runs are
      replaced by a visible or space character. */
  lemma {:induction false} ReplaceSpaceRunsLast(s: string, c: char)
    requires s != [] && !IsSpace(s[|s| - 1])
    ensures var r := ReplaceSpaceRuns(s, c); r != [] && !IsSpace(r[|r| - 1])
    decreases |s|
  {
    if IsSpace(s[0]) {
      var t := LStrip(s[1..]);
      LStripDropsSpace(s[1..]);
      assert s[1..][|s| - 2] == s[|s| - 1];
      assert t != [];
      assert t[|t| - 1] == s[|s| - 1];
      ReplaceSpaceRunsLast(t, c);
    } else if |s| > 1 {
      ReplaceSpaceRunsLast(s[1..], c);
    }
  }

  /** The lines of the clean-up before they are joined: each line normalised
      under the fence state the lines before it left. */
  function NormalizeLines(lines: seq<string>): (r: seq<string>)
    ensures |r| == |lines|
  {
    if lines == [] then []
    else
      var init := lines[..|lines| - 1];
      NormalizeLines(init) + [NormalizeLine(lines[|lines| - 1], InFenceAfter(init))]
  }

  /** No three line breaks in a row, that is no run of two blank lines. */
  predicate NoBlankRun(s: string) {
    forall i :: 0 <= i < |s| - 2 ==> !(s[i] == '\n' && s[i + 1] == '\n' && s[i + 2] == '\n')
  }

  /** `re.sub(r"\n{3,}", "\n\n", s)`, where `run` line breaks were just kept:
      a run of line breaks keeps at most two of them. */
  function CapNewlines(s: string, run: nat): (r: string)
    requires run <= 2
    ensures NoBlankRun(r)
    ensures run == 2 ==> r == [] || r[0] != '\n'
    ensures run == 1 ==> !(|r| >= 2 && r[0] == '\n' && r[1] == '\n')
    ensures |r| <= |s|
  {
    if s == [] then []
    else if s[0] != '\n' then [s[0]] + CapNewlines(s[1..], 0)
    else if run == 2 then CapNewlines(s[1..], 2)
    else "\n" + CapNewlines(s[1..], run + 1)
  }

  /** A text with no run of three line breaks is left as it is. */
  lemma {:induction false} CapNewlinesKeepsShortRuns(s: string, run: nat)
    requires run <= 2 && NoBlankRun(s)
    requires run == 2 ==> s == [] || s[0] != '\n'
    requires run == 1 ==> !(|s| >= 2 && s[0] == '\n' && s[1] == '\n')
    ensures CapNewlines(s, run) == s
  {
    if s != [] {
      var next := if s[0] != '\n' then 0 else run + 1;
      CapNewlinesKeepsShortRuns(s[1..], next);
      assert s == [s[0]] + s[1..];
    }
  }

  /** Collapsing blank-line runs twice is collapsing them once. */
  lemma CapNewlinesIdempotent(s: string)
    ensures CapNewlines(CapNewlines(s, 0), 0) == CapNewlines(s, 0)
  {
    CapNewlinesKeepsShortRuns(CapNewlines(s, 0), 0);
  }

  /** `normalize_whitespace_preserve_code(text)`. */
  function NormalizeWhitespace(text: string): (r: string)
  {
    Strip(CapNewlines(Join(NormalizeLines(SplitLines(text)), "\n"), 0))
  }

  /** A stripped slice of a text without a blank-line run has none either. */
  lemma NoBlankRunSlice(s: string, a: nat, b: nat)
    requires a <= b <= |s| && NoBlankRun(s)
    ensures NoBlankRun(s[a..b])
  {
    var t := s[a..b];
    assert forall i :: 0 <= i < |t| ==> t[i] == s[a + i];
  }

  /** The cleaned text is stripped and has no run of two blank lines. */
  lemma NormalizeWhitespaceShape(text: string)
    ensures var r := NormalizeWhitespace(text);
      && (r == [] || (!IsSpace(r[0]) && !IsSpace(r[|r| - 1])))
      && NoBlankRun(r)
  {
    StripKeepsNoBlankRun(CapNewlines(Join(NormalizeLines(SplitLines(text)), "\n"), 0));
  }

  lemma StripKeepsNoBlankRun(c: string)
    requires NoBlankRun(c)
    ensures NoBlankRun(Strip(c))
  {
    var a := StripSlice(c);
    NoBlankRunSlice(c, a, a + |Strip(c)|);
  }

  /** One more line: its normalised form is appended and the toggle flips on
      a fence line. */
  lemma NormalizeLinesStep(lines: seq<string>, i: nat)
    requires i < |lines|
    ensures NormalizeLines(lines[..i + 1])
         == NormalizeLines(lines[..i]) + [NormalizeLine(lines[i], InFenceAfter(lines[..i]))]
    ensures InFenceAfter(lines[..i + 1])
         == if IsFence(lines[i]) then !InFenceAfter(lines[..i]) else InFenceAfter(lines[..i])
  {
    assert lines[..i + 1][..i] == lines[..i];
  }

  /** The clean-up as the source performs it: one pass over the lines with the
      fence toggle, then the join, the blank-run collapse and the strip. */
  method NormalizeWhitespacePreserveCode(text: string) returns (out: string)
    ensures out == NormalizeWhitespace(text)
    ensures NoBlankRun(out)
    ensures out == [] || (!IsSpace(out[0]) && !IsSpace(out[|out| - 1]))
  {
    var normalized := NormalizeEachLine(SplitLines(text));
    out := Join(normalized, "\n");
    out := CapNewlines(out, 0);
    out := Strip(out);
    NormalizeWhitespaceShape(text);
  }

  /** The line loop of the clean-up, with its `in_fence` toggle. */
  method NormalizeEachLine(lines: seq<string>) returns (normalized: seq<string>)
    ensures normalized == NormalizeLines(lines)
  {
    normalized := [];
    var inFence := false;
    var i := 0;
    while i < |lines|
      invariant 0 <= i <= |lines|
      invariant inFence == InFenceAfter(lines[..i])
      invariant normalized == NormalizeLines(lines[..i])
    {
      var line := lines[i];
      NormalizeLinesStep(lines, i);
      var norm: string;
      if IsFence(line) {
        norm := RStrip(line);
      } else if inFence || StartsWith(line, "    ") {
        norm := RStrip(line);
      } else {
        norm := ReplaceSpaceRuns(Strip(line), ' ');
      }
      assert norm == NormalizeLine(line, inFence);
      normalized := normalized + [norm];
      if IsFence(line) {
        inFence := !inFence;
      }
      i := i + 1;
    }
    assert lines[..i] == lines;
  }

  // ---------------------------------------------------------------------------
  // headings
  // ---------------------------------------------------------------------------

  /** Length of the run of `#` that starts the text. */
  function LeadingHashes(s: string): (n: nat)
    ensures n <= |s|
    ensures forall i :: 0 <= i < n ==> s[i] == '#'
    ensures n == |s| || s[n] != '#'
  {
    if s != [] && s[0] == '#' then 1 + LeadingHashes(s[1..]) else 0
  }

  /** The key `parse_markdown_sections` files a line under when it matches
      `^\s{0,3}#{1,6}\s+([^\n#].*?)\s*$`: the heading text, stripped and
      upper-cased. */
  function HeadingKey(line: string): (r: Option<string>)
    ensures r.Some? ==> forall i :: 0 <= i < |r.value| ==> !IsLowerAscii(r.value[i])
    ensures r.Some? ==> r.value == [] || (!IsSpace(r.value[0]) && !IsSpace(r.value[|r.value| - 1]))
  {
    match HeadingTail(line)
    case None => None
    case Some(tail) => Some(HeadingText(tail))
  }

  /** The text after the hashes of a heading line, if the line is one. The
      match needs at most three leading whitespace characters, one to six
      `#`, and then either two or more whitespace characters or one followed
      by something other than `#`. */
  function HeadingTail(line: string): Option<string> {
    var rest := LStrip(line);
    var lead := |line| - |rest|;
    var h := LeadingHashes(rest);
    var tail := rest[h..];
    var gap := |tail| - |LStrip(tail)|;
    if lead > 3 || h == 0 || h > 6 || gap == 0 then None
    else if gap == 1 && (|tail| == 1 || tail[1] == '#') then None
    else Some(tail)
  }

  /** `text.strip().upper()`. */
  function HeadingText(text: string): (k: string)
    ensures forall i :: 0 <= i < |k| ==> !IsLowerAscii(k[i])
    ensures k == [] || (!IsSpace(k[0]) && !IsSpace(k[|k| - 1]))
  {
    var s := Strip(text);
    if s == [] then []
    else
      UpperKeepsVisibleEnds(s);
      Upper(s)
  }

  lemma UpperKeepsVisibleEnds(s: string)
    requires s != [] && !IsSpace(s[0]) && !IsSpace(s[|s| - 1])
    ensures !IsSpace(Upper(s)[0]) && !IsSpace(Upper(s)[|s| - 1])
  {
    UpperCharSpace(s[0]);
    UpperCharSpace(s[|s| - 1]);
  }

  /** A line without `#` is never a heading. */
  lemma NoHashNoHeading(line: string)
    requires '#' !in line
    ensures HeadingKey(line) == None
  {
    var rest := LStrip(line);
    if rest != [] {
      assert rest[0] == line[|line| - |rest|];
    }
  }

  /** `n` hashes (one to six), a space and a visible name that does not start
      with `#` make a heading filed under the upper-cased name. */
  lemma HeadingOfHashes(n: nat, name: string)
    requires 1 <= n <= 6
    requires name != [] && name[0] != '#'
    requires !IsSpace(name[0]) && !IsSpace(name[|name| - 1])
    ensures HeadingKey(seq(n, _ => '#') + " " + name) == Some(Upper(name))
  {
    var hashes: string := seq(n, _ => '#');
    assert HeadingTail(hashes + " " + name) == Some(" " + name) by {
      TailOfHashes(hashes, name);
    }
    assert HeadingText(" " + name) == Upper(name) by {
      TextOfSpacedName(name);
    }
  }

  lemma TailOfHashes(hashes: string, name: string)
    requires 1 <= |hashes| <= 6 && forall i :: 0 <= i < |hashes| ==> hashes[i] == '#'
    requires name != [] && name[0] != '#' && !IsSpace(name[0])
    ensures HeadingTail(hashes + " " + name) == Some(" " + name)
  {
    var tail := " " + name;
    var line := hashes + tail;
    assert hashes + " " + name == line by {
      AppendAssoc(hashes, " ", name);
    }
    assert LStrip(line) == line by {
      assert line[0] == '#';
      LStripOfStripped(line);
    }
    assert LeadingHashes(line) == |hashes| by {
      LeadingHashesOf(hashes, tail);
    }
    assert line[|hashes|..] == tail by {
      SplitAppend(hashes, tail);
    }
    assert LStrip(tail) == name by {
      SplitAppend(" ", name);
      LStripOfStripped(name);
    }
  }

  lemma TextOfSpacedName(name: string)
    requires name != [] && !IsSpace(name[0]) && !IsSpace(name[|name| - 1])
    ensures HeadingText(" " + name) == Upper(name)
  {
    assert Strip(" " + name) == name by {
      assert (" " + name)[1..] == name;
      LStripOfStripped(name);
      StripIdempotentOnStripped(name);
    }
  }

  lemma {:induction false} LeadingHashesOf(hashes: string, s: string)
    requires forall i :: 0 <= i < |hashes| ==> hashes[i] == '#'
    requires s == [] || s[0] != '#'
    ensures LeadingHashes(hashes + s) == |hashes|
  {
    if hashes != [] {
      assert (hashes + s)[1..] == hashes[1..] + s;
      LeadingHashesOf(hashes[1..], s);
    } else {
      assert hashes + s == s;
    }
  }

  // ---------------------------------------------------------------------------
  // the ordered section map
  // ---------------------------------------------------------------------------

  /** One entry of the `OrderedDict` from section name to section text. */
  datatype Entry = Entry(key: string, value: string)

  /** The keys in their order. */
  function Keys(d: seq<Entry>): (ks: seq<string>)
    ensures |ks| == |d|
    ensures forall i :: 0 <= i < |d| ==> ks[i] == d[i].key
  {
    if d == [] then [] else Keys(d[..|d| - 1]) + [d[|d| - 1].key]
  }

  predicate DistinctKeys(d: seq<Entry>) {
    forall i, j :: 0 <= i < j < |d| ==> d[i].key != d[j].key
  }

  /** `d.get(k)`. */
  function Lookup(d: seq<Entry>, k: string): (r: Option<string>)
    ensures r.None? <==> k !in Keys(d)
  {
    if d == [] then None
    else if d[|d| - 1].key == k then Some(d[|d| - 1].value)
    else Lookup(d[..|d| - 1], k)
  }

  /** `d[k] = v` on an `OrderedDict`: a key already present keeps its place and
      takes the new value; a new key goes last. */
  function Put(d: seq<Entry>, k: string, v: string): (r: seq<Entry>)
    ensures Keys(r) == Keys(d) + (if k in Keys(d) then [] else [k])
  {
    if k !in Keys(d) then d + [Entry(k, v)]
    else
      var init := d[..|d| - 1];
      var last := d[|d| - 1];
      assert Keys(d) == Keys(init) + [last.key];
      if last.key == k then init + [Entry(k, v)]
      else
        var r := Put(init, k, v) + [last];
        assert r[..|r| - 1] == Put(init, k, v);
        r
  }

  /** After `d[k] = v`, `k` maps to `v` and every other key to what it did. */
  lemma {:induction false} PutLookup(d: seq<Entry>, k: string, v: string, k': string)
    ensures Lookup(Put(d, k, v), k') == if k' == k then Some(v) else Lookup(d, k')
  {
    if k in Keys(d) {
      var init := d[..|d| - 1];
      var last := d[|d| - 1];
      assert Keys(d) == Keys(init) + [last.key];
      if last.key != k {
        PutLookup(init, k, v, k');
        var r := Put(init, k, v) + [last];
        assert r[..|r| - 1] == Put(init, k, v);
      }
    }
  }

  /** Setting a key never makes two entries share a key. */
  lemma PutDistinct(d: seq<Entry>, k: string, v: string)
    requires DistinctKeys(d)
    ensures DistinctKeys(Put(d, k, v))
  {
    var r := Put(d, k, v);
    var ks := Keys(d);
    assert forall i, j :: 0 <= i < j < |ks| ==> ks[i] != ks[j];
    assert forall i :: 0 <= i < |r| ==> r[i].key == Keys(r)[i];
  }

  /** The order-preserving duplicate removal: each element at its first
      appearance. */
  function Dedup(xs: seq<string>): (r: seq<string>)
    ensures forall x :: x in r <==> x in xs
    ensures forall i, j :: 0 <= i < j < |r| ==> r[i] != r[j]
  {
    if xs == [] then []
    else
      var init := Dedup(xs[..|xs| - 1]);
      assert forall x :: x in xs <==> x in xs[..|xs| - 1] || x == xs[|xs| - 1];
      if xs[|xs| - 1] in xs[..|xs| - 1] then init else init + [xs[|xs| - 1]]
  }

  // ---------------------------------------------------------------------------
  // parse_markdown_sections
  // ---------------------------------------------------------------------------

  /** The loop variables of `parse_markdown_sections`: the sections filed so
      far, the heading being read (`None` before the first) and its lines. */
  datatype ParseState = ParseState(sections: seq<Entry>, current: Option<string>, buf: seq<string>)

  const Start := ParseState([], None, [])

  /** A heading recognizer: the key a line is filed under, if it is a
      heading. The parser uses `HeadingKey`; the lemmas about the loop hold
      for any recognizer. */
  type Recognizer = string -> Option<string>

  /** `"\n".join(buf).strip()`. */
  function SectionText(buf: seq<string>): string {
    Strip(Join(buf, "\n"))
  }

  /** One line: a heading files the open section (if any) and opens a new one
      without clearing the lines read before the first heading; any other line
      joins the open buffer. */
  function Step(st: ParseState, line: string, key: Recognizer): ParseState {
    match key(line)
    case Some(k) =>
      if st.current.Some? then ParseState(Put(st.sections, st.current.value, SectionText(st.buf)), Some(k), [])
      else ParseState(st.sections, Some(k), st.buf)
    case None => ParseState(st.sections, st.current, st.buf + [line])
  }

  /** The state after reading `lines` from `st`. */
  function Run(st: ParseState, lines: seq<string>, key: Recognizer): ParseState {
    if lines == [] then st else Step(Run(st, lines[..|lines| - 1], key), lines[|lines| - 1], key)
  }

  /** The last section is filed after the loop. */
  function Finish(st: ParseState): seq<Entry> {
    if st.current.Some? then Put(st.sections, st.current.value, SectionText(st.buf)) else st.sections
  }

  /** `parse_markdown_sections(md_text)`; the final copy into a fresh
      `OrderedDict` keeps order and values. */
  function ParseSections(md: string): seq<Entry> {
    Finish(Run(Start, SplitLines(md), HeadingKey))
  }

  /** The heading keys of the lines, in order, repeats included. */
  function HeadingKeys(lines: seq<string>, key: Recognizer): seq<string> {
    if lines == [] then []
    else
      var init := HeadingKeys(lines[..|lines| - 1], key);
      match key(lines[|lines| - 1])
      case Some(k) => init + [k]
      case None => init
  }

  /** What the parse state knows about the headings read so far: before the
      first, nothing is filed; afterwards, filing the open heading would give
      the headings in order of first appearance. */
  ghost predicate Tracks(st: ParseState, lines: seq<string>, key: Recognizer) {
    var hs := HeadingKeys(lines, key);
    && DistinctKeys(st.sections)
    && (st.current.None? ==> st.sections == [] && hs == [])
    && (st.current.Some? ==>
          hs != [] && hs[|hs| - 1] == st.current.value
          && Keys(st.sections) + (if st.current.value in Keys(st.sections) then [] else [st.current.value])
             == Dedup(hs))
  }

  lemma {:induction false} RunTracks(lines: seq<string>, key: Recognizer)
    ensures Tracks(Run(Start, lines, key), lines, key)
  {
    if lines != [] {
      var init := lines[..|lines| - 1];
      RunTracks(init, key);
      TracksStep(Run(Start, init, key), init, lines[|lines| - 1], key);
      assert init + [lines[|lines| - 1]] == lines;
    }
  }

  /** One more line keeps the state in step with the headings. */
  lemma TracksStep(st: ParseState, init: seq<string>, line: string, key: Recognizer)
    requires Tracks(st, init, key)
    ensures Tracks(Step(st, line, key), init + [line], key)
  {
    var lines := init + [line];
    assert lines[..|lines| - 1] == init;
    var hs := HeadingKeys(init, key);
    match key(line)
    case Some(k) =>
      assert HeadingKeys(lines, key) == hs + [k];
      DedupSnoc(hs, k);
      if st.current.Some? {
        TracksFiled(st.sections, st.current.value, SectionText(st.buf), hs, k);
      }
    case None =>
      assert HeadingKeys(lines, key) == hs;
  }

  /** A heading after an open one: the open section is filed, and the keys
      still follow the headings. */
  lemma TracksFiled(sections: seq<Entry>, c: string, text: string, hs: seq<string>, k: string)
    requires DistinctKeys(sections)
    requires Keys(sections) + (if c in Keys(sections) then [] else [c]) == Dedup(hs)
    ensures DistinctKeys(Put(sections, c, text))
    ensures var s2 := Put(sections, c, text);
      Keys(s2) + (if k in Keys(s2) then [] else [k]) == Dedup(hs + [k])
  {
    PutDistinct(sections, c, text);
    DedupSnoc(hs, k);
  }

  /** Appending an element adds it to the deduplicated list unless it was
      there already. */
  lemma DedupSnoc(xs: seq<string>, x: string)
    ensures Dedup(xs + [x]) == if x in xs then Dedup(xs) else Dedup(xs) + [x]
  {
    assert (xs + [x])[..|xs|] == xs;
  }

  /** The keys of the parsed map are the heading texts, stripped and
      upper-cased, in order of first appearance; none repeats. */
  lemma ParseSectionsKeys(md: string)
    ensures Keys(ParseSections(md)) == Dedup(HeadingKeys(SplitLines(md), HeadingKey))
    ensures DistinctKeys(ParseSections(md))
  {
    RunTracks(SplitLines(md), HeadingKey);
    var st := Run(Start, SplitLines(md), HeadingKey);
    if st.current.Some? {
      PutDistinct(st.sections, st.current.value, SectionText(st.buf));
    }
  }

  /** Text without a heading gives an empty map. */
  lemma ParseSectionsNoHeading(md: string)
    requires HeadingKeys(SplitLines(md), HeadingKey) == []
    ensures ParseSections(md) == []
  {
    ParseSectionsKeys(md);
  }

  /** Lines that are not headings only add to the open buffer. */
  lemma {:induction false} RunPlain(st: ParseState, lines: seq<string>, key: Recognizer)
    requires HeadingKeys(lines, key) == []
    ensures Run(st, lines, key) == ParseState(st.sections, st.current, st.buf + lines)
  {
    if lines == [] {
      assert st.buf + lines == st.buf;
    } else {
      var init := lines[..|lines| - 1];
      var last := lines[|lines| - 1];
      assert key(last).None?;
      RunPlain(st, init, key);
      assert st.buf + init + [last] == st.buf + lines;
    }
  }

  lemma {:induction false} RunAppend(st: ParseState, a: seq<string>, b: seq<string>, key: Recognizer)
    ensures Run(st, a + b, key) == Run(Run(st, a, key), b, key)
    decreases |b|
  {
    if b == [] {
      assert a + b == a;
    } else {
      assert (a + b)[..|a + b| - 1] == a + b[..|b| - 1];
      RunAppend(st, a, b[..|b| - 1], key);
    }
  }

  /** Lines before the only heading are not dropped: they open the text of
      the first section, ahead of the lines under the heading. */
  lemma PreambleJoinsFirstSection(pre: seq<string>, heading: string, body: seq<string>, key: Recognizer, k: string)
    requires HeadingKeys(pre, key) == [] && HeadingKeys(body, key) == []
    requires key(heading) == Some(k)
    ensures Finish(Run(Start, pre + [heading] + body, key)) == [Entry(k, SectionText(pre + body))]
  {
    RunAppend(Start, pre + [heading], body, key);
    RunAppend(Start, pre, [heading], key);
    RunPlain(Start, pre, key);
    assert Run(Start, pre, key) == ParseState([], None, pre);
    assert [heading][..0] == [];
    assert Run(Start, pre + [heading], key) == ParseState([], Some(k), pre);
    RunPlain(ParseState([], Some(k), pre), body, key);
  }

  lemma RunSnoc(lines: seq<string>, i: nat, key: Recognizer)
    requires i < |lines|
    ensures Run(Start, lines[..i + 1], key) == Step(Run(Start, lines[..i], key), lines[i], key)
  {
    assert lines[..i + 1][..i] == lines[..i];
  }

  /** `parse_markdown_sections` as the source performs it: one pass with the
      `current` and `buf` variables, then the last section is filed. */
  method ParseMarkdownSections(mdText: string) returns (sections: seq<Entry>)
    ensures sections == ParseSections(mdText)
    ensures Keys(sections) == Dedup(HeadingKeys(SplitLines(mdText), HeadingKey))
    ensures DistinctKeys(sections)
  {
    var current: Option<string>, buf: seq<string>;
    sections, current, buf := ReadSectionLines(SplitLines(mdText));
    if current.Some? {
      sections := Put(sections, current.value, Strip(Join(buf, "\n")));
    }
    ParseSectionsKeys(mdText);
  }

  /** The line loop of `parse_markdown_sections`. */
  method ReadSectionLines(lines: seq<string>) returns (sections: seq<Entry>, current: Option<string>, buf: seq<string>)
    ensures ParseState(sections, current, buf) == Run(Start, lines, HeadingKey)
  {
    sections := [];
    current := None;
    buf := [];
    var i := 0;
    while i < |lines|
      invariant 0 <= i <= |lines|
      invariant Run(Start, lines[..i], HeadingKey) == ParseState(sections, current, buf)
    {
      RunSnoc(lines, i, HeadingKey);
      sections, current, buf := ReadSectionLine(sections, current, buf, lines[i]);
      i := i + 1;
    }
    TakeAll(lines, i);
  }

  /** One iteration: a heading files the open section and opens its own;
      any other line is kept in the buffer. */
  method ReadSectionLine(sections: seq<Entry>, current: Option<string>, buf: seq<string>, line: string)
    returns (sections': seq<Entry>, current': Option<string>, buf': seq<string>)
    ensures ParseState(sections', current', buf') == Step(ParseState(sections, current, buf), line, HeadingKey)
  {
    sections', current', buf' := sections, current, buf;
    var h := HeadingKey(line);
    if h.Some? {
      if current.Some? {
        sections' := Put(sections, current.value, Strip(Join(buf, "\n")));
        buf' := [];
      }
      current' := Some(h.value);
    } else {
      buf' := buf + [line];
    }
  }
}
