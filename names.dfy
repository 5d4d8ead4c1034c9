/** The NAME section of a manual page (`extract_name_title_aliases_from_name_section`,
    ingest_manpages.py:221-238): the first visible line, cut at the first
    spaced dash, gives the names (canonical first, then aliases) and the
    one-line title. */
module NameSection {
  import opened Strings
  import opened Common


  datatype NameInfo = NameInfo(canonical: Option<string>, title: Option<string>, aliases: seq<string>)

  /** The first line with a visible character, stripped: the loop stops at
      the first line that is not blank, and finds none when all are. */
  function FirstNonBlank(lines: seq<string>): (r: Option<string>)
    ensures r.Some? <==> FirstVisibleLine(lines).Some?
    ensures r.Some? ==> r.value == Strip(lines[FirstVisibleLine(lines).value])
    ensures r.Some? ==> r.value != [] && !IsSpace(r.value[0]) && !IsSpace(r.value[|r.value| - 1])
  {
    if lines == [] then None
    else if Strip(lines[0]) != [] then Some(Strip(lines[0]))
    else
      var r := FirstNonBlank(lines[1..]);
      FirstVisibleLater(lines);
      r
  }

  /** After a blank first line, the first visible line is one further on. */
  lemma FirstVisibleLater(lines: seq<string>)
    requires lines != [] && Blank(lines[0])
    ensures FirstVisibleLine(lines).Some? <==> FirstVisibleLine(lines[1..]).Some?
    ensures FirstVisibleLine(lines).Some? ==> FirstVisibleLine(lines).value == FirstVisibleLine(lines[1..]).value + 1
  {
    FirstWhereSkip(lines, Blank);
  }

  /** There is a first visible line exactly when some line is not blank. */
  lemma {:induction false} FirstNonBlankFound(lines: seq<string>)
    ensures FirstNonBlank(lines).None? <==> forall i :: 0 <= i < |lines| ==> AllSpace(lines[i])
  {
    if lines != [] {
      StripEmptyIffBlank(lines[0]);
      FirstNonBlankFound(lines[1..]);
      assert forall i :: 1 <= i < |lines| ==> lines[i] == lines[1..][i - 1];
    }
  }

  /** `[-—–]`. */
  predicate IsDashChar(c: char) {
    c == '-' || c == '—' || c == '–'
  }

  /** The end of a match of `\s+[-—–]\s+` starting at `p`: the whitespace
      run before the dash is taken whole (a dash is not whitespace), the run
      after it too. */
  function SepEnd(s: string, p: nat): (e: Option<nat>)
    requires p <= |s|
    ensures e.Some? ==> p < e.value <= |s|
  {
    if p < |s| && IsSpace(s[p]) then
      var q := RunEnd(s, p, IsSpace);
      if q + 1 < |s| && IsDashChar(s[q]) && IsSpace(s[q + 1]) then Some(RunEnd(s, q + 1, IsSpace)) else None
    else None
  }

  /** The leftmost separator at or after `p`, as (start, end). */
  function FindSep(s: string, p: nat): (r: Option<(nat, nat)>)
    requires p <= |s|
    ensures r.Some? ==> p <= r.value.0 < r.value.1 <= |s| && SepEnd(s, r.value.0) == Some(r.value.1)
    ensures r.Some? ==> forall j :: p <= j < r.value.0 ==> SepEnd(s, j).None?
    ensures r.None? ==> forall j :: p <= j <= |s| ==> SepEnd(s, j).None?
    decreases |s| - p
  {
    if p == |s| then None
    else if SepEnd(s, p).Some? then Some((p, SepEnd(s, p).value))
    else FindSep(s, p + 1)
  }

  /** A name as it is listed: visible at both ends, no comma. */
  predicate IsListedName(n: string) {
    n != [] && !IsSpace(n[0]) && !IsSpace(n[|n| - 1]) && ',' !in n
  }

  /** `[n.strip() for n in re.split(r",\s*", left) if n.strip()]`: the
      whitespace the separator takes is stripped anyway, so this is a split
      at commas. */
  function NameList(parts: seq<string>): (r: seq<string>)
    requires forall i :: 0 <= i < |parts| ==> ',' !in parts[i]
    ensures forall i :: 0 <= i < |r| ==> IsListedName(r[i])
  {
    if parts == [] then []
    else
      var s := Strip(parts[0]);
      var rest := NameList(parts[1..]);
      if s == [] then rest
      else
        assert IsListedName(s) by {
          NotInStrip(parts[0], ',');
        }
        [s] + rest
  }

  /** Stripping adds no character. */
  lemma NotInStrip(s: string, c: char)
    requires c !in s
    ensures c !in Strip(s)
  {
    var a := StripSlice(s);
    var t := Strip(s);
    forall i | 0 <= i < |t|
      ensures t[i] != c
    {
      assert t[i] == s[a + i];
    }
  }

  /** Names listed as `a, b, c` (after any leading whitespace) are read
      back as exactly those names. */
  lemma {:induction false} NamesRoundTrip(names: seq<string>, pad: string)
    requires AllSpace(pad)
    requires forall i :: 0 <= i < |names| ==> IsListedName(names[i])
    ensures NameList(Split(pad + Join(names, ", "), ',')) == names
  {
    if names == [] {
      NoNames(pad);
    } else if |names| == 1 {
      OneName(pad, names[0]);
      assert names == [names[0]];
    } else {
      NamesRoundTrip(names[1..], " ");
      FirstOfMany(pad, names);
    }
  }

  /** The first of several names is read back ahead of the others. */
  lemma FirstOfMany(pad: string, names: seq<string>)
    requires AllSpace(pad) && |names| >= 2
    requires forall i :: 0 <= i < |names| ==> IsListedName(names[i])
    requires NameList(Split(" " + Join(names[1..], ", "), ',')) == names[1..]
    ensures NameList(Split(pad + Join(names, ", "), ',')) == names
  {
    var tail := Split(" " + Join(names[1..], ", "), ',');
    SplitFirstName(pad, names);
    PaddedNameFirst(pad, names[0], tail);
    HeadTail(names);
  }

  /** A padded name ahead of other parts is read first. */
  lemma PaddedNameFirst(pad: string, n: string, tail: seq<string>)
    requires AllSpace(pad) && IsListedName(n)
    requires forall i :: 0 <= i < |tail| ==> ',' !in tail[i]
    ensures NameList([pad + n] + tail) == [n] + NameList(tail)
  {
    StripPadded(pad, n);
    NoCommaInPadded(pad, n);
    NameListCons(pad + n, n, tail);
  }

  /** The text splits at the comma after the first name. */
  lemma SplitFirstName(pad: string, names: seq<string>)
    requires AllSpace(pad) && |names| >= 2 && IsListedName(names[0])
    ensures Split(pad + Join(names, ", "), ',') == [pad + names[0]] + Split(" " + Join(names[1..], ", "), ',')
  {
    var n := names[0];
    var rest := Join(names[1..], ", ");
    assert pad + Join(names, ", ") == (pad + n) + [','] + (" " + rest);
    SplitConcat(pad + n, " " + rest, ',');
    NoCommaInPadded(pad, n);
    SplitNoSeparator(pad + n, ',');
  }

  /** A listed name after whitespace strips to itself. */
  lemma StripPadded(pad: string, n: string)
    requires AllSpace(pad) && IsListedName(n)
    ensures Strip(pad + n) == n
  {
    LStripPad(pad, n);
  }

  /** A blank list holds no name. */
  lemma NoNames(pad: string)
    requires AllSpace(pad)
    ensures NameList(Split(pad + Join([], ", "), ',')) == []
  {
    assert pad + Join([], ", ") == pad;
    assert ',' !in pad by {
      assert !IsSpace(',');
    }
    SplitNoSeparator(pad, ',');
    StripEmptyIffBlank(pad);
    assert [pad][1..] == [];
  }

  /** A single listed name is read back. */
  lemma OneName(pad: string, n: string)
    requires AllSpace(pad) && IsListedName(n)
    ensures NameList(Split(pad + Join([n], ", "), ',')) == [n]
  {
    assert pad + Join([n], ", ") == pad + n;
    NoCommaInPadded(pad, n);
    SplitNoSeparator(pad + n, ',');
    StripPadded(pad, n);
    NameListCons(pad + n, n, []);
    assert [n] + [] == [n];
  }

  lemma NoCommaInPadded(pad: string, n: string)
    requires AllSpace(pad) && IsListedName(n)
    ensures ',' !in pad + n
  {
    assert !IsSpace(',');
    assert forall i :: |pad| <= i < |pad + n| ==> (pad + n)[i] == n[i - |pad|];
  }

  /** A part that strips to a name contributes that name. */
  lemma NameListCons(x: string, n: string, tail: seq<string>)
    requires ',' !in x && Strip(x) == n && n != []
    requires forall i :: 0 <= i < |tail| ==> ',' !in tail[i]
    ensures NameList([x] + tail) == [n] + NameList(tail)
  {
    assert ([x] + tail)[1..] == tail;
  }

  /** Leading whitespace is all that `lstrip` removes. */
  lemma {:induction false} LStripPad(pad: string, s: string)
    requires AllSpace(pad)
    requires s == [] || !IsSpace(s[0])
    ensures LStrip(pad + s) == s
  {
    if pad != [] {
      assert (pad + s)[1..] == pad[1..] + s;
      LStripPad(pad[1..], s);
    }
  }

  /** `extract_name_title_aliases_from_name_section(text)`: the first visible
      line is read by `NameLineInfo`. */
  function ExtractNameInfo(text: string): (r: NameInfo)
    ensures r.canonical.None? ==> r.aliases == []
    ensures r.canonical.Some? ==> IsListedName(r.canonical.value)
    ensures forall i :: 0 <= i < |r.aliases| ==> IsListedName(r.aliases[i])
  {
    if text == [] then NameInfo(None, None, [])
    else
      match FirstNonBlank(SplitLines(text))
      case None => NameInfo(None, None, [])
      case Some(line) => NameLineInfo(line)
  }

  /** A blank NAME section yields neither names nor title. */
  lemma BlankNameSection(text: string)
    requires AllSpace(text)
    ensures ExtractNameInfo(text) == NameInfo(None, None, [])
  {
    if text != [] {
      BlankTextBlankLines(text);
      FirstNonBlankFound(SplitLines(text));
    }
  }

  /** One NAME line: cut at the first spaced dash into names and title. */
  function NameLineInfo(line: string): (r: NameInfo)
    ensures r.title.Some? <==> FindSep(line, 0).Some?
    ensures r.canonical.None? ==> r.aliases == []
    ensures r.canonical.Some? ==> IsListedName(r.canonical.value)
    ensures forall i :: 0 <= i < |r.aliases| ==> IsListedName(r.aliases[i])
  {
    Assemble(ReadNames(NamesPart(line)), TitlePart(line))
  }

  /** The text before the first separator, or the whole line. */
  function NamesPart(line: string): string {
    match FindSep(line, 0)
    case None => line
    case Some((a, _)) => line[..a]
  }

  /** The stripped text after the first separator, if there is one. */
  function TitlePart(line: string): (t: Option<string>)
    ensures t.Some? <==> FindSep(line, 0).Some?
  {
    match FindSep(line, 0)
    case None => None
    case Some((_, b)) => Some(Strip(line[b..]))
  }

  /** `[n.strip() for n in re.split(r",\s*", left.strip()) if n.strip()]`. */
  function ReadNames(left: string): (r: seq<string>)
    ensures forall i :: 0 <= i < |r| ==> IsListedName(r[i])
  {
    NameList(Split(Strip(left), ','))
  }

  /** The first name is the canonical one, the others are aliases. */
  function Assemble(names: seq<string>, title: Option<string>): (r: NameInfo)
    requires forall i :: 0 <= i < |names| ==> IsListedName(names[i])
    ensures r.title == title
    ensures r.canonical.None? <==> names == []
    ensures r.canonical.None? ==> r.aliases == []
    ensures r.canonical.Some? ==> [r.canonical.value] + r.aliases == names
  {
    if names == [] then NameInfo(None, title, [])
    else NameInfo(Some(names[0]), title, names[1..])
  }

  /** Every line of a blank text is blank. */
  lemma BlankTextBlankLines(text: string)
    ensures AllSpace(text) ==> forall i :: 0 <= i < |SplitLines(text)| ==> AllSpace(SplitLines(text)[i])
  {
    if AllSpace(text) {
      var lines := SplitLines(text);
      SplitLinesJoin(text);
      var j := Join(lines, "\n");
      assert j <= text;
      forall i | 0 <= i < |lines|
        ensures AllSpace(lines[i])
      {
        var k := JoinOffset(lines, "\n", i);
        assert forall m :: 0 <= m < |lines[i]| ==> lines[i][m] == j[k + m] == text[k + m];
      }
    }
  }
}
