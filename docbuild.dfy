/** From the section map of one rendered page to its document record
    (`parse_and_normalize_page` and its helpers, ingest_manpages.py:221-248,
    402-403, 582-668): names, title and aliases from the NAME section, the
    section number from the file name, the page name, the document id, the
    licence text and the subsection offsets. */
module DocBuild {
  import opened Strings
  import opened Common
  import opened Paths
  import opened Sections
  import opened Refs
  import opened NameSection

  /** The man-pages release the corpus is built from (`VERSION`). */
  const Version: string := "6.9"

  // ---------------------------------------------------------------------------
  // detect_section_from_filename
  // ---------------------------------------------------------------------------

  /** `\d[a-z]?` taken whole. */
  predicate IsSectionText(t: string) {
    (|t| == 1 && IsDigit(t[0])) || (|t| == 2 && IsDigit(t[0]) && IsLowerAscii(t[1]))
  }

  /** `re.search(r"\.(\d[a-z]?)$", name)`: the section after the last dot,
      if the name ends in one. */
  function SectionSuffix(name: string): (r: Option<string>)
    ensures r.Some? ==> IsSectionText(r.value) && EndsWith(name, "." + r.value)
  {
    var n := |name|;
    if n >= 3 && name[n - 3] == '.' && IsDigit(name[n - 2]) && IsLowerAscii(name[n - 1]) then
      assert name[n - 3..] == "." + name[n - 2..];
      Some(name[n - 2..])
    else if n >= 2 && name[n - 2] == '.' && IsDigit(name[n - 1]) then
      assert name[n - 2..] == "." + name[n - 1..];
      Some(name[n - 1..])
    else None
  }

  /** `detect_section_from_filename(path)`: the file suffix, else the
      directory `man<sec>`, else nothing. */
  function DetectSection(path: Path): (r: Option<string>)
    ensures r.Some? ==> IsSectionText(r.value)
  {
    match SectionSuffix(Name(path))
    case Some(s) => Some(s)
    case None =>
      var parent := Name(Parent(path));
      if |parent| >= 4 && parent[..3] == "man" && IsSectionText(parent[3..]) then Some(parent[3..])
      else None
  }

  /** A file named `<base>.<sec>` gets section `<sec>`. */
  lemma DetectSectionOfName(dir: Path, base: string, sec: string)
    requires IsSectionText(sec)
    ensures DetectSection(dir + [base + "." + sec]) == Some(sec)
  {
    var name := base + "." + sec;
    assert Name(dir + [name]) == name;
    var n := |name|;
    if |sec| == 1 {
      assert name[n - 2] == '.' && name[n - 1] == sec[0];
      assert name[n - 1..] == sec;
      if n >= 3 {
        assert !IsLowerAscii(name[n - 1]);
      }
    } else {
      assert name[n - 3] == '.' && name[n - 2] == sec[0] && name[n - 1] == sec[1];
      assert name[n - 2..] == sec;
    }
  }

  // ---------------------------------------------------------------------------
  // page name and document id
  // ---------------------------------------------------------------------------

  /** `[/\\:*?"<>|]`. */
  predicate IsUnsafeChar(c: char) {
    c == '/' || c == '\\' || c == ':' || c == '*' || c == '?' || c == '"' || c == '<' || c == '>' || c == '|'
  }

  /** `re.sub(r'[/\\:*?"<>|]', '_', name)`. */
  function ReplaceUnsafe(name: string): (r: string)
    ensures |r| == |name|
    ensures forall i :: 0 <= i < |r| ==> r[i] == if IsUnsafeChar(name[i]) then '_' else name[i]
  {
    seq(|name|, i requires 0 <= i < |name| => if IsUnsafeChar(name[i]) then '_' else name[i])
  }

  /** `s.strip('_')`. */
  function StripUnderscores(s: string): (r: string)
    ensures r == [] || (r[0] != '_' && r[|r| - 1] != '_')
    ensures |r| <= |s| && forall i :: 0 <= i < |r| ==> r[i] in s
    ensures s == [] || (s[0] != '_' && s[|s| - 1] != '_') ==> r == s
    decreases |s|
  {
    if s != [] && s[0] == '_' then
      var r := StripUnderscores(s[1..]);
      assert forall i :: 0 <= i < |r| ==> r[i] in s[1..] ==> r[i] in s;
      r
    else if s != [] && s[|s| - 1] == '_' then
      var r := StripUnderscores(s[..|s| - 1]);
      assert forall i :: 0 <= i < |r| ==> r[i] in s[..|s| - 1] ==> r[i] in s;
      r
    else s
  }

  /** The page name: the canonical name made file-system safe, or, without
      one, the file name up to its first dot. */
  function PageName(canonical: Option<string>, fileName: string): (r: string)
  {
    if canonical.Some? && canonical.value != [] then StripUnderscores(ReplaceUnsafe(canonical.value))
    else FirstDotField(Stem(fileName))
  }

  /** A page name taken from the canonical name holds none of `/\:*?"<>|`
      and neither starts nor ends with `_`; one taken from the file name has
      no dot and is the file name up to its first dot. */
  lemma PageNameShape(canonical: Option<string>, fileName: string)
    ensures var r := PageName(canonical, fileName);
      if canonical.Some? && canonical.value != [] then
        && (forall i :: 0 <= i < |r| ==> !IsUnsafeChar(r[i]))
        && (r == [] || (r[0] != '_' && r[|r| - 1] != '_'))
      else
        r == FirstDotField(fileName) && '.' !in r
  {
    if canonical.Some? && canonical.value != [] {
      var u := ReplaceUnsafe(canonical.value);
      assert forall c :: c in u ==> !IsUnsafeChar(c);
    } else {
      FirstDotFieldOfStem(fileName);
    }
  }

  /** `build_document_id(page_name, section_num)`: `man:<version>:<page>:<sec>`. */
  function DocumentId(pageName: string, section: string): string {
    "man:" + Version + ":" + pageName + ":" + section
  }

  /** An id splits back at `:` into `man`, the version, the page name and
      the section, when neither name nor section holds a colon. */
  lemma DocumentIdSplit(pageName: string, section: string)
    requires ':' !in pageName && ':' !in section
    ensures Split(DocumentId(pageName, section), ':') == ["man", Version, pageName, section]
  {
    DocumentIdParts(pageName, section);
    SplitNoSeparator("man", ':');
    SplitNoSeparator(Version, ':');
    SplitNoSeparator(pageName, ':');
    SplitNoSeparator(section, ':');
  }

  /** The parts of an id are those of its four fields. */
  lemma DocumentIdParts(pageName: string, section: string)
    ensures Split(DocumentId(pageName, section), ':')
         == Split("man", ':') + Split(Version, ':') + Split(pageName, ':') + Split(section, ':')
  {
    assert DocumentId(pageName, section) == "man" + [':'] + Version + [':'] + pageName + [':'] + section;
    SplitFour("man", Version, pageName, section, ':');
  }

  /** Four fields joined by a separator split back into their own parts. */
  lemma SplitFour(a: string, b: string, d: string, e: string, c: char)
    ensures Split(a + [c] + b + [c] + d + [c] + e, c) == Split(a, c) + Split(b, c) + Split(d, c) + Split(e, c)
  {
    var t3 := d + [c] + e;
    var t2 := b + [c] + t3;
    var x := a + [c] + b + [c] + d + [c] + e;
    var sa, sb, sd, se := Split(a, c), Split(b, c), Split(d, c), Split(e, c);
    assert Split(x, c) == sa + (sb + (sd + se)) by {
      assert x == a + [c] + t2;
      assert Split(t2, c) == sb + (sd + se) by {
        assert Split(t3, c) == sd + se by { SplitConcat(d, e, c); }
        SplitConcat(b, t3, c);
      }
      SplitConcat(a, t2, c);
    }
  }

  /** A page name with a colon, as the unsanitised file-name fallback can
      give, makes an id of more than four parts. */
  lemma ColonInPageNameGivesLongId(pageName: string, section: string)
    requires ':' in pageName
    ensures |Split(DocumentId(pageName, section), ':')| > 4
  {
    DocumentIdParts(pageName, section);
    SplitAtLeastTwo(pageName, ':');
  }

  // ---------------------------------------------------------------------------
  // licence text and subsections
  // ---------------------------------------------------------------------------

  /** Whether the section is present with a non-empty text (`if t:`). */
  predicate HasText(sections: seq<Entry>, key: string) {
    Lookup(sections, key).Some? && Lookup(sections, key).value != []
  }

  /** The licence: the COPYRIGHT text, else the COLOPHON text, cut to 2000
      characters. */
  function LicenseText(sections: seq<Entry>): (r: Option<string>)
    ensures r.None? <==> !HasText(sections, "COPYRIGHT") && !HasText(sections, "COLOPHON")
    ensures r.Some? ==> 0 < |r.value| <= 2000
    ensures HasText(sections, "COPYRIGHT") ==> r.Some? && r.value <= Lookup(sections, "COPYRIGHT").value
    ensures !HasText(sections, "COPYRIGHT") && HasText(sections, "COLOPHON") ==>
              r.Some? && r.value <= Lookup(sections, "COLOPHON").value
    ensures HasText(sections, "COPYRIGHT") && |Lookup(sections, "COPYRIGHT").value| <= 2000 ==>
              r == Lookup(sections, "COPYRIGHT")
  {
    if HasText(sections, "COPYRIGHT") then Some(PyPrefix(Lookup(sections, "COPYRIGHT").value, 2000))
    else if HasText(sections, "COLOPHON") then Some(PyPrefix(Lookup(sections, "COLOPHON").value, 2000))
    else None
  }

  datatype SubSection = SubSection(name: string, rawText: string, startOffset: nat)

  /** The `concatenated` accumulator: every section text followed by a blank
      line. */
  function Concatenated(sections: seq<Entry>): (c: string)
    ensures |c| == TextLengths(sections)
  {
    if sections == [] then []
    else Concatenated(sections[..|sections| - 1]) + sections[|sections| - 1].value + "\n\n"
  }

  /** The sum of `len(text) + 2` over the sections. */
  function TextLengths(sections: seq<Entry>): nat {
    if sections == [] then 0
    else TextLengths(sections[..|sections| - 1]) + |sections[|sections| - 1].value| + 2
  }

  /** The concatenation of a prefix of the sections is a prefix of the whole. */
  lemma {:induction false} ConcatenatedPrefix(sections: seq<Entry>, n: nat)
    requires n <= |sections|
    ensures Concatenated(sections[..n]) <= Concatenated(sections)
    decreases |sections| - n
  {
    if n < |sections| {
      ConcatenatedPrefix(sections, n + 1);
      assert sections[..n + 1][..n] == sections[..n];
    } else {
      assert sections[..n] == sections;
    }
  }

  /** Each section's text sits in the concatenation at its start offset. */
  lemma TextAtOffset(sections: seq<Entry>, i: nat)
    requires i < |sections|
    ensures var off := TextLengths(sections[..i]);
      var c := Concatenated(sections);
      off + |sections[i].value| <= |c| && c[off..off + |sections[i].value|] == sections[i].value
  {
    ConcatenatedPrefix(sections, i + 1);
    assert sections[..i + 1][..i] == sections[..i];
    var pre := Concatenated(sections[..i]);
    var v := sections[i].value;
    assert Concatenated(sections[..i + 1]) == pre + v + "\n\n";
    assert (pre + v + "\n\n")[|pre|..|pre| + |v|] == v;
  }

  /** The subsection list with offsets, as the loop over the section map
      builds it: each start offset is the length of `concatenated` so far. */
  method SubsectionsWithOffsets(sections: seq<Entry>) returns (subs: seq<SubSection>)
    ensures |subs| == |sections|
    ensures forall i :: 0 <= i < |subs| ==>
      subs[i] == SubSection(sections[i].key, sections[i].value, TextLengths(sections[..i]))
  {
    var concatenated := "";
    subs := [];
    var i := 0;
    while i < |sections|
      invariant 0 <= i <= |sections|
      invariant concatenated == Concatenated(sections[..i])
      invariant |subs| == i
      invariant forall j :: 0 <= j < i ==>
        subs[j] == SubSection(sections[j].key, sections[j].value, TextLengths(sections[..j]))
    {
      var start := |concatenated|;
      subs := subs + [SubSection(sections[i].key, sections[i].value, start)];
      ConcatenatedStep(sections, i);
      concatenated := concatenated + (sections[i].value + "\n\n");
      i := i + 1;
    }
  }

  lemma ConcatenatedStep(sections: seq<Entry>, i: nat)
    requires i < |sections|
    ensures Concatenated(sections[..i + 1]) == Concatenated(sections[..i]) + (sections[i].value + "\n\n")
  {
    TakeOneMore(sections, i);
    AppendAssoc(Concatenated(sections[..i]), sections[i].value, "\n\n");
  }

  // ---------------------------------------------------------------------------
  // the document record
  // ---------------------------------------------------------------------------

  /** The `ManDoc` record, without its creation timestamp. */
  datatype ManDoc = ManDoc(
    documentId: string,
    versionTag: string,
    pageName: string,
    section: string,
    title: Option<string>,
    aliases: seq<string>,
    seeAlso: seq<string>,
    sourcePath: string,
    licenseRef: Option<string>,
    licenseText: Option<string>,
    nameRaw: Option<string>,
    synopsisRaw: Option<string>,
    subsections: seq<SubSection>)

  /** `d.get(k, "")`. */
  function GetOrEmpty(sections: seq<Entry>, key: string): string {
    match Lookup(sections, key)
    case Some(t) => t
    case None => ""
  }

  /** `value or None`. */
  function NonEmpty(s: string): (r: Option<string>)
    ensures r.Some? <==> s != []
  {
    if s == [] then None else Some(s)
  }

  /** `md_text.replace("\r\n", "\n")`: each CR LF pair, taken left to
      right, becomes a line feed. */
  function ReplaceCrLf(s: string): (r: string)
    ensures |r| <= |s|
    ensures '\r' !in s ==> r == s
  {
    if |s| >= 2 && s[0] == '\r' && s[1] == '\n' then "\n" + ReplaceCrLf(s[2..])
    else if s == [] then []
    else [s[0]] + ReplaceCrLf(s[1..])
  }

  /** The replacement adds no character the text did not hold. */
  lemma {:induction false} ReplaceCrLfAddsNothing(s: string)
    ensures forall i :: 0 <= i < |ReplaceCrLf(s)| ==> ReplaceCrLf(s)[i] in s
  {
    if |s| >= 2 && s[0] == '\r' && s[1] == '\n' {
      var t := ReplaceCrLf(s[2..]);
      ReplaceCrLfAddsNothing(s[2..]);
      assert forall i :: 0 <= i < |t| ==> t[i] in s[2..] ==> t[i] in s;
      assert ReplaceCrLf(s) == "\n" + t;
    } else if s != [] {
      var t := ReplaceCrLf(s[1..]);
      ReplaceCrLfAddsNothing(s[1..]);
      assert forall i :: 0 <= i < |t| ==> t[i] in s[1..] ==> t[i] in s;
      assert ReplaceCrLf(s) == [s[0]] + t;
    }
  }

  /** The replacement works piece by piece wherever the cut does not split
      a CR LF pair. */
  lemma {:induction false} ReplaceCrLfAppend(a: string, b: string)
    requires a == [] || b == [] || !(a[|a| - 1] == '\r' && b[0] == '\n')
    ensures ReplaceCrLf(a + b) == ReplaceCrLf(a) + ReplaceCrLf(b)
  {
    var s := a + b;
    if a == [] {
      assert s == b;
    } else if |a| >= 2 && a[0] == '\r' && a[1] == '\n' {
      assert s[2..] == a[2..] + b;
      ReplaceCrLfAppend(a[2..], b);
      CrLfHead(s);
      CrLfHead(a);
      AppendAssoc("\n", ReplaceCrLf(a[2..]), ReplaceCrLf(b));
    } else {
      assert !(|s| >= 2 && s[0] == '\r' && s[1] == '\n') by {
        if |a| == 1 && b != [] {
          assert s[1] == b[0];
        }
      }
      assert s[1..] == a[1..] + b;
      ReplaceCrLfAppend(a[1..], b);
      OtherHead(s);
      OtherHead(a);
      AppendAssoc([a[0]], ReplaceCrLf(a[1..]), ReplaceCrLf(b));
    }
  }

  /** A leading CR LF pair becomes a line feed. */
  lemma CrLfHead(s: string)
    requires |s| >= 2 && s[0] == '\r' && s[1] == '\n'
    ensures ReplaceCrLf(s) == "\n" + ReplaceCrLf(s[2..])
  {
  }

  /** Any other leading character is copied. */
  lemma OtherHead(s: string)
    requires s != [] && !(|s| >= 2 && s[0] == '\r' && s[1] == '\n')
    ensures ReplaceCrLf(s) == [s[0]] + ReplaceCrLf(s[1..])
  {
  }

  /** A text without a CR LF pair is left unchanged. */
  lemma {:induction false} ReplaceCrLfNoPair(s: string)
    requires forall i :: 0 <= i < |s| - 1 ==> !(s[i] == '\r' && s[i + 1] == '\n')
    ensures ReplaceCrLf(s) == s
  {
    if s != [] {
      assert forall i :: 0 <= i < |s| - 2 ==> s[1..][i] == s[i + 1];
      ReplaceCrLfNoPair(s[1..]);
      assert s == [s[0]] + s[1..];
    }
  }

  /** Every CR LF pair becomes one line feed, and the texts around it are
      replaced on their own. */
  lemma ReplaceCrLfPair(a: string, b: string)
    ensures ReplaceCrLf(a + "\r\n" + b) == ReplaceCrLf(a) + "\n" + ReplaceCrLf(b)
  {
    var t := "\r\n" + b;
    assert a + "\r\n" + b == a + t;
    ReplaceCrLfAppend(a, t);
    assert t[0] == '\r' && t[1] == '\n' && t[2..] == b;
  }

  /** The record `parse_and_normalize_page` builds from the section map of a
      page at `path`. */
  function BuildManDoc(sections: seq<Entry>, path: Path, subs: seq<SubSection>): (d: ManDoc)
  {
    var info := ExtractNameInfo(GetOrEmpty(sections, "NAME"));
    var section := match DetectSection(path) case Some(s) => s case None => "0";
    var page := PageName(info.canonical, Name(path));
    ManDoc(
      DocumentId(page, section), Version, page, section, info.title, info.aliases,
      ExtractSeeAlsoRefs(GetOrEmpty(sections, "SEE ALSO")), Str(path), None,
      LicenseText(sections), NonEmpty(GetOrEmpty(sections, "NAME")),
      NonEmpty(GetOrEmpty(sections, "SYNOPSIS")), subs)
  }

  /** What the ingester keeps of one page: the record, the section map and
      the cleaned text. */
  datatype PageResult = PageResult(doc: ManDoc, sections: seq<Entry>, text: string)

  /** `parse_and_normalize_page(man_path, ...)`, with the renderer's output
      (`None` when every renderer failed) as input. */
  method ParseAndNormalizePage(rendered: Option<string>, path: Path) returns (r: Option<PageResult>)
    ensures r.Some? <==> rendered.Some?
    ensures r.Some? ==>
      var text := NormalizeWhitespace(ReplaceCrLf(rendered.value));
      var sections := ParseSections(text);
      && r.value.text == text
      && r.value.sections == sections
      && r.value.doc.documentId == DocumentId(r.value.doc.pageName, r.value.doc.section)
      && r.value.doc == BuildManDoc(sections, path, r.value.doc.subsections)
      && |r.value.doc.subsections| == |sections|
      && forall i :: 0 <= i < |sections| ==>
           r.value.doc.subsections[i] == SubSection(sections[i].key, sections[i].value, TextLengths(sections[..i]))
  {
    if rendered.None? {
      return None;
    }
    var md := ReplaceCrLf(rendered.value);
    var text := NormalizeWhitespacePreserveCode(md);
    var sections := ParseMarkdownSections(text);
    var subs := SubsectionsWithOffsets(sections);
    r := Some(PageResult(BuildManDoc(sections, path, subs), sections, text));
  }

}
