/** The NAME line read back: a line written as `a, b, c — title` yields
    exactly those names, canonical first, and that title. */
module NameLineProps {
  import opened Strings
  import opened Common
  import opened NameSection

  /** A name as pages list it in NAME: a listed name without whitespace
      that does not start with a dash. */
  predicate IsToken(n: string) {
    IsListedName(n) && (forall i :: 0 <= i < |n| ==> !IsSpace(n[i])) && !IsDashChar(n[0])
  }

  predicate AllTokens(names: seq<string>) {
    names != [] && forall i :: 0 <= i < |names| ==> IsToken(names[i])
  }

  /** A title as it follows the dash: visible at both ends, on one line. */
  predicate IsTitleText(t: string) {
    t != [] && !IsSpace(t[0]) && !IsSpace(t[|t| - 1]) && '\n' !in t
  }

  /** A names part: visible at both ends, on one line, and unable to hold a
      separator. */
  predicate IsNamesPart(left: string) {
    left != [] && !IsSpace(left[0]) && !IsSpace(left[|left| - 1]) && SpacesBeforeWords(left) && '\n' !in left
  }

  /** Every whitespace character is followed by a visible one that is not a
      dash, so no separator starts inside. */
  predicate SpacesBeforeWords(s: string) {
    forall j :: 0 <= j < |s| - 1 ==> SpaceBeforeWord(s, j)
  }

  predicate SpaceBeforeWord(s: string, j: nat)
    requires j + 1 < |s|
  {
    IsSpace(s[j]) ==> !IsSpace(s[j + 1]) && !IsDashChar(s[j + 1])
  }

  /** The shape of `a, b, c` for tokens. */
  lemma {:induction false} JoinTokensShape(names: seq<string>)
    requires AllTokens(names)
    ensures IsNamesPart(Join(names, ", "))
  {
    var left := Join(names, ", ");
    assert IsSpace('\n');
    if |names| == 1 {
      forall j | 0 <= j < |left| - 1
        ensures SpaceBeforeWord(left, j)
      {
      }
    } else {
      var n := names[0];
      var r := Join(names[1..], ", ");
      JoinTokensShape(names[1..]);
      assert left == n + ", " + r;
      assert forall k :: 0 <= k < |n| ==> left[k] == n[k];
      assert left[|n|] == ',' && left[|n| + 1] == ' ';
      assert forall k :: |n| + 2 <= k < |left| ==> left[k] == r[k - |n| - 2];
      forall j | 0 <= j < |left| - 1
        ensures SpaceBeforeWord(left, j)
      {
        if j >= |n| + 2 {
          assert SpaceBeforeWord(r, j - |n| - 2);
        }
      }
    }
  }

  /** A NAME line written as `a, b, c — title` is read back: the first name
      is canonical, the others are aliases, and the title is what follows
      the dash. */
  lemma NameLineRoundTrip(names: seq<string>, title: string)
    requires AllTokens(names)
    requires IsTitleText(title)
    ensures ExtractNameInfo(Join(names, ", ") + " — " + title) == NameInfo(Some(names[0]), Some(title), names[1..])
  {
    JoinTokensShape(names);
    NamesReadBack(names);
    NameLineOf(Join(names, ", "), names, title);
  }

  /** The same, for any names part that reads back as `names` and cannot
      hold a separator. */
  lemma NameLineOf(left: string, names: seq<string>, title: string)
    requires IsNamesPart(left)
    requires ReadNames(left) == names && names != []
    requires IsTitleText(title)
    ensures ExtractNameInfo(left + " — " + title) == NameInfo(Some(names[0]), Some(title), names[1..])
  {
    var line := left + " — " + title;
    LineRead(left, title, line);
  }

  /** Such a line is read as its names part and its title. */
  lemma LineRead(left: string, title: string, line: string)
    requires IsNamesPart(left) && IsTitleText(title)
    requires line == left + " — " + title
    ensures ExtractNameInfo(line) == Assemble(ReadNames(left), Some(title))
  {
    NameLineSeparator(left, title);
    NameLineIsFirst(left, title);
    NameLineSlices(left, title);
    StripIdempotentOnStripped(title);
    ExtractOfFirstLine(line, line);
    NameLineInfoAt(line, |left|, |left| + 3);
  }

  /** The names part of such a line gives the names back. */
  lemma NamesReadBack(names: seq<string>)
    requires AllTokens(names)
    ensures ReadNames(Join(names, ", ")) == names
  {
    var j := Join(names, ", ");
    var s := Strip(j);
    assert s == j by {
      TokenListStripped(names);
    }
    assert NameList(Split(j, ',')) == names by {
      NamesRoundTripUnpadded(names);
    }
    assert Split(s, ',') == Split(j, ',');
  }

  lemma TokenListStripped(names: seq<string>)
    requires AllTokens(names)
    ensures Strip(Join(names, ", ")) == Join(names, ", ")
  {
    JoinTokensShape(names);
    StripIdempotentOnStripped(Join(names, ", "));
  }

  lemma NamesRoundTripUnpadded(names: seq<string>)
    requires forall i :: 0 <= i < |names| ==> IsListedName(names[i])
    ensures NameList(Split(Join(names, ", "), ',')) == names
  {
    NamesRoundTrip(names, "");
    assert "" + Join(names, ", ") == Join(names, ", ");
  }

  /** What the line reader makes of a line with a separator. */
  lemma NameLineInfoAt(line: string, a: nat, b: nat)
    requires FindSep(line, 0) == Some((a, b))
    ensures NameLineInfo(line) == Assemble(ReadNames(line[..a]), Some(Strip(line[b..])))
  {
  }

  lemma NameLineSlices(left: string, title: string)
    ensures (left + " — " + title)[..|left|] == left
    ensures (left + " — " + title)[|left| + 3..] == title
  {
  }

  /** A non-empty text is read from its first visible line. */
  lemma ExtractOfFirstLine(text: string, line: string)
    requires text != [] && FirstNonBlank(SplitLines(text)) == Some(line)
    ensures ExtractNameInfo(text) == NameLineInfo(line)
  {
  }

  /** The line is its own first visible line. */
  lemma NameLineIsFirst(left: string, title: string)
    requires IsNamesPart(left) && IsTitleText(title)
    ensures var line := left + " — " + title;
      FirstNonBlank(SplitLines(line)) == Some(line)
  {
    var line := left + " — " + title;
    var m := |left|;
    assert forall i :: 0 <= i < m ==> line[i] == left[i];
    assert forall i :: m + 3 <= i < |line| ==> line[i] == title[i - m - 3];
    assert line[m] == ' ' && line[m + 1] == '—' && line[m + 2] == ' ';
    assert '\n' !in line;
    SplitLinesSingle(line);
    StripIdempotentOnStripped(line);
  }

  /** The first separator of the line is the spaced dash after the names. */
  lemma NameLineSeparator(left: string, title: string)
    requires IsNamesPart(left) && IsTitleText(title)
    ensures var line := left + " — " + title;
      FindSep(line, 0) == Some((|left|, |left| + 3))
  {
    var line := left + " — " + title;
    var m := |left|;
    assert line[m] == ' ' && line[m + 1] == '—' && line[m + 2] == ' ' && line[m + 3] == title[0];
    assert SepEnd(line, m) == Some(m + 3) by {
      assert RunEnd(line, m + 1, IsSpace) == m + 1;
      assert RunEnd(line, m + 3, IsSpace) == m + 3;
    }
    forall j | 0 <= j < m
      ensures SepEnd(line, j).None?
    {
      if IsSpace(line[j]) {
        assert line[j] == left[j];
        if j + 1 < m {
          assert SpaceBeforeWord(left, j);
        }
        assert line[j + 1] == left[j + 1];
        assert RunEnd(line, j + 1, IsSpace) == j + 1;
      }
    }
  }

  /** The NAME line `ls, dir — list`. */
  lemma NameLineExample()
    ensures ExtractNameInfo("ls, dir — list") == NameInfo(Some("ls"), Some("list"), ["dir"])
  {
    var names := ["ls", "dir"];
    assert IsToken(names[0]) && IsToken(names[1]);
    assert IsTitleText("list");
    assert Join(names, ", ") + " — " + "list" == "ls, dir — list";
    NameLineRoundTrip(names, "list");
  }
}
