/** `pathlib.Path` reduced to what the ingester uses: a path is its list of
    components; `/` appends a component, dropping the empty and `.` ones as
    pathlib does; `.name`, `.parent` and `.stem` read the last component. */
module Paths {
  import opened Strings

  type Path = seq<string>

  /** `p.name`: the last component, or the empty string for the empty path. */
  function Name(p: Path): string {
    if p == [] then "" else p[|p| - 1]
  }

  /** `p.parent`: the path without its last component. */
  function Parent(p: Path): (r: Path)
    ensures |r| == if p == [] then 0 else |p| - 1
    ensures r <= p
  {
    if p == [] then [] else p[..|p| - 1]
  }

  /** `p / name` for a name without `/`. */
  function Child(p: Path, name: string): (r: Path)
    ensures name != "" && name != "." ==> r == p + [name] && Name(r) == name && Parent(r) == p
    ensures name == "" || name == "." ==> r == p
  {
    if name == "" || name == "." then p else p + [name]
  }

  /** `str(p)`, for a relative path. */
  function Str(p: Path): string {
    if p == [] then "." else Join(p, "/")
  }

  /** `p.stem`: the name without its last suffix; a leading dot or a final
      dot does not start a suffix. */
  function Stem(name: string): (r: string)
    ensures r <= name
    ensures r != name ==> 0 < |r| < |name| - 1 && name[|r|] == '.'
    ensures r != name ==> forall j :: |r| < j < |name| ==> name[j] != '.'
    ensures r == name ==> forall j :: 0 < j < |name| - 1 && name[j] == '.' ==> name[|name| - 1] == '.'
  {
    var i := LastIndexOf(name, '.');
    if 0 < i < |name| - 1 then name[..i] else name
  }

  /** `s.rfind(c)`: the last index of `c`, or -1. */
  function LastIndexOf(s: string, c: char): (i: int)
    ensures -1 <= i < |s|
    ensures i >= 0 ==> s[i] == c
    ensures forall j :: i < j < |s| ==> s[j] != c
  {
    if s == [] then -1
    else if s[|s| - 1] == c then |s| - 1
    else LastIndexOf(s[..|s| - 1], c)
  }

  /** `name.split(".")[0]`: the text before the first dot. */
  function FirstDotField(name: string): (r: string)
    ensures r <= name && '.' !in r
    ensures |r| == |name| || name[|r|] == '.'
  {
    SplitFirst(name, '.');
    Split(name, '.')[0]
  }

  /** The first dot field of a name is also that of its stem, so
      `stem.split(".")[0]` is the file name up to its first dot. */
  lemma FirstDotFieldOfStem(name: string)
    ensures FirstDotField(Stem(name)) == FirstDotField(name)
  {
    var f := FirstDotField(name);
    var s := Stem(name);
    var g := FirstDotField(s);
    if s != name {
      var i := LastIndexOf(name, '.');
      assert s == name[..i];
      PrefixBeforeFirst(name, f, '.', i);
      assert f == name[..|f|] && g == name[..|g|];
    }
  }

  /** A prefix free of `c` ends at or before any occurrence of `c`. */
  lemma PrefixBeforeFirst(s: string, f: string, c: char, k: nat)
    requires f <= s && c !in f && k < |s| && s[k] == c
    ensures |f| <= k
  {
  }
}
