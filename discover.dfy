/** Picking the manual pages to process (`discover_man_files`,
    ingest_manpages.py:670-682): the files the two glob patterns find are
    deduplicated, sorted by (suffix, lower-cased path) and cut to the limit. */
module Discovery {
  import opened Strings
  import opened Common
  import opened Paths

  /** `p.suffix`: the name from its last dot, unless that dot starts or
      ends the name. */
  function Suffix(p: Path): (r: string)
    ensures r <= Name(p) || r == [] || EndsWith(Name(p), r)
  {
    var name := Name(p);
    var i := LastIndexOf(name, '.');
    if 0 < i < |name| - 1 then name[i..] else ""
  }

  /** The sort key `(p.suffix, str(p).lower())`, compared as Python
      compares tuples. */
  predicate KeyLess(a: Path, b: Path) {
    Less(Suffix(a), Suffix(b)) || (Suffix(a) == Suffix(b) && Less(Lower(Str(a)), Lower(Str(b))))
  }

  lemma KeyLessTransitive(a: Path, b: Path, c: Path)
    requires KeyLess(a, b) && KeyLess(b, c)
    ensures KeyLess(a, c)
  {
    if Less(Suffix(a), Suffix(b)) && Less(Suffix(b), Suffix(c)) {
      LessTransitive(Suffix(a), Suffix(b), Suffix(c));
    } else if Suffix(a) == Suffix(b) && Suffix(b) == Suffix(c) {
      LessTransitive(Lower(Str(a)), Lower(Str(b)), Lower(Str(c)));
    }
  }

  lemma KeyLessIrreflexive(a: Path)
    ensures !KeyLess(a, a)
  {
    LessIrreflexive(Suffix(a));
    LessIrreflexive(Lower(Str(a)));
  }

  /** In key order: no element sorts before an earlier one. */
  predicate KeySorted(s: seq<Path>) {
    forall i, j :: 0 <= i < j < |s| ==> !KeyLess(s[j], s[i])
  }

  predicate Distinct(s: seq<Path>) {
    forall i, j :: 0 <= i < j < |s| ==> s[i] != s[j]
  }

  /** Puts a path after every path whose key is not above its own. */
  function InsertByKey(s: seq<Path>, x: Path): (r: seq<Path>)
    ensures |r| == |s| + 1
  {
    if s == [] then [x]
    else if KeyLess(x, s[0]) then [x] + s
    else [s[0]] + InsertByKey(s[1..], x)
  }

  /** Inserting adds the path and nothing else. */
  lemma {:induction false} InsertElements(s: seq<Path>, x: Path)
    ensures multiset(InsertByKey(s, x)) == multiset(s) + multiset{x}
  {
    if s != [] && !KeyLess(x, s[0]) {
      InsertElements(s[1..], x);
      HeadTail(s);
    }
  }

  /** Inserting keeps the list in key order. */
  lemma {:induction false} InsertSorted(s: seq<Path>, x: Path)
    requires KeySorted(s)
    ensures KeySorted(InsertByKey(s, x))
  {
    if s == [] {
    } else if KeyLess(x, s[0]) {
      forall j | 0 <= j < |s|
        ensures !KeyLess(s[j], x)
      {
        if KeyLess(s[j], x) {
          KeyLessTransitive(s[j], x, s[0]);
          KeyLessIrreflexive(s[0]);
        }
      }
      FrontSorted(s, x);
    } else {
      var t := InsertByKey(s[1..], x);
      InsertSorted(s[1..], x);
      InsertElements(s[1..], x);
      HeadNotAbove(s, x, t);
      FrontSorted(t, s[0]);
    }
  }

  /** The head of a sorted list is not above what follows it with `x` added. */
  lemma HeadNotAbove(s: seq<Path>, x: Path, t: seq<Path>)
    requires s != [] && KeySorted(s) && !KeyLess(x, s[0])
    requires multiset(t) == multiset(s[1..]) + multiset{x}
    ensures forall j :: 0 <= j < |t| ==> !KeyLess(t[j], s[0])
  {
    forall j | 0 <= j < |t|
      ensures !KeyLess(t[j], s[0])
    {
      assert t[j] in multiset(t);
      if t[j] != x {
        assert t[j] in s[1..];
        var m :| 0 <= m < |s| - 1 && s[1..][m] == t[j];
        assert s[m + 1] == t[j];
      }
    }
  }

  /** A path whose key is not above any key of a sorted list can go first. */
  lemma FrontSorted(s: seq<Path>, x: Path)
    requires KeySorted(s)
    requires forall j :: 0 <= j < |s| ==> !KeyLess(s[j], x)
    ensures KeySorted([x] + s)
  {
    FrontOrdered(s, x, KeyLess);
  }

  /** The same for any relation, which keeps the key out of the proof. */
  lemma FrontOrdered<T>(s: seq<T>, x: T, less: (T, T) -> bool)
    requires forall i, j :: 0 <= i < j < |s| ==> !less(s[j], s[i])
    requires forall j :: 0 <= j < |s| ==> !less(s[j], x)
    ensures forall i, j :: 0 <= i < j < |s| + 1 ==> !less(([x] + s)[j], ([x] + s)[i])
  {
    forall i, j | 0 <= i < j < |s| + 1
      ensures !less(([x] + s)[j], ([x] + s)[i])
    {
      assert ([x] + s)[j] == s[j - 1];
      if i > 0 {
        assert ([x] + s)[i] == s[i - 1];
      }
    }
  }

  /** Inserting a new path keeps the list free of repeats. */
  lemma {:induction false} InsertDistinct(s: seq<Path>, x: Path)
    requires Distinct(s) && x !in s
    ensures Distinct(InsertByKey(s, x))
  {
    if s != [] && !KeyLess(x, s[0]) {
      var t := InsertByKey(s[1..], x);
      InsertDistinct(s[1..], x);
      InsertElements(s[1..], x);
      assert s[0] !in s[1..];
      assert s[0] !in multiset(t);
      FrontDistinct(t, s[0]);
    } else if s != [] {
      FrontDistinct(s, x);
    }
  }

  lemma FrontDistinct(s: seq<Path>, x: Path)
    requires Distinct(s) && x !in s
    ensures Distinct([x] + s)
  {
    forall i, j | 0 <= i < j < |s| + 1
      ensures ([x] + s)[i] != ([x] + s)[j]
    {
      assert ([x] + s)[j] == s[j - 1];
      if i > 0 {
        assert ([x] + s)[i] == s[i - 1];
      }
    }
  }

  /** `sorted(set(files), key=...)`. Paths with equal keys (paths that
      differ only in letter case) keep the order in which they were found. */
  function SortedUnique(files: seq<Path>): seq<Path> {
    if files == [] then []
    else
      var init := SortedUnique(files[..|files| - 1]);
      var x := files[|files| - 1];
      if x in init then init else InsertByKey(init, x)
  }

  /** The sorted list holds each found path exactly once, in key order. */
  lemma {:induction false} SortedUniqueShape(files: seq<Path>)
    ensures KeySorted(SortedUnique(files)) && Distinct(SortedUnique(files))
    ensures forall y :: y in SortedUnique(files) <==> y in files
  {
    if files != [] {
      var init := files[..|files| - 1];
      var x := files[|files| - 1];
      SortedUniqueShape(init);
      InitLast(files);
      var u := SortedUnique(init);
      if x !in u {
        InsertSorted(u, x);
        InsertDistinct(u, x);
        InsertElements(u, x);
        assert forall y :: y in InsertByKey(u, x) <==> y in multiset(u) + multiset{x};
      }
      assert forall y :: y in files <==> y in init || y == x;
    }
  }

  /** `discover_man_files(root, limit)` after the globbing: `found` lists
      the files the two patterns matched, in the order they came. */
  function DiscoverManFiles(found: seq<Path>, limit: Option<int>): seq<Path> {
    var uniq := SortedUnique(found);
    if limit.None? then uniq else PyPrefix(uniq, limit.value)
  }

  /** The pages to process: sorted by key, without repeats, all of them
      found by the patterns, and a prefix of the full sorted list of the
      size the limit asks for. */
  lemma DiscoverShape(found: seq<Path>, limit: Option<int>)
    ensures var r := DiscoverManFiles(found, limit);
      && KeySorted(r) && Distinct(r)
      && (forall y :: y in r ==> y in found)
      && r <= SortedUnique(found)
      && (limit.None? ==> forall y :: y in found ==> y in r)
      && (limit.Some? && limit.value >= 0 ==>
            |r| == if limit.value < |SortedUnique(found)| then limit.value else |SortedUnique(found)|)
  {
    var u := SortedUnique(found);
    var r := DiscoverManFiles(found, limit);
    SortedUniqueShape(found);
    assert forall i :: 0 <= i < |r| ==> r[i] == u[i];
  }
}
