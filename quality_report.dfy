/** The quality report (`quality_report`, ingest_manpages.py:992-1095):
    token statistics, chunk counts per section name and per document,
    oversized chunks, repeated anchors, the sections each document has, and
    the most frequent constants and SEE ALSO references. */
module QualityReport {
  import opened Strings
  import opened Common
  import opened DocBuild
  import opened Chunker
  import opened TokenStats
  import opened Corpus

  /** `CHUNK_MAX_TOKENS`. */
  const ChunkMaxTokens: nat := 700

  /** How many anchors and names the report lists as examples. */
  const ExampleCount: nat := 20

  /** How many entries each most-common list holds. */
  const TopCount: nat := 50

  /** How many documents the section sample covers. */
  const SampleCount: nat := 50

  // ---------------------------------------------------------------------------
  // first-seen order (the key order of a Counter or dict)
  // ---------------------------------------------------------------------------

  /** The distinct elements, in the order they first appear. */
  function FirstSeen<T(==)>(xs: seq<T>): seq<T> {
    if xs == [] then []
    else
      var init := FirstSeen(xs[..|xs| - 1]);
      if xs[|xs| - 1] in init then init else init + [xs[|xs| - 1]]
  }

  predicate Unique<T(==)>(s: seq<T>) {
    forall i, j :: 0 <= i < j < |s| ==> s[i] != s[j]
  }

  lemma {:induction false} FirstSeenShape<T>(xs: seq<T>)
    ensures Unique(FirstSeen(xs))
    ensures forall y :: y in FirstSeen(xs) <==> y in xs
  {
    if xs != [] {
      var init := xs[..|xs| - 1];
      FirstSeenShape(init);
      InitLast(xs);
      assert forall y :: y in xs <==> y in init || y == xs[|xs| - 1];
    }
  }

  /** The counts over distinct keys that cover every element add up to the
      number of elements. */
  lemma TallyTotal(xs: seq<string>, keys: seq<string>)
    requires Unique(keys) && forall y :: y in xs ==> y in keys
    ensures SumCounts(Tally(xs, keys)) == |xs|
  {
    CountByKeys(xs, keys, |keys|);
    TakeAll(Tally(xs, keys), |keys|);
    TakeAll(keys, |keys|);
    KeptByAll(xs, keys);
  }

  // ---------------------------------------------------------------------------
  // oversized chunks and repeated anchors
  // ---------------------------------------------------------------------------

  predicate Oversized(c: Chunk) {
    c.tokenCount > ChunkMaxTokens
  }

  /** `oversized_anchors`: the anchors of the chunks over the limit, in order. */
  function OversizedAnchors(chunks: seq<Chunk>): seq<string> {
    if chunks == [] then []
    else
      var c := chunks[|chunks| - 1];
      OversizedAnchors(chunks[..|chunks| - 1]) + (if Oversized(c) then [c.anchor] else [])
  }

  /** One anchor per chunk over 700 tokens, and only those. */
  lemma {:induction false} OversizedAnchorsExact(chunks: seq<Chunk>)
    ensures |OversizedAnchors(chunks)| == CountWhere(chunks, Oversized)
    ensures forall a :: a in OversizedAnchors(chunks) <==>
      exists i :: 0 <= i < |chunks| && chunks[i].anchor == a && Oversized(chunks[i])
  {
    if chunks != [] {
      var init := chunks[..|chunks| - 1];
      OversizedAnchorsExact(init);
      assert forall i :: 0 <= i < |init| ==> init[i] == chunks[i];
    }
  }

  function Anchors(chunks: seq<Chunk>): (r: seq<string>)
    ensures |r| == |chunks| && forall i :: 0 <= i < |chunks| ==> r[i] == chunks[i].anchor
  {
    seq(|chunks|, i requires 0 <= i < |chunks| => chunks[i].anchor)
  }

  /** The keys that occur more than once, in key order. */
  function Repeated(keys: seq<string>, xs: seq<string>): seq<string> {
    if keys == [] then []
    else
      var k := keys[|keys| - 1];
      Repeated(keys[..|keys| - 1], xs) + (if Occurrences(xs, k) > 1 then [k] else [])
  }

  /** `duplicate_anchors`. */
  function DuplicateAnchors(chunks: seq<Chunk>): seq<string> {
    var anchors := Anchors(chunks);
    Repeated(FirstSeen(anchors), anchors)
  }

  lemma {:induction false} RepeatedShape(keys: seq<string>, xs: seq<string>)
    requires Unique(keys)
    ensures Unique(Repeated(keys, xs))
    ensures forall k :: k in Repeated(keys, xs) <==> k in keys && Occurrences(xs, k) > 1
  {
    if keys != [] {
      var init := keys[..|keys| - 1];
      RepeatedShape(init, xs);
      InitLast(keys);
      assert keys[|keys| - 1] !in init;
    }
  }

  /** An anchor is reported as repeated exactly when two chunks share it,
      and each such anchor is reported once. */
  lemma DuplicateAnchorsExact(chunks: seq<Chunk>)
    ensures Unique(DuplicateAnchors(chunks))
    ensures forall a :: a in DuplicateAnchors(chunks) <==> Occurrences(Anchors(chunks), a) > 1
  {
    var anchors := Anchors(chunks);
    FirstSeenShape(anchors);
    RepeatedShape(FirstSeen(anchors), anchors);
    forall a | Occurrences(anchors, a) > 1
      ensures a in FirstSeen(anchors)
    {
    }
  }

  /** No element of a list without repeats occurs twice. */
  lemma {:induction false} UniqueOccursOnce(xs: seq<string>, a: string)
    requires Unique(xs)
    ensures Occurrences(xs, a) <= 1
  {
    if xs != [] {
      var init := xs[..|xs| - 1];
      UniqueOccursOnce(init, a);
      if xs[|xs| - 1] == a {
        assert a !in init;
      }
    }
  }

  /** Chunks with pairwise different anchors have no repeated anchor. */
  lemma NoDuplicatesWhenDistinct(chunks: seq<Chunk>)
    requires forall i, j :: 0 <= i < j < |chunks| ==> chunks[i].anchor != chunks[j].anchor
    ensures DuplicateAnchors(chunks) == []
  {
    var anchors := Anchors(chunks);
    forall a
      ensures Occurrences(anchors, a) <= 1
    {
      UniqueOccursOnce(anchors, a);
    }
    RepeatedNone(FirstSeen(anchors), anchors);
  }

  lemma {:induction false} RepeatedNone(keys: seq<string>, xs: seq<string>)
    requires forall k :: Occurrences(xs, k) <= 1
    ensures Repeated(keys, xs) == []
  {
    if keys != [] {
      RepeatedNone(keys[..|keys| - 1], xs);
    }
  }

  // ---------------------------------------------------------------------------
  // chunks per section name and per document
  // ---------------------------------------------------------------------------

  /** `(ch.get("section_name") or "").upper()` for every chunk. */
  function SectionNames(chunks: seq<Chunk>): (r: seq<string>)
    ensures |r| == |chunks| && forall i :: 0 <= i < |chunks| ==> r[i] == Upper(chunks[i].sectionName)
  {
    seq(|chunks|, i requires 0 <= i < |chunks| => Upper(chunks[i].sectionName))
  }

  /** `dict(sorted(by_section_name.items()))`. */
  function BySectionName(chunks: seq<Chunk>): seq<(string, nat)> {
    var names := SectionNames(chunks);
    Tally(names, SortedSet(names))
  }

  /** Every upper-cased section name appears once, in increasing order, with
      the number of chunks under it; the counts add up to the chunks. */
  lemma BySectionNameShape(chunks: seq<Chunk>)
    ensures StrictlySorted(Keys(BySectionName(chunks)))
    ensures forall k :: k in Keys(BySectionName(chunks)) <==> k in SectionNames(chunks)
    ensures forall i :: 0 <= i < |BySectionName(chunks)| ==>
      BySectionName(chunks)[i].1 == Occurrences(SectionNames(chunks), BySectionName(chunks)[i].0)
    ensures SumCounts(BySectionName(chunks)) == |chunks|
  {
    var names := SectionNames(chunks);
    var keys := SortedSet(names);
    assert Keys(BySectionName(chunks)) == keys;
    StrictlySortedDistinct(keys);
    TallyTotal(names, keys);
  }

  function DocumentIds(chunks: seq<Chunk>): (r: seq<string>)
    ensures |r| == |chunks| && forall i :: 0 <= i < |chunks| ==> r[i] == chunks[i].documentId
  {
    seq(|chunks|, i requires 0 <= i < |chunks| => chunks[i].documentId)
  }

  /** The values of `by_document`: the chunk count of each document. */
  function PerDocument(chunks: seq<Chunk>): seq<(string, nat)> {
    var ids := DocumentIds(chunks);
    Tally(ids, FirstSeen(ids))
  }

  function MinCount(counts: seq<(string, nat)>): (m: nat)
    requires counts != []
    ensures (exists i :: 0 <= i < |counts| && counts[i].1 == m) && forall i :: 0 <= i < |counts| ==> m <= counts[i].1
  {
    if |counts| == 1 then counts[0].1
    else
      var m := MinCount(counts[..|counts| - 1]);
      var last := counts[|counts| - 1].1;
      assert forall i :: 0 <= i < |counts| - 1 ==> counts[..|counts| - 1][i] == counts[i];
      if last < m then last else m
  }

  function MaxCount(counts: seq<(string, nat)>): (m: nat)
    requires counts != []
    ensures (exists i :: 0 <= i < |counts| && counts[i].1 == m) && forall i :: 0 <= i < |counts| ==> counts[i].1 <= m
  {
    if |counts| == 1 then counts[0].1
    else
      var m := MaxCount(counts[..|counts| - 1]);
      var last := counts[|counts| - 1].1;
      assert forall i :: 0 <= i < |counts| - 1 ==> counts[..|counts| - 1][i] == counts[i];
      if last > m then last else m
  }

  /** `chunks_by_document`. */
  datatype Spread = Spread(min: nat, avg: real, max: nat)

  function SpreadOf(counts: seq<(string, nat)>): Spread {
    if counts == [] then Spread(0, 0.0, 0)
    else Spread(MinCount(counts), Mean(SumCounts(counts), |counts|), MaxCount(counts))
  }

  /** Each document with chunks is counted once, with its number of chunks
      (at least one); the counts add up to the chunks, so the mean is the
      number of chunks per document. */
  lemma PerDocumentShape(chunks: seq<Chunk>)
    ensures forall i :: 0 <= i < |PerDocument(chunks)| ==>
      PerDocument(chunks)[i].1 == Occurrences(DocumentIds(chunks), PerDocument(chunks)[i].0)
      && PerDocument(chunks)[i].1 >= 1
    ensures forall id :: id in Keys(PerDocument(chunks)) <==> id in DocumentIds(chunks)
    ensures SumCounts(PerDocument(chunks)) == |chunks|
    ensures SpreadOf(PerDocument(chunks)).avg == Mean(|chunks|, |PerDocument(chunks)|)
  {
    var ids := DocumentIds(chunks);
    var keys := FirstSeen(ids);
    FirstSeenShape(ids);
    assert Keys(PerDocument(chunks)) == keys;
    assert forall i :: 0 <= i < |keys| ==> keys[i] in keys;
    TallyTotal(ids, keys);
  }

  // ---------------------------------------------------------------------------
  // sections present per document
  // ---------------------------------------------------------------------------

  /** The non-empty upper-cased subsection names, in order. */
  function NamedSubsections(subs: seq<SubSection>): seq<string> {
    if subs == [] then []
    else
      var nm := Upper(subs[|subs| - 1].name);
      NamedSubsections(subs[..|subs| - 1]) + (if nm != [] then [nm] else [])
  }

  /** `sorted(set(secs))` for one document. */
  function SectionsPresent(d: ManDoc): seq<string> {
    SortedSet(NamedSubsections(d.subsections))
  }

  lemma {:induction false} NamedSubsectionsExact(subs: seq<SubSection>)
    ensures forall nm :: nm in NamedSubsections(subs) <==>
      nm != [] && exists i :: 0 <= i < |subs| && Upper(subs[i].name) == nm
  {
    if subs != [] {
      var init := subs[..|subs| - 1];
      NamedSubsectionsExact(init);
      assert forall i :: 0 <= i < |init| ==> init[i] == subs[i];
    }
  }

  /** A document's sections are listed once each, in increasing order: the
      non-empty upper-cased names of its subsections. */
  lemma SectionsPresentShape(d: ManDoc)
    ensures StrictlySorted(SectionsPresent(d))
    ensures forall nm :: nm in SectionsPresent(d) <==>
      nm != [] && exists i :: 0 <= i < |d.subsections| && Upper(d.subsections[i].name) == nm
  {
    NamedSubsectionsExact(d.subsections);
  }

  /** `sections_present_per_doc`: a later document with the same id
      overwrites an earlier one. */
  function PresentMap(docs: seq<ManDoc>): map<string, seq<string>> {
    if docs == [] then map[]
    else
      var d := docs[|docs| - 1];
      PresentMap(docs[..|docs| - 1])[d.documentId := SectionsPresent(d)]
  }

  function DocIds(docs: seq<ManDoc>): (r: seq<string>)
    ensures |r| == |docs| && forall i :: 0 <= i < |docs| ==> r[i] == docs[i].documentId
  {
    seq(|docs|, i requires 0 <= i < |docs| => docs[i].documentId)
  }

  /** The sample: the first 50 document ids in first-seen order, with their
      sections. */
  function SectionsSample(docs: seq<ManDoc>): seq<(string, seq<string>)> {
    var keys := PyPrefix(FirstSeen(DocIds(docs)), SampleCount);
    var m := PresentMap(docs);
    seq(|keys|, i requires 0 <= i < |keys| => (keys[i], if keys[i] in m then m[keys[i]] else []))
  }

  /** The map holds every document id, with the sections of the last
      document of that id. */
  lemma {:induction false} PresentMapLastWriter(docs: seq<ManDoc>, i: nat)
    requires i < |docs| && forall j :: i < j < |docs| ==> docs[j].documentId != docs[i].documentId
    ensures docs[i].documentId in PresentMap(docs)
    ensures PresentMap(docs)[docs[i].documentId] == SectionsPresent(docs[i])
  {
    if i < |docs| - 1 {
      var init := docs[..|docs| - 1];
      assert forall j :: i < j < |init| ==> init[j] == docs[j];
      PresentMapLastWriter(init, i);
    }
  }

  // ---------------------------------------------------------------------------
  // most common constants and references
  // ---------------------------------------------------------------------------

  /** Every constant of every chunk, in order. */
  function AllConstants(chunks: seq<Chunk>): seq<string> {
    if chunks == [] then [] else AllConstants(chunks[..|chunks| - 1]) + chunks[|chunks| - 1].constants
  }

  /** Every SEE ALSO reference of every chunk, in order. */
  function AllSeeAlso(chunks: seq<Chunk>): seq<string> {
    if chunks == [] then [] else AllSeeAlso(chunks[..|chunks| - 1]) + chunks[|chunks| - 1].seeAlsoRefs
  }

  /** Counts in decreasing order. */
  predicate Descending(s: seq<(string, nat)>) {
    forall i, j :: 0 <= i < j < |s| ==> s[j].1 <= s[i].1
  }

  /** Puts `x` after every entry whose count is not below its own. */
  function InsertByCount(s: seq<(string, nat)>, x: (string, nat)): (r: seq<(string, nat)>)
    ensures |r| == |s| + 1
  {
    if s == [] then [x]
    else if x.1 > s[0].1 then [x] + s
    else [s[0]] + InsertByCount(s[1..], x)
  }

  /** A stable sort by decreasing count. */
  function SortByCount(s: seq<(string, nat)>): (r: seq<(string, nat)>)
    ensures |r| == |s|
  {
    if s == [] then [] else InsertByCount(SortByCount(s[..|s| - 1]), s[|s| - 1])
  }

  lemma {:induction false} InsertByCountElements(s: seq<(string, nat)>, x: (string, nat))
    ensures multiset(InsertByCount(s, x)) == multiset(s) + multiset{x}
  {
    if s != [] && x.1 <= s[0].1 {
      InsertByCountElements(s[1..], x);
      HeadTail(s);
    }
  }

  lemma {:induction false} InsertByCountSorted(s: seq<(string, nat)>, x: (string, nat))
    requires Descending(s)
    ensures Descending(InsertByCount(s, x))
  {
    if s != [] && x.1 <= s[0].1 {
      var t := InsertByCount(s[1..], x);
      InsertByCountSorted(s[1..], x);
      InsertByCountElements(s[1..], x);
      forall j | 0 <= j < |t|
        ensures t[j].1 <= s[0].1
      {
        assert t[j] in multiset(t);
        if t[j] != x {
          assert t[j] in s[1..];
        }
      }
      FrontDescending(t, s[0]);
    } else if s != [] {
      FrontDescending(s, x);
    }
  }

  lemma FrontDescending(s: seq<(string, nat)>, x: (string, nat))
    requires Descending(s) && forall j :: 0 <= j < |s| ==> s[j].1 <= x.1
    ensures Descending([x] + s)
  {
    forall i, j | 0 <= i < j < |s| + 1
      ensures ([x] + s)[j].1 <= ([x] + s)[i].1
    {
      assert ([x] + s)[j] == s[j - 1];
      if i > 0 {
        assert ([x] + s)[i] == s[i - 1];
      }
    }
  }

  lemma {:induction false} SortByCountShape(s: seq<(string, nat)>)
    ensures Descending(SortByCount(s))
    ensures multiset(SortByCount(s)) == multiset(s)
  {
    if s != [] {
      var init := s[..|s| - 1];
      SortByCountShape(init);
      InsertByCountSorted(SortByCount(init), s[|s| - 1]);
      InsertByCountElements(SortByCount(init), s[|s| - 1]);
      InitLast(s);
    }
  }

  /** No key appears in two entries. */
  predicate UniqueKeys(s: seq<(string, nat)>) {
    forall i, j :: 0 <= i < j < |s| ==> s[i].0 != s[j].0
  }

  lemma {:induction false} InsertByCountUnique(s: seq<(string, nat)>, x: (string, nat))
    requires UniqueKeys(s) && forall j :: 0 <= j < |s| ==> s[j].0 != x.0
    ensures UniqueKeys(InsertByCount(s, x))
  {
    if s != [] && x.1 <= s[0].1 {
      var t := InsertByCount(s[1..], x);
      InsertByCountUnique(s[1..], x);
      InsertByCountElements(s[1..], x);
      forall j | 0 <= j < |t|
        ensures t[j].0 != s[0].0
      {
        assert t[j] in multiset(t);
        if t[j] != x {
          assert t[j] in s[1..];
        }
      }
      FrontUnique(t, s[0]);
    } else if s != [] {
      FrontUnique(s, x);
    }
  }

  lemma FrontUnique(s: seq<(string, nat)>, x: (string, nat))
    requires UniqueKeys(s) && forall j :: 0 <= j < |s| ==> s[j].0 != x.0
    ensures UniqueKeys([x] + s)
  {
    forall i, j | 0 <= i < j < |s| + 1
      ensures ([x] + s)[i].0 != ([x] + s)[j].0
    {
      assert ([x] + s)[j] == s[j - 1];
      if i > 0 {
        assert ([x] + s)[i] == s[i - 1];
      }
    }
  }

  /** Sorting by count keeps the keys distinct. */
  lemma {:induction false} SortByCountUnique(s: seq<(string, nat)>)
    requires UniqueKeys(s)
    ensures UniqueKeys(SortByCount(s))
  {
    if s != [] {
      var init := s[..|s| - 1];
      var last := s[|s| - 1];
      var sorted := SortByCount(init);
      SortByCountUnique(init);
      SortByCountShape(init);
      forall j | 0 <= j < |sorted|
        ensures sorted[j].0 != last.0
      {
        assert sorted[j] in multiset(init);
        var k :| 0 <= k < |init| && init[k] == sorted[j];
        assert s[k] == init[k];
      }
      InsertByCountUnique(sorted, last);
    }
  }

  lemma MostCommonUnique(xs: seq<string>, n: nat)
    ensures UniqueKeys(MostCommon(xs, n))
  {
    var t := Tally(xs, FirstSeen(xs));
    FirstSeenShape(xs);
    assert UniqueKeys(t);
    SortByCountUnique(t);
    var sorted := SortByCount(t);
    var r := MostCommon(xs, n);
    assert forall i :: 0 <= i < |r| ==> r[i] == sorted[i];
  }

  /** `Counter(xs).most_common(n)`. */
  function MostCommon(xs: seq<string>, n: nat): seq<(string, nat)> {
    PyPrefix(SortByCount(Tally(xs, FirstSeen(xs))), n)
  }

  /** The most-common list: counts in decreasing order, each entry an
      element with its true count, no element twice, as many entries as
      asked for when there are enough elements, and no element left out
      more frequent than the last one listed. */
  lemma MostCommonShape(xs: seq<string>, n: nat)
    ensures var r := MostCommon(xs, n);
      && Descending(r)
      && (forall i :: 0 <= i < |r| ==> r[i].0 in xs && r[i].1 == Occurrences(xs, r[i].0))
      && |r| == (if n < |FirstSeen(xs)| then n else |FirstSeen(xs)|)
      && (forall y :: y in xs && y !in Keys(r) ==> |r| == n && (n > 0 ==> Occurrences(xs, y) <= r[n - 1].1))
      && UniqueKeys(r)
  {
    var t := Tally(xs, FirstSeen(xs));
    var sorted := SortByCount(t);
    var r := MostCommon(xs, n);
    FirstSeenShape(xs);
    SortByCountShape(t);
    PrefixDescending(sorted, n);
    assert UniqueKeys(r) by {
      MostCommonUnique(xs, n);
    }
    forall i | 0 <= i < |r|
      ensures r[i].0 in xs && r[i].1 == Occurrences(xs, r[i].0)
    {
      assert r[i] == sorted[i];
      assert sorted[i] in multiset(t);
    }
    forall y | y in xs && y !in Keys(r)
      ensures |r| == n && (n > 0 ==> Occurrences(xs, y) <= r[n - 1].1)
    {
      LeftOut(xs, sorted, n, y);
    }
  }

  lemma PrefixDescending(s: seq<(string, nat)>, n: nat)
    requires Descending(s)
    ensures Descending(PyPrefix(s, n))
  {
    var r := PyPrefix(s, n);
    assert forall i :: 0 <= i < |r| ==> r[i] == s[i];
  }

  /** A key missing from the first `n` entries of the sorted tally is
      behind them, so its count is at most the `n`-th one. */
  lemma LeftOut(xs: seq<string>, sorted: seq<(string, nat)>, n: nat, y: string)
    requires y in xs
    requires Descending(sorted)
    requires multiset(sorted) == multiset(Tally(xs, FirstSeen(xs)))
    requires y !in Keys(PyPrefix(sorted, n))
    ensures |PyPrefix(sorted, n)| == n
    ensures n > 0 ==> Occurrences(xs, y) <= sorted[n - 1].1
  {
    var keys := FirstSeen(xs);
    var t := Tally(xs, keys);
    FirstSeenShape(xs);
    var k :| 0 <= k < |keys| && keys[k] == y;
    assert t[k] in multiset(sorted);
    var m :| 0 <= m < |sorted| && sorted[m] == t[k];
    var r := PyPrefix(sorted, n);
    assert forall i :: 0 <= i < |r| ==> Keys(r)[i] == sorted[i].0;
    assert |r| <= m;
  }

  // ---------------------------------------------------------------------------
  // the report
  // ---------------------------------------------------------------------------

  datatype Report =
    | NoChunks(totalDocuments: nat)
    | Full(totalDocuments: nat, totalChunks: nat, tokens: Stats,
           chunksBySectionName: seq<(string, nat)>, chunksByDocument: Spread,
           oversizedCount: nat, oversizedExamples: seq<string>,
           duplicateCount: nat, duplicateExamples: seq<string>,
           sectionsSample: seq<(string, seq<string>)>,
           topConstants: seq<(string, nat)>, topSeeAlsoRefs: seq<(string, nat)>)

  function TokenCounts(chunks: seq<Chunk>): (r: seq<int>)
    ensures |r| == |chunks| && forall i :: 0 <= i < |chunks| ==> r[i] == chunks[i].tokenCount
  {
    seq(|chunks|, i requires 0 <= i < |chunks| => chunks[i].tokenCount)
  }

  /** `quality_report(docs, chunks)`, without the timestamp and the file. */
  function Quality(docs: seq<ManDoc>, chunks: seq<Chunk>): Report {
    if chunks == [] then NoChunks(|docs|)
    else
      var oversized := OversizedAnchors(chunks);
      var duplicates := DuplicateAnchors(chunks);
      Full(|docs|, |chunks|, StatsOf(TokenCounts(chunks)),
           BySectionName(chunks), SpreadOf(PerDocument(chunks)),
           |oversized|, PyPrefix(oversized, ExampleCount),
           |duplicates|, PyPrefix(duplicates, ExampleCount),
           SectionsSample(docs),
           MostCommon(AllConstants(chunks), TopCount), MostCommon(AllSeeAlso(chunks), TopCount))
  }

  /** The short report is given exactly when there are no chunks; otherwise
      the report counts the chunks over the limit and the repeated anchors
      and lists at most 20 of each. */
  lemma QualityShape(docs: seq<ManDoc>, chunks: seq<Chunk>)
    ensures Quality(docs, chunks).NoChunks? <==> chunks == []
    ensures Quality(docs, chunks).totalDocuments == |docs|
    ensures chunks != [] ==> var r := Quality(docs, chunks);
      && r.totalChunks == |chunks|
      && r.oversizedCount == CountWhere(chunks, Oversized)
      && r.oversizedExamples <= OversizedAnchors(chunks) && |r.oversizedExamples| <= ExampleCount
      && r.duplicateCount == |DuplicateAnchors(chunks)|
      && r.duplicateExamples <= DuplicateAnchors(chunks) && |r.duplicateExamples| <= ExampleCount
      && r.tokens.total == Sum(TokenCounts(chunks))
  {
    if chunks != [] {
      OversizedAnchorsExact(chunks);
      StatsTotal(TokenCounts(chunks));
    }
  }
}
