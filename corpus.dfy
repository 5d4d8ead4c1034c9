/** Corpus-wide bookkeeping in ingest_manpages.py: gathering the parsed
    pages (`process_all_manpages`, lines 745-768), the summary counts
    (lines 793-796) and the alias map (lines 813-824). */
module Corpus {
  import opened Strings
  import opened Common
  import opened DocBuild

  // ---------------------------------------------------------------------------
  // gathering the parsed pages
  // ---------------------------------------------------------------------------

  /** The documents among the parse results, in order. */
  function Parsed(results: seq<Option<ManDoc>>): (docs: seq<ManDoc>) {
    if results == [] then []
    else
      var last := results[|results| - 1];
      Parsed(results[..|results| - 1]) + (if last.Some? then [last.value] else [])
  }

  function IsFailure(r: Option<ManDoc>): bool { r.None? }

  /** The loop over the workers' results, taken in input order as
      `ex.map` yields them: a failure is counted, a document kept. */
  method GatherDocs(results: seq<Option<ManDoc>>) returns (docs: seq<ManDoc>, failures: nat)
    ensures docs == Parsed(results)
    ensures failures == CountWhere(results, IsFailure)
  {
    docs, failures := [], 0;
    var i := 0;
    while i < |results|
      invariant i <= |results|
      invariant docs == Parsed(results[..i])
      invariant failures == CountWhere(results[..i], IsFailure)
    {
      TakeOneMore(results, i);
      if results[i].None? {
        failures := failures + 1;
      } else {
        docs := docs + [results[i].value];
      }
      i := i + 1;
    }
    TakeAll(results, i);
  }

  /** Every page is either a document or a failure. */
  lemma {:induction false} DocsPlusFailures(results: seq<Option<ManDoc>>)
    ensures |Parsed(results)| + CountWhere(results, IsFailure) == |results|
  {
    if results != [] {
      DocsPlusFailures(results[..|results| - 1]);
    }
  }

  /** The documents keep the order of their pages. */
  lemma {:induction false} ParsedInOrder(results: seq<Option<ManDoc>>, i: nat)
    requires i < |results| && results[i].Some?
    ensures var k := |Parsed(results[..i])|;
      k < |Parsed(results)| && Parsed(results)[k] == results[i].value
  {
    var n := |results| - 1;
    if i < n {
      ParsedInOrder(results[..n], i);
      TakePrefix(results, i, n);
    } else {
      assert results[..n] == results[..i];
    }
  }

  lemma TakePrefix<T>(s: seq<T>, i: nat, n: nat)
    requires i <= n <= |s|
    ensures s[..n][..i] == s[..i]
  {
  }

  // ---------------------------------------------------------------------------
  // the summary
  // ---------------------------------------------------------------------------

  /** The summary record, without its timestamp. */
  datatype Summary = Summary(
    version: string,
    totalDocuments: nat,
    bySection: seq<(string, nat)>,
    withName: nat,
    withSynopsis: nat,
    withErrors: nat)

  /** A Python truth test on an optional text. */
  predicate Truthy(s: Option<string>) {
    s.Some? && s.value != []
  }

  function HasName(d: ManDoc): bool { Truthy(d.nameRaw) }
  function HasSynopsis(d: ManDoc): bool { Truthy(d.synopsisRaw) }

  /** `any(s.subsection_name.upper() == "ERRORS" for s in d.subsections)`. */
  function HasErrors(d: ManDoc): bool {
    exists i :: 0 <= i < |d.subsections| && Upper(d.subsections[i].name) == "ERRORS"
  }

  function SectionsOf(docs: seq<ManDoc>): (r: seq<string>)
    ensures |r| == |docs|
    ensures forall i :: 0 <= i < |docs| ==> r[i] == docs[i].section
  {
    seq(|docs|, i requires 0 <= i < |docs| => docs[i].section)
  }

  /** `dict(sorted(Counter(d.section for d in docs).items()))`. */
  function BySection(docs: seq<ManDoc>): seq<(string, nat)> {
    var secs := SectionsOf(docs);
    var keys := SortedSet(secs);
    seq(|keys|, i requires 0 <= i < |keys| => (keys[i], Occurrences(secs, keys[i])))
  }

  function Summarize(docs: seq<ManDoc>): Summary {
    Summary(Version, |docs|, BySection(docs),
            CountWhere(docs, HasName), CountWhere(docs, HasSynopsis), CountWhere(docs, HasErrors))
  }

  function Keys(counts: seq<(string, nat)>): (r: seq<string>)
    ensures |r| == |counts| && forall i :: 0 <= i < |counts| ==> r[i] == counts[i].0
  {
    seq(|counts|, i requires 0 <= i < |counts| => counts[i].0)
  }

  /** The three flag counts of the summary: each is the number of documents
      with that feature, at most `total_documents`; each is zero when no
      document has the feature and `total_documents` when all have it. */
  lemma SummaryCounts(docs: seq<ManDoc>)
    ensures Summarize(docs).totalDocuments == |docs|
    ensures Summarize(docs).withName == |IndicesWhere(docs, HasName)| <= |docs|
    ensures Summarize(docs).withSynopsis == |IndicesWhere(docs, HasSynopsis)| <= |docs|
    ensures Summarize(docs).withErrors == |IndicesWhere(docs, HasErrors)| <= |docs|
    ensures (forall i :: 0 <= i < |docs| ==> !HasErrors(docs[i])) ==> Summarize(docs).withErrors == 0
    ensures (forall i :: 0 <= i < |docs| ==> HasName(docs[i])) ==> Summarize(docs).withName == |docs|
  {
    CountWhereIndices(docs, HasName);
    CountWhereIndices(docs, HasSynopsis);
    CountWhereIndices(docs, HasErrors);
    if forall i :: 0 <= i < |docs| ==> !HasErrors(docs[i]) {
      CountWhereNone(docs, HasErrors);
    }
    if forall i :: 0 <= i < |docs| ==> HasName(docs[i]) {
      CountWhereAll(docs, HasName);
    }
  }

  /** Each section appears once in the counts, in increasing order. */
  lemma BySectionSorted(docs: seq<ManDoc>)
    ensures StrictlySorted(Keys(BySection(docs)))
  {
    assert Keys(BySection(docs)) == SortedSet(SectionsOf(docs));
  }

  /** The counted sections are those of the documents. */
  lemma BySectionKeys(docs: seq<ManDoc>)
    ensures forall sec :: sec in Keys(BySection(docs)) <==> sec in SectionsOf(docs)
  {
    assert Keys(BySection(docs)) == SortedSet(SectionsOf(docs));
  }

  /** Each count is the number of documents of that section, so at least 1. */
  lemma BySectionCounts(docs: seq<ManDoc>)
    ensures forall i :: 0 <= i < |BySection(docs)| ==>
      BySection(docs)[i].1 == Occurrences(SectionsOf(docs), BySection(docs)[i].0) && BySection(docs)[i].1 >= 1
  {
    var keys := SortedSet(SectionsOf(docs));
    assert forall i :: 0 <= i < |keys| ==> keys[i] in keys;
  }

  /** The per-section counts add up to the number of documents. */
  lemma SectionTotals(docs: seq<ManDoc>)
    ensures SumCounts(BySection(docs)) == |docs|
  {
    var secs := SectionsOf(docs);
    var keys := SortedSet(secs);
    StrictlySortedDistinct(keys);
    CountByKeys(secs, keys, |keys|);
    assert BySection(docs) == Tally(secs, keys);
    TakeAll(Tally(secs, keys), |keys|);
    TakeAll(keys, |keys|);
    KeptByAll(secs, keys);
  }

  function SumCounts(counts: seq<(string, nat)>): nat {
    if counts == [] then 0 else SumCounts(counts[..|counts| - 1]) + counts[|counts| - 1].1
  }

  /** The counts of each of `keys` in `xs`. */
  function Tally(xs: seq<string>, keys: seq<string>): (r: seq<(string, nat)>)
    ensures |r| == |keys|
    ensures forall i :: 0 <= i < |keys| ==> r[i] == (keys[i], Occurrences(xs, keys[i]))
  {
    seq(|keys|, i requires 0 <= i < |keys| => (keys[i], Occurrences(xs, keys[i])))
  }

  /** The sum over the first `n` keys counts the elements equal to one of them. */
  lemma {:induction false} CountByKeys(xs: seq<string>, keys: seq<string>, n: nat)
    requires n <= |keys|
    requires forall i, j :: 0 <= i < j < |keys| ==> keys[i] != keys[j]
    ensures SumCounts(Tally(xs, keys)[..n]) == |KeptBy(xs, keys[..n])|
  {
    if n > 0 {
      var t := Tally(xs, keys);
      CountByKeys(xs, keys, n - 1);
      TakeOneMore(t, n - 1);
      TakeOneMore(keys, n - 1);
      assert keys[n - 1] !in keys[..n - 1];
      KeptByAdd(xs, keys[..n - 1], keys[n - 1]);
    } else {
      KeptByNone(xs);
    }
  }

  /** The elements of `xs` that are among `keys`. */
  function KeptBy(xs: seq<string>, keys: seq<string>): seq<string> {
    if xs == [] then []
    else KeptBy(xs[..|xs| - 1], keys) + (if xs[|xs| - 1] in keys then [xs[|xs| - 1]] else [])
  }

  lemma {:induction false} KeptByNone(xs: seq<string>)
    ensures KeptBy(xs, []) == []
  {
    if xs != [] {
      KeptByNone(xs[..|xs| - 1]);
    }
  }

  /** Adding a new key adds its occurrences. */
  lemma {:induction false} KeptByAdd(xs: seq<string>, keys: seq<string>, k: string)
    requires k !in keys
    ensures |KeptBy(xs, keys + [k])| == |KeptBy(xs, keys)| + Occurrences(xs, k)
  {
    if xs != [] {
      KeptByAdd(xs[..|xs| - 1], keys, k);
    }
  }

  /** With every element among the keys, nothing is dropped. */
  lemma {:induction false} KeptByAll(xs: seq<string>, keys: seq<string>)
    requires forall y :: y in xs ==> y in keys
    ensures KeptBy(xs, keys) == xs
  {
    if xs != [] {
      var init := xs[..|xs| - 1];
      assert forall y :: y in init ==> y in xs;
      KeptByAll(init, keys);
      InitLast(xs);
    }
  }

  // ---------------------------------------------------------------------------
  // the alias map
  // ---------------------------------------------------------------------------

  /** `{"canonical": ..., "section": ..., "document_id": ...}`. */
  datatype AliasEntry = AliasEntry(canonical: string, section: string, documentId: string)

  function EntryOf(d: ManDoc): AliasEntry {
    AliasEntry(d.pageName, d.section, d.documentId)
  }

  /** The inner loop: each non-empty alias, stripped, maps to the document. */
  function AddAliases(m: map<string, AliasEntry>, d: ManDoc, aliases: seq<string>): map<string, AliasEntry> {
    if aliases == [] then m
    else
      var m' := AddAliases(m, d, aliases[..|aliases| - 1]);
      var a := aliases[|aliases| - 1];
      if a == [] then m' else m'[Strip(a) := EntryOf(d)]
  }

  /** The outer loop over the documents; a later document overwrites. */
  function AliasMap(docs: seq<ManDoc>): map<string, AliasEntry> {
    if docs == [] then map[]
    else
      var last := docs[|docs| - 1];
      AddAliases(AliasMap(docs[..|docs| - 1]), last, last.aliases)
  }

  /** `write_aliases_and_section_hints`, first half: the dictionary it writes. */
  method BuildAliasMap(docs: seq<ManDoc>) returns (aliasMap: map<string, AliasEntry>)
    ensures aliasMap == AliasMap(docs)
  {
    aliasMap := map[];
    var i := 0;
    while i < |docs|
      invariant i <= |docs|
      invariant aliasMap == AliasMap(docs[..i])
    {
      aliasMap := AddDocAliases(aliasMap, docs[i]);
      TakeOneMore(docs, i);
      i := i + 1;
    }
    TakeAll(docs, i);
  }

  method AddDocAliases(m: map<string, AliasEntry>, d: ManDoc) returns (m': map<string, AliasEntry>)
    ensures m' == AddAliases(m, d, d.aliases)
  {
    m' := m;
    var j := 0;
    while j < |d.aliases|
      invariant j <= |d.aliases|
      invariant m' == AddAliases(m, d, d.aliases[..j])
    {
      var a := d.aliases[j];
      TakeOneMore(d.aliases, j);
      if a != [] {
        m' := m'[Strip(a) := EntryOf(d)];
      }
      j := j + 1;
    }
    TakeAll(d.aliases, j);
  }

  /** The list holds an alias that is not empty and strips to `key`. */
  predicate NamedIn(aliases: seq<string>, key: string) {
    exists j :: 0 <= j < |aliases| && aliases[j] != [] && Strip(aliases[j]) == key
  }

  predicate Names(d: ManDoc, key: string) {
    NamedIn(d.aliases, key)
  }

  lemma NamedInSnoc(aliases: seq<string>, key: string)
    requires aliases != []
    ensures var a := aliases[|aliases| - 1];
      NamedIn(aliases, key) <==> NamedIn(aliases[..|aliases| - 1], key) || (a != [] && Strip(a) == key)
  {
    AnySnoc(aliases, aliases[..|aliases| - 1], a => a != [] && Strip(a) == key);
  }

  /** Some element satisfies `p` exactly when one before the last does or
      the last does. */
  lemma AnySnoc<T>(s: seq<T>, init: seq<T>, p: T -> bool)
    requires s != [] && init == s[..|s| - 1]
    ensures (exists j :: 0 <= j < |s| && p(s[j]))
        <==> (exists j :: 0 <= j < |init| && p(init[j])) || p(s[|s| - 1])
  {
    if exists j :: 0 <= j < |s| && p(s[j]) {
      var j :| 0 <= j < |s| && p(s[j]);
      if j < |init| {
        assert init[j] == s[j];
      }
    }
    if exists j :: 0 <= j < |init| && p(init[j]) {
      var j :| 0 <= j < |init| && p(init[j]);
      assert init[j] == s[j];
    }
  }

  /** One document's aliases add exactly its keys. */
  lemma {:induction false} AddAliasesKeys(m: map<string, AliasEntry>, d: ManDoc, aliases: seq<string>, key: string)
    ensures key in AddAliases(m, d, aliases) <==> key in m || NamedIn(aliases, key)
  {
    if aliases != [] {
      AddAliasesKeys(m, d, aliases[..|aliases| - 1], key);
      NamedInSnoc(aliases, key);
    }
  }

  /** A key the document names maps to the document. */
  lemma {:induction false} AddAliasesNamed(m: map<string, AliasEntry>, d: ManDoc, aliases: seq<string>, key: string)
    requires NamedIn(aliases, key)
    ensures key in AddAliases(m, d, aliases) && AddAliases(m, d, aliases)[key] == EntryOf(d)
  {
    var init := aliases[..|aliases| - 1];
    var a := aliases[|aliases| - 1];
    NamedInSnoc(aliases, key);
    if !(a != [] && Strip(a) == key) {
      AddAliasesNamed(m, d, init, key);
    }
  }

  /** Other keys keep their entries. */
  lemma {:induction false} AddAliasesOthers(m: map<string, AliasEntry>, d: ManDoc, aliases: seq<string>, key: string)
    requires !NamedIn(aliases, key) && key in m
    ensures key in AddAliases(m, d, aliases) && AddAliases(m, d, aliases)[key] == m[key]
  {
    if aliases != [] {
      NamedInSnoc(aliases, key);
      AddAliasesOthers(m, d, aliases[..|aliases| - 1], key);
    }
  }

  /** The index of the last document that names `key`, if any. */
  function LastNamer(docs: seq<ManDoc>, key: string): (r: Option<nat>)
    ensures r.Some? ==> r.value < |docs| && Names(docs[r.value], key)
    ensures r.Some? ==> forall k :: r.value < k < |docs| ==> !Names(docs[k], key)
    ensures r.None? ==> forall k :: 0 <= k < |docs| ==> !Names(docs[k], key)
  {
    if docs == [] then None
    else if Names(docs[|docs| - 1], key) then Some(|docs| - 1)
    else
      var r := LastNamer(docs[..|docs| - 1], key);
      assert forall k :: 0 <= k < |docs| - 1 ==> docs[..|docs| - 1][k] == docs[k];
      r
  }

  /** A key is in the alias map exactly when some document names it, and it
      maps to the last document that does: later documents overwrite. */
  lemma {:induction false} AliasMapLastWriter(docs: seq<ManDoc>, key: string)
    ensures key in AliasMap(docs) <==> LastNamer(docs, key).Some?
    ensures key in AliasMap(docs) ==> AliasMap(docs)[key] == EntryOf(docs[LastNamer(docs, key).value])
  {
    if docs != [] {
      var n := |docs| - 1;
      var init := docs[..n];
      var d := docs[n];
      AliasMapLastWriter(init, key);
      AddAliasesKeys(AliasMap(init), d, d.aliases, key);
      if Names(d, key) {
        AddAliasesNamed(AliasMap(init), d, d.aliases, key);
      } else if key in AliasMap(init) {
        AddAliasesOthers(AliasMap(init), d, d.aliases, key);
      }
    }
  }
}
