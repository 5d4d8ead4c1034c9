/** The evaluation set (`build_eval_set`, ingest_manpages.py:882-989): one
    NAME and one SYNOPSIS question per document whose section was chunked,
    then up to three errno questions per document, shuffled and cut to the
    requested size. `random.shuffle` is a parameter: any reordering. */
module EvalSet {
  import opened Strings
  import opened Common
  import opened DocBuild
  import opened Chunker

  /** One question of the evaluation set. */
  datatype EvalItem = EvalItem(query: string, expected: seq<string>, documentId: string,
                               targetSection: string, targetAnchor: string)

  /** A shuffle: the same items, in some order. */
  ghost predicate Reorders(shuffle: seq<EvalItem> -> seq<EvalItem>) {
    forall s :: multiset(shuffle(s)) == multiset(s)
  }

  /** `by_doc_section[(doc_id, section)]`: the chunks of that document whose
      upper-cased section name is `section`, in chunk order. */
  function SectionChunks(chunks: seq<Chunk>, docId: string, section: string): (r: seq<Chunk>)
    ensures forall c :: c in r ==> c in chunks && c.documentId == docId && Upper(c.sectionName) == section
  {
    if chunks == [] then []
    else
      var c := chunks[|chunks| - 1];
      SectionChunks(chunks[..|chunks| - 1], docId, section)
        + (if c.documentId == docId && Upper(c.sectionName) == section then [c] else [])
  }

  // ---------------------------------------------------------------------------
  // NAME and SYNOPSIS questions
  // ---------------------------------------------------------------------------

  /** The lines searched: those of the stripped raw section text. */
  function RawLines(raw: Option<string>): seq<string> {
    SplitLines(Strip(if raw.Some? then raw.value else ""))
  }

  /** The first non-blank line of the section, stripped. */
  function FirstLine(raw: Option<string>): (r: Option<string>)
    ensures r.Some? ==> r.value != []
  {
    FirstLineOf(RawLines(raw))
  }

  function FirstLineOf(lines: seq<string>): (r: Option<string>)
    ensures r.Some? ==> r.value != []
  {
    var i := FirstVisibleLine(lines);
    if i.None? then None else Some(Strip(lines[i.value]))
  }

  method FindFirstLine(raw: Option<string>) returns (firstLine: Option<string>)
    ensures firstLine == FirstLine(raw)
  {
    var nameText := Strip(if raw.Some? then raw.value else "");
    if nameText == [] {
      assert RawLines(raw) == [];
      return None;
    }
    firstLine := ScanLines(SplitLines(nameText));
  }

  /** The loop with `break`. */
  method ScanLines(lines: seq<string>) returns (firstLine: Option<string>)
    ensures firstLine == FirstLineOf(lines)
  {
    var i := 0;
    while i < |lines|
      invariant i <= |lines|
      invariant forall j :: 0 <= j < i ==> Blank(lines[j])
    {
      var s := Strip(lines[i]);
      if s != [] {
        assert FirstVisibleLine(lines) == Some(i) by {
          FirstVisibleLineAt(lines, i);
        }
        return Some(s);
      }
      assert Blank(lines[i]);
      i := i + 1;
    }
    assert FirstVisibleLine(lines) == None by {
      FirstVisibleLineAt(lines, i);
    }
    return None;
  }

  /** The first non-blank line is the one after a blank prefix. */
  lemma FirstVisibleLineAt(lines: seq<string>, i: nat)
    requires i <= |lines| && forall j :: 0 <= j < i ==> Blank(lines[j])
    requires i < |lines| ==> !Blank(lines[i])
    ensures FirstVisibleLine(lines) == if i < |lines| then Some(i) else None
  {
    FirstWhereAt(lines, Blank, i);
  }

  lemma {:induction false} FirstWhereAt<T>(s: seq<T>, skip: T -> bool, i: nat)
    requires i <= |s| && forall j :: 0 <= j < i ==> skip(s[j])
    requires i < |s| ==> !skip(s[i])
    ensures FirstWhere(s, skip) == if i < |s| then Some(i) else None
  {
    if s != [] && i > 0 {
      assert forall j :: 0 <= j < i - 1 ==> s[1..][j] == s[j + 1];
      FirstWhereAt(s[1..], skip, i - 1);
    }
  }

  function NameQuery(d: ManDoc): string {
    "What is the NAME of " + d.pageName + "(" + d.section + ")?"
  }

  function SynopsisQuery(d: ManDoc): string {
    "Provide the SYNOPSIS for " + d.pageName + "(" + d.section + ")."
  }

  /** The question about a document's NAME (`section == "NAME"`) or SYNOPSIS
      section, if that section was chunked and its raw text has a non-blank
      line; it expects that line cut to 200 characters and targets the
      section's first chunk. */
  function LineItem(d: ManDoc, chunks: seq<Chunk>, section: string): Option<EvalItem> {
    var chs := SectionChunks(chunks, d.documentId, section);
    var raw := if section == "NAME" then d.nameRaw else d.synopsisRaw;
    var query := if section == "NAME" then NameQuery(d) else SynopsisQuery(d);
    var line := FirstLine(raw);
    if chs == [] || line.None? then None
    else Some(EvalItem(query, [PyPrefix(line.value, 200)], d.documentId, section, chs[0].anchor))
  }

  function LineItems(docs: seq<ManDoc>, chunks: seq<Chunk>, section: string): seq<EvalItem> {
    if docs == [] then []
    else
      var it := LineItem(docs[|docs| - 1], chunks, section);
      LineItems(docs[..|docs| - 1], chunks, section) + (if it.Some? then [it.value] else [])
  }

  /** One of the two per-document loops. */
  method CollectLineItems(docs: seq<ManDoc>, chunks: seq<Chunk>, section: string) returns (items: seq<EvalItem>)
    ensures items == LineItems(docs, chunks, section)
  {
    items := [];
    var i := 0;
    while i < |docs|
      invariant i <= |docs|
      invariant items == LineItems(docs[..i], chunks, section)
    {
      var it := LineItemOf(docs[i], chunks, section);
      TakeOneMore(docs, i);
      items := items + it;
      i := i + 1;
    }
    TakeAll(docs, i);
  }

  method LineItemOf(d: ManDoc, chunks: seq<Chunk>, section: string) returns (items: seq<EvalItem>)
    ensures var it := LineItem(d, chunks, section); items == if it.Some? then [it.value] else []
  {
    var chs := SectionChunks(chunks, d.documentId, section);
    if chs == [] {
      return [];
    }
    var raw := if section == "NAME" then d.nameRaw else d.synopsisRaw;
    var firstLine := FindFirstLine(raw);
    if firstLine.None? {
      return [];
    }
    var query := if section == "NAME" then NameQuery(d) else SynopsisQuery(d);
    items := [EvalItem(query, [PyPrefix(firstLine.value, 200)], d.documentId, section, chs[0].anchor)];
  }

  // ---------------------------------------------------------------------------
  // errno questions
  // ---------------------------------------------------------------------------

  /** `re.match(r"E[A-Z0-9_]{2,}$", c)`: an `E` and two or more upper-case
      letters, digits or underscores, and nothing else. */
  predicate IsErrnoName(c: string) {
    && |c| >= 3 && c[0] == 'E'
    && forall k :: 1 <= k < |c| ==> IsUpperAscii(c[k]) || IsDigit(c[k]) || c[k] == '_'
  }

  function ErrnoItem(d: ManDoc, ch: Chunk, c: string): EvalItem {
    EvalItem("In " + d.pageName + "(" + d.section + "), what does " + c + " mean?",
             [c], d.documentId, "ERRORS", ch.anchor)
  }

  /** The questions for the first `consts` of one chunk. */
  function ChunkErrnoItems(d: ManDoc, ch: Chunk, consts: seq<string>): seq<EvalItem> {
    if consts == [] then []
    else
      var c := consts[|consts| - 1];
      ChunkErrnoItems(d, ch, consts[..|consts| - 1]) + (if IsErrnoName(c) then [ErrnoItem(d, ch, c)] else [])
  }

  /** The questions for the first `chs` of a document's ERRORS chunks. */
  function DocErrnoItems(d: ManDoc, chs: seq<Chunk>): seq<EvalItem> {
    if chs == [] then []
    else
      var ch := chs[|chs| - 1];
      DocErrnoItems(d, chs[..|chs| - 1]) + ChunkErrnoItems(d, ch, ch.constants)
  }

  function ErrnoItems(docs: seq<ManDoc>, chunks: seq<Chunk>): seq<EvalItem> {
    if docs == [] then []
    else
      var d := docs[|docs| - 1];
      ErrnoItems(docs[..|docs| - 1], chunks) + DocErrnoItems(d, SectionChunks(chunks, d.documentId, "ERRORS"))
  }

  /** The three nested loops that gather the errno questions. */
  method CollectErrnoItems(docs: seq<ManDoc>, chunks: seq<Chunk>) returns (items: seq<EvalItem>)
    ensures items == ErrnoItems(docs, chunks)
  {
    items := [];
    var i := 0;
    while i < |docs|
      invariant i <= |docs|
      invariant items == ErrnoItems(docs[..i], chunks)
    {
      var more := CollectDocErrnoItems(docs[i], SectionChunks(chunks, docs[i].documentId, "ERRORS"));
      TakeOneMore(docs, i);
      items := items + more;
      i := i + 1;
    }
    TakeAll(docs, i);
  }

  method CollectDocErrnoItems(d: ManDoc, chs: seq<Chunk>) returns (items: seq<EvalItem>)
    ensures items == DocErrnoItems(d, chs)
  {
    items := [];
    var j := 0;
    while j < |chs|
      invariant j <= |chs|
      invariant items == DocErrnoItems(d, chs[..j])
    {
      var more := CollectChunkErrnoItems(d, chs[j]);
      TakeOneMore(chs, j);
      items := items + more;
      j := j + 1;
    }
    TakeAll(chs, j);
  }

  method CollectChunkErrnoItems(d: ManDoc, ch: Chunk) returns (items: seq<EvalItem>)
    ensures items == ChunkErrnoItems(d, ch, ch.constants)
  {
    var consts := ch.constants;
    items := [];
    var k := 0;
    while k < |consts|
      invariant k <= |consts|
      invariant items == ChunkErrnoItems(d, ch, consts[..k])
    {
      var c := consts[k];
      TakeOneMore(consts, k);
      if IsErrnoName(c) {
        items := items + [ErrnoItem(d, ch, c)];
      }
      k := k + 1;
    }
    TakeAll(consts, k);
  }

  // ---------------------------------------------------------------------------
  // the per-document cap
  // ---------------------------------------------------------------------------

  /** The most errno questions kept for one document. */
  const ErrnoPerDoc: nat := 3

  /** How many of the items are about the document. */
  function DocCount(items: seq<EvalItem>, docId: string): nat {
    if items == [] then 0
    else DocCount(items[..|items| - 1], docId) + (if items[|items| - 1].documentId == docId then 1 else 0)
  }

  /** The filter: an item is kept while its document has fewer than three. */
  function CapPerDoc(items: seq<EvalItem>): seq<EvalItem> {
    if items == [] then []
    else
      var kept := CapPerDoc(items[..|items| - 1]);
      var it := items[|items| - 1];
      if DocCount(kept, it.documentId) >= ErrnoPerDoc then kept else kept + [it]
  }

  /** The loop over the shuffled errno questions with its `errno_by_doc` tally. */
  method CapErrnoItems(items: seq<EvalItem>) returns (filtered: seq<EvalItem>)
    ensures filtered == CapPerDoc(items)
  {
    var errnoByDoc: map<string, nat> := map[];
    filtered := [];
    var i := 0;
    while i < |items|
      invariant i <= |items|
      invariant filtered == CapPerDoc(items[..i])
      invariant Tallies(errnoByDoc, filtered)
    {
      CapPerDocStep(items, i);
      errnoByDoc, filtered := CapOne(errnoByDoc, filtered, items[i]);
      i := i + 1;
    }
    TakeAll(items, i);
  }

  /** One question: kept, and counted, while its document has fewer than three. */
  method CapOne(errnoByDoc: map<string, nat>, filtered: seq<EvalItem>, it: EvalItem)
    returns (errnoByDoc': map<string, nat>, filtered': seq<EvalItem>)
    requires Tallies(errnoByDoc, filtered)
    ensures Tallies(errnoByDoc', filtered')
    ensures filtered' == if DocCount(filtered, it.documentId) >= ErrnoPerDoc then filtered else filtered + [it]
  {
    var cnt := if it.documentId in errnoByDoc then errnoByDoc[it.documentId] else 0;
    if cnt >= ErrnoPerDoc {
      return errnoByDoc, filtered;
    }
    TalliesSnoc(errnoByDoc, filtered, it);
    errnoByDoc' := errnoByDoc[it.documentId := cnt + 1];
    filtered' := filtered + [it];
  }

  /** `errno_by_doc` holds each document's count among the kept questions. */
  ghost predicate Tallies(tally: map<string, nat>, kept: seq<EvalItem>) {
    forall did :: DocCount(kept, did) == if did in tally then tally[did] else 0
  }

  lemma CapPerDocStep(items: seq<EvalItem>, i: nat)
    requires i < |items|
    ensures var kept := CapPerDoc(items[..i]);
      CapPerDoc(items[..i + 1])
        == if DocCount(kept, items[i].documentId) >= ErrnoPerDoc then kept else kept + [items[i]]
  {
    TakeOneMore(items, i);
  }

  lemma TalliesSnoc(tally: map<string, nat>, kept: seq<EvalItem>, it: EvalItem)
    requires Tallies(tally, kept)
    ensures var cnt := if it.documentId in tally then tally[it.documentId] else 0;
      Tallies(tally[it.documentId := cnt + 1], kept + [it])
  {
    DocCountSnoc(kept, it);
  }

  lemma DocCountSnoc(items: seq<EvalItem>, it: EvalItem)
    ensures forall did :: DocCount(items + [it], did) == DocCount(items, did) + (if it.documentId == did then 1 else 0)
  {
    assert (items + [it])[..|items|] == items;
  }

  // ---------------------------------------------------------------------------
  // the whole set
  // ---------------------------------------------------------------------------

  /** `combined`: the NAME questions, the SYNOPSIS questions and the capped
      errno questions, before the second shuffle. */
  function Combined(docs: seq<ManDoc>, chunks: seq<Chunk>, shuffleErrno: seq<EvalItem> -> seq<EvalItem>): seq<EvalItem> {
    LineItems(docs, chunks, "NAME") + LineItems(docs, chunks, "SYNOPSIS") + CapPerDoc(shuffleErrno(ErrnoItems(docs, chunks)))
  }

  /** `build_eval_set(docs, chunks, max_items)` with the two shuffles given. */
  function BuildEvalSet(docs: seq<ManDoc>, chunks: seq<Chunk>, maxItems: int,
                        shuffleErrno: seq<EvalItem> -> seq<EvalItem>, shuffleAll: seq<EvalItem> -> seq<EvalItem>): seq<EvalItem> {
    PyPrefix(shuffleAll(Combined(docs, chunks, shuffleErrno)), maxItems)
  }

  method BuildEvalSetLoops(docs: seq<ManDoc>, chunks: seq<Chunk>, maxItems: int,
                           shuffleErrno: seq<EvalItem> -> seq<EvalItem>, shuffleAll: seq<EvalItem> -> seq<EvalItem>)
    returns (combined: seq<EvalItem>)
    ensures combined == BuildEvalSet(docs, chunks, maxItems, shuffleErrno, shuffleAll)
  {
    var nameItems := CollectLineItems(docs, chunks, "NAME");
    var synopsisItems := CollectLineItems(docs, chunks, "SYNOPSIS");
    var errnoItems := CollectErrnoItems(docs, chunks);
    var filtered := CapErrnoItems(shuffleErrno(errnoItems));
    combined := PyPrefix(shuffleAll(nameItems + synopsisItems + filtered), maxItems);
  }

  // ---------------------------------------------------------------------------
  // properties
  // ---------------------------------------------------------------------------

  /** There is no NAME or SYNOPSIS question text exactly when every line
      of the section is blank. */
  lemma FirstLineNone(raw: Option<string>)
    ensures FirstLine(raw).None? <==> forall j :: 0 <= j < |RawLines(raw)| ==> Blank(RawLines(raw)[j])
  {
    var lines := RawLines(raw);
    var i := FirstVisibleLine(lines);
    if i.Some? {
      assert !Blank(lines[i.value]);
    }
  }

  /** Otherwise the text is the first line of the section that is not
      blank, stripped and on one line. */
  lemma FirstLineSome(raw: Option<string>)
    requires FirstLine(raw).Some?
    ensures var l := FirstLine(raw).value;
      && l == Strip(l) && '\n' !in l
      && exists i :: 0 <= i < |RawLines(raw)| && l == Strip(RawLines(raw)[i])
           && forall j :: 0 <= j < i ==> Blank(RawLines(raw)[j])
  {
    var lines := RawLines(raw);
    var i := FirstVisibleLine(lines).value;
    StrippedLine(lines[i]);
  }

  /** Stripping a line again changes nothing, and keeps it free of breaks. */
  lemma StrippedLine(line: string)
    requires '\n' !in line
    ensures Strip(Strip(line)) == Strip(line) && '\n' !in Strip(line)
  {
    StripIdempotentOnStripped(Strip(line));
    StripKeepsOut(line, '\n');
  }

  /** A character absent from a text is absent from its stripped form. */
  lemma StripKeepsOut(line: string, c: char)
    requires c !in line
    ensures c !in Strip(line)
  {
    var l := Strip(line);
    var a := StripSlice(line);
    forall k | 0 <= k < |l|
      ensures l[k] != c
    {
      assert l[k] == line[a + k];
    }
  }

  /** A NAME or SYNOPSIS question exists exactly when that section has a
      chunk and a non-blank line; it targets the section's first chunk and
      expects a non-empty text of at most 200 characters. */
  lemma LineItemShape(d: ManDoc, chunks: seq<Chunk>, section: string)
    ensures var chs := SectionChunks(chunks, d.documentId, section);
      var raw := if section == "NAME" then d.nameRaw else d.synopsisRaw;
      && (LineItem(d, chunks, section).Some? <==> chs != [] && FirstLine(raw).Some?)
      && (LineItem(d, chunks, section).Some? ==>
            var it := LineItem(d, chunks, section).value;
            && it.documentId == d.documentId && it.targetSection == section
            && it.targetAnchor == chs[0].anchor && chs[0].documentId == d.documentId
            && Upper(chs[0].sectionName) == section
            && |it.expected| == 1 && it.expected[0] != [] && |it.expected[0]| <= 200
            && it.expected[0] <= FirstLine(raw).value)
  {
    var chs := SectionChunks(chunks, d.documentId, section);
    if chs != [] {
      assert chs[0] in chs;
    }
  }

  /** Every item of `LineItems` is a question about the given section. */
  lemma {:induction false} LineItemsSection(docs: seq<ManDoc>, chunks: seq<Chunk>, section: string)
    ensures forall i :: 0 <= i < |LineItems(docs, chunks, section)| ==>
      LineItems(docs, chunks, section)[i].targetSection == section
  {
    if docs != [] {
      LineItemsSection(docs[..|docs| - 1], chunks, section);
    }
  }

  /** What an errno question comes from: a constant of the right shape in an
      ERRORS chunk of the document it names. */
  predicate ErrnoFrom(it: EvalItem, d: ManDoc, ch: Chunk) {
    && |it.expected| == 1
    && IsErrnoName(it.expected[0]) && it.expected[0] in ch.constants
    && it == ErrnoItem(d, ch, it.expected[0])
  }

  lemma {:induction false} ChunkErrnoFrom(d: ManDoc, ch: Chunk, consts: seq<string>)
    requires forall c :: c in consts ==> c in ch.constants
    ensures forall it :: it in ChunkErrnoItems(d, ch, consts) ==> ErrnoFrom(it, d, ch)
  {
    if consts != [] {
      ChunkErrnoFrom(d, ch, consts[..|consts| - 1]);
    }
  }

  lemma {:induction false} DocErrnoFrom(d: ManDoc, chs: seq<Chunk>)
    ensures forall it :: it in DocErrnoItems(d, chs) ==> exists ch :: ch in chs && ErrnoFrom(it, d, ch)
  {
    if chs != [] {
      var init := chs[..|chs| - 1];
      var ch := chs[|chs| - 1];
      DocErrnoFrom(d, init);
      ChunkErrnoFrom(d, ch, ch.constants);
      forall it | it in DocErrnoItems(d, chs)
        ensures exists c :: c in chs && ErrnoFrom(it, d, c)
      {
        if it in DocErrnoItems(d, init) {
          var c :| c in init && ErrnoFrom(it, d, c);
          assert c in chs;
        } else {
          assert ch in chs;
        }
      }
    }
  }

  /** Every errno question names a constant matching `E[A-Z0-9_]{2,}` found
      in an ERRORS chunk of one of the documents, and targets that chunk. */
  lemma {:induction false} ErrnoItemsFrom(docs: seq<ManDoc>, chunks: seq<Chunk>)
    ensures forall it :: it in ErrnoItems(docs, chunks) ==>
      exists d, ch :: d in docs && ch in SectionChunks(chunks, d.documentId, "ERRORS") && ErrnoFrom(it, d, ch)
  {
    if docs != [] {
      var init := docs[..|docs| - 1];
      var d := docs[|docs| - 1];
      ErrnoItemsFrom(init, chunks);
      DocErrnoFrom(d, SectionChunks(chunks, d.documentId, "ERRORS"));
      forall it | it in ErrnoItems(docs, chunks)
        ensures exists d', ch :: d' in docs && ch in SectionChunks(chunks, d'.documentId, "ERRORS") && ErrnoFrom(it, d', ch)
      {
        if it in ErrnoItems(init, chunks) {
          var d', ch :| d' in init && ch in SectionChunks(chunks, d'.documentId, "ERRORS") && ErrnoFrom(it, d', ch);
          assert d' in docs;
        } else {
          assert d in docs;
        }
      }
    }
  }

  /** The cap keeps, for each document, its first three questions: exactly
      `min(3, n)` of its `n` questions survive. */
  lemma {:induction false} CapPerDocCount(items: seq<EvalItem>, did: string)
    ensures DocCount(CapPerDoc(items), did) == if DocCount(items, did) < ErrnoPerDoc then DocCount(items, did) else ErrnoPerDoc
  {
    if items != [] {
      var init := items[..|items| - 1];
      var it := items[|items| - 1];
      var kept := CapPerDoc(init);
      CapPerDocCount(init, did);
      if DocCount(kept, it.documentId) < ErrnoPerDoc {
        DocCountSnoc(kept, it);
      } else if it.documentId == did {
        CapPerDocCount(init, it.documentId);
      }
    }
  }

  /** The cap only drops questions; the kept ones are in their original order. */
  lemma {:induction false} CapPerDocSubsequence(items: seq<EvalItem>)
    ensures multiset(CapPerDoc(items)) <= multiset(items)
    ensures exists idx: seq<nat> :: SubseqAt(CapPerDoc(items), items, idx)
  {
    if items == [] {
      var none: seq<nat> := [];
      assert SubseqAt([], items, none);
    } else {
      var init := items[..|items| - 1];
      CapPerDocSubsequence(init);
      InitLast(items);
      var kept := CapPerDoc(init);
      var idx: seq<nat> :| SubseqAt(kept, init, idx);
      SubseqAtSnoc(kept, init, items[|items| - 1], idx);
    }
  }

  /** Whether an item is an errno question about the document. */
  function IsErrnoOf(did: string): EvalItem -> bool {
    (it: EvalItem) => it.targetSection == "ERRORS" && it.documentId == did
  }

  lemma {:induction false} ErrnoCountBelowDocCount(items: seq<EvalItem>, did: string)
    ensures CountWhere(items, IsErrnoOf(did)) <= DocCount(items, did)
  {
    if items != [] {
      ErrnoCountBelowDocCount(items[..|items| - 1], did);
    }
  }

  /** The evaluation set has the requested size (when `max_items` is not
      negative), holds only questions built above, and asks at most three
      errno questions about any one document. */
  lemma EvalSetShape(docs: seq<ManDoc>, chunks: seq<Chunk>, maxItems: int,
                     shuffleErrno: seq<EvalItem> -> seq<EvalItem>, shuffleAll: seq<EvalItem> -> seq<EvalItem>, did: string)
    requires Reorders(shuffleErrno) && Reorders(shuffleAll)
    ensures var r := BuildEvalSet(docs, chunks, maxItems, shuffleErrno, shuffleAll);
      var all := Combined(docs, chunks, shuffleErrno);
      && multiset(r) <= multiset(all)
      && (maxItems >= 0 ==> |r| == if maxItems < |all| then maxItems else |all|)
      && CountWhere(r, IsErrnoOf(did)) <= ErrnoPerDoc
  {
    var all := Combined(docs, chunks, shuffleErrno);
    var shuffled := shuffleAll(all);
    var r := BuildEvalSet(docs, chunks, maxItems, shuffleErrno, shuffleAll);
    var names := LineItems(docs, chunks, "NAME");
    var synopses := LineItems(docs, chunks, "SYNOPSIS");
    var capped := CapPerDoc(shuffleErrno(ErrnoItems(docs, chunks)));
    assert multiset(shuffled) == multiset(all);
    assert shuffled == r + shuffled[|r|..];
    LineItemsSection(docs, chunks, "NAME");
    LineItemsSection(docs, chunks, "SYNOPSIS");
    CountWhereNone(names, IsErrnoOf(did));
    CountWhereNone(synopses, IsErrnoOf(did));
    CountWhereAppend(names, synopses, IsErrnoOf(did));
    CountWhereAppend(names + synopses, capped, IsErrnoOf(did));
    ErrnoCountBelowDocCount(capped, did);
    CapPerDocCount(shuffleErrno(ErrnoItems(docs, chunks)), did);
    CountWhereReorder(shuffled, all, IsErrnoOf(did));
    CountWherePrefix(shuffled, r, IsErrnoOf(did));
  }
}
