/** The per-subsection driver (`chunk_documents`, ingest_manpages.py:846-868):
    every non-blank subsection of every document, in order, is split into
    blocks and packed into chunks under its upper-cased section name. */
module ChunkDocs {
  import opened Strings
  import opened Common
  import opened DocBuild
  import opened Blocks
  import opened Overlap
  import opened Chunker
  import opened ChunkerProps

  /** `ss.subsection_name.strip().upper() if ss.subsection_name else "SECTION"`. */
  function SectionLabel(name: string): (r: string)
    ensures forall i :: 0 <= i < |r| ==> !IsLowerAscii(r[i])
    ensures name != [] ==> r == Upper(Strip(name))
  {
    if name == [] then "SECTION" else Upper(Strip(name))
  }

  /** The chunks of one subsection; a blank one gives none. */
  function SubsectionChunks(d: ManDoc, ss: SubSection, enc: Encoder): seq<Chunk> {
    if Strip(ss.rawText) == [] then []
    else AssembleChunks(d.documentId, d.pageName, d.section, SectionLabel(ss.name),
                        SplitIntoParagraphs(ss.rawText), enc)
  }

  /** The chunks of the first subsections of a document, in order. */
  function DocChunks(d: ManDoc, subs: seq<SubSection>, enc: Encoder): seq<Chunk> {
    if subs == [] then [] else DocChunks(d, subs[..|subs| - 1], enc) + SubsectionChunks(d, subs[|subs| - 1], enc)
  }

  /** The chunks of all documents, in order. */
  function AllChunks(docs: seq<ManDoc>, enc: Encoder): seq<Chunk> {
    if docs == [] then [] else AllChunks(docs[..|docs| - 1], enc) + DocChunks(docs[|docs| - 1], docs[|docs| - 1].subsections, enc)
  }

  /** `chunk_documents(docs)` with the tokenizer as a parameter. */
  method ChunkDocuments(docs: seq<ManDoc>, enc: Encoder) returns (allChunks: seq<Chunk>)
    ensures allChunks == AllChunks(docs, enc)
  {
    allChunks := [];
    var i := 0;
    while i < |docs|
      invariant i <= |docs|
      invariant allChunks == AllChunks(docs[..i], enc)
    {
      var chunks := ChunkDocument(docs[i], enc);
      TakeOneMore(docs, i);
      allChunks := allChunks + chunks;
      i := i + 1;
    }
    TakeAll(docs, i);
  }

  /** The inner loop over one document's subsections. */
  method ChunkDocument(d: ManDoc, enc: Encoder) returns (chunks: seq<Chunk>)
    ensures chunks == DocChunks(d, d.subsections, enc)
  {
    chunks := [];
    var subs := d.subsections;
    var j := 0;
    while j < |subs|
      invariant j <= |subs|
      invariant chunks == DocChunks(d, subs[..j], enc)
    {
      var more := ChunkSubsection(d, subs[j], enc);
      TakeOneMore(subs, j);
      chunks := chunks + more;
      j := j + 1;
    }
    TakeAll(subs, j);
  }

  /** One subsection: skipped when blank, otherwise split and packed. */
  method ChunkSubsection(d: ManDoc, ss: SubSection, enc: Encoder) returns (chunks: seq<Chunk>)
    ensures chunks == SubsectionChunks(d, ss, enc)
  {
    var secName := if ss.name != [] then Upper(Strip(ss.name)) else "SECTION";
    var text := ss.rawText;
    if Strip(text) == [] {
      return [];
    }
    var blocks := SplitIntoParagraphsPreserveCode(text);
    chunks := AssembleChunksFromBlocks(d.documentId, d.pageName, d.section, secName, blocks, enc);
  }

  // ---------------------------------------------------------------------------
  // properties
  // ---------------------------------------------------------------------------

  /** What every chunk of a document holds: the document's id, an
      upper-cased section name, a non-empty text and its own token count. */
  predicate ChunkOf(c: Chunk, d: ManDoc, enc: Encoder) {
    && c.documentId == d.documentId
    && (forall k :: 0 <= k < |c.sectionName| ==> !IsLowerAscii(c.sectionName[k]))
    && c.text != []
    && c.tokenCount == |enc(c.text)|
  }

  lemma SubsectionChunksOf(d: ManDoc, ss: SubSection, enc: Encoder)
    ensures forall c :: c in SubsectionChunks(d, ss, enc) ==> ChunkOf(c, d, enc)
  {
    if Strip(ss.rawText) != [] {
      ChunkRecordsFaithful(d.documentId, d.pageName, d.section, SectionLabel(ss.name),
                           SplitIntoParagraphs(ss.rawText), enc);
    }
  }

  lemma {:induction false} DocChunksOf(d: ManDoc, subs: seq<SubSection>, enc: Encoder)
    ensures forall c :: c in DocChunks(d, subs, enc) ==> ChunkOf(c, d, enc)
  {
    if subs != [] {
      DocChunksOf(d, subs[..|subs| - 1], enc);
      SubsectionChunksOf(d, subs[|subs| - 1], enc);
    }
  }

  /** Every chunk of the corpus belongs to one of the documents and carries
      an upper-cased section name, a non-empty text and its own token count. */
  lemma {:induction false} AllChunksOf(docs: seq<ManDoc>, enc: Encoder)
    ensures forall c :: c in AllChunks(docs, enc) ==> exists d :: d in docs && ChunkOf(c, d, enc)
  {
    if docs != [] {
      var init := docs[..|docs| - 1];
      var last := docs[|docs| - 1];
      AllChunksOf(init, enc);
      DocChunksOf(last, last.subsections, enc);
      forall c | c in AllChunks(docs, enc)
        ensures exists d :: d in docs && ChunkOf(c, d, enc)
      {
        if c in AllChunks(init, enc) {
          var d :| d in init && ChunkOf(c, d, enc);
          assert d in docs;
        } else {
          assert last in docs;
        }
      }
    }
  }

  /** A blank subsection adds no chunk to its document. */
  lemma BlankSubsectionSkipped(d: ManDoc, subs: seq<SubSection>, ss: SubSection, enc: Encoder)
    requires AllSpace(ss.rawText)
    ensures DocChunks(d, subs + [ss], enc) == DocChunks(d, subs, enc)
  {
    StripEmptyIffBlank(ss.rawText);
    SplitAppend(subs, [ss]);
    AppendEmpty(DocChunks(d, subs, enc));
  }
}
