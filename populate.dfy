/** The chunk-file loader (`populate_manpages` command, `handle`,
    search/management/commands/populate_manpages.py:58-138): each line names
    its document by id; valid lines become chunk rows grouped under one
    Document object per (name, section, version), a NAME chunk may retitle
    its document, and pending rows are handed off in batches. JSON decoding
    and the database are outside the model: a line arrives already decoded,
    as missing a chunk field, or as malformed, and a handed-off batch is
    recorded as a value. */
module Populate {
  import opened Common
  import opened Strings
  import opened DocBuild

  /** A line of `chunks.jsonl`: decoded with every field; decoded with a
      `document_id` but without `section_name`, `anchor`, `text` or
      `token_count` (the `KeyError` is raised only after the line's Document
      was opened); or one that fails to decode or has no `document_id`
      (skipped outright). */
  datatype Line = Decoded(documentId: string, sectionName: string, anchor: string, text: string, tokenCount: int)
                | MissingField(documentId: string)
                | Malformed

  /** The grouping key `(name, section, version_tag)`. */
  datatype DocKey = DocKey(name: string, section: string, version: string)

  /** A Document row as it stands when its batch is handed off. */
  datatype DocValue = DocValue(name: string, section: string, title: string, sourcePath: string,
                               license: string, versionTag: string)

  /** A Chunk row; `key` names the Document object it points to. */
  datatype ChunkValue = ChunkValue(key: DocKey, sectionName: string, anchor: string, text: string,
                                   tokenCount: int, embeddingModel: string)

  /** What one call of `_process_batch` receives. */
  datatype Batch = Batch(documents: map<DocKey, DocValue>, chunks: seq<ChunkValue>)

  /** A Document object: only its title changes after creation. */
  class Document {
    const name: string
    const section: string
    var title: string
    const sourcePath: string
    const license: string
    const versionTag: string

    constructor(name: string, section: string, title: string, sourcePath: string, license: string, versionTag: string)
      ensures Value() == DocValue(name, section, title, sourcePath, license, versionTag)
    {
      this.name := name;
      this.section := section;
      this.title := title;
      this.sourcePath := sourcePath;
      this.license := license;
      this.versionTag := versionTag;
    }

    function Value(): DocValue
      reads this
    {
      DocValue(name, section, title, sourcePath, license, versionTag)
    }
  }

  // ---------------------------------------------------------------------------
  // the rules for one line, on values
  // ---------------------------------------------------------------------------

  /** The id check and decoding: exactly four `:`-parts, the first `man`. */
  function KeyOf(documentId: string): Option<DocKey> {
    var parts := Split(documentId, ':');
    if |parts| != 4 || parts[0] != "man" then None
    else Some(DocKey(parts[2], parts[3], parts[1]))
  }

  function DefaultTitle(key: DocKey): string {
    key.name + "(" + key.section + ")"
  }

  function SourcePath(key: DocKey): string {
    "man" + key.section + "/" + key.name + "." + key.section
  }

  /** A new Document for a key not yet in the batch. */
  function NewDoc(key: DocKey): DocValue {
    DocValue(key.name, key.section, DefaultTitle(key), SourcePath(key), "", key.version)
  }

  /** The title rule: a NAME chunk whose raw text is longer than the
      current title replaces it with its stripped text. */
  function Retitle(d: DocValue, sectionName: string, text: string): DocValue {
    if sectionName == "NAME" && |text| > |d.title| then d.(title := Strip(text)) else d
  }

  /** The loop's state: the open batch's documents and rows, the batches
      handed off so far, and `processed_count`. */
  datatype LoadState = LoadState(docs: map<DocKey, DocValue>, pending: seq<ChunkValue>, batches: seq<Batch>, processed: nat)

  /** `len(chunks_to_create) >= batch_size` is reached at this size. */
  function FlushSize(batchSize: int): nat {
    if batchSize >= 1 then batchSize else 1
  }

  /** One line with a valid id. */
  function Accept(st: LoadState, key: DocKey, sectionName: string, anchor: string, text: string,
                  tokenCount: int, batchSize: int, model: string): LoadState
  {
    var docs := Retitled(st.docs, key, sectionName, text);
    var pending := st.pending + [ChunkValue(key, sectionName, anchor, text, tokenCount, model)];
    if |pending| >= batchSize then LoadState(map[], [], st.batches + [Batch(docs, pending)], st.processed + 1)
    else LoadState(docs, pending, st.batches, st.processed + 1)
  }

  /** One line of the file. A line lacking a chunk field with a valid id
      still opens its Document before the chunk fails, and adds no row. */
  function Step(st: LoadState, line: Line, batchSize: int, model: string): LoadState {
    match line
    case Malformed => st
    case MissingField(documentId) =>
      (match KeyOf(documentId)
       case None => st
       case Some(key) => st.(docs := Opened(st.docs, key)))
    case Decoded(documentId, sectionName, anchor, text, tokenCount) =>
      match KeyOf(documentId)
      case None => st
      case Some(key) => Accept(st, key, sectionName, anchor, text, tokenCount, batchSize, model)
  }

  function Load(lines: seq<Line>, batchSize: int, model: string): LoadState {
    if lines == [] then LoadState(map[], [], [], 0)
    else Step(Load(lines[..|lines| - 1], batchSize, model), lines[|lines| - 1], batchSize, model)
  }

  /** The batches handed off once the file is read, leftovers included. */
  function Finish(st: LoadState): seq<Batch> {
    if st.pending != [] then st.batches + [Batch(st.docs, st.pending)] else st.batches
  }

  // ---------------------------------------------------------------------------
  // what the rules guarantee
  // ---------------------------------------------------------------------------

  /** An accepted id is exactly `man:<version>:<name>:<section>`. */
  lemma KeyOfRebuilds(documentId: string)
    requires KeyOf(documentId).Some?
    ensures var k := KeyOf(documentId).value;
      documentId == "man" + ":" + k.version + ":" + k.name + ":" + k.section
  {
    var parts := Split(documentId, ':');
    JoinSplit(documentId, ':');
    assert parts[1..][1..] == [parts[2], parts[3]];
    assert Join([parts[2], parts[3]], [':']) == parts[2] + [':'] + parts[3];
    assert Join(parts[1..], [':']) == parts[1] + [':'] + (parts[2] + [':'] + parts[3]);
  }

  /** Ids written by the ingester are accepted, with the page name, the
      section and the ingester's version as key. */
  lemma KeyOfBuiltId(pageName: string, section: string)
    requires ':' !in pageName && ':' !in section
    ensures KeyOf(DocumentId(pageName, section)) == Some(DocKey(pageName, section, Version))
  {
    DocumentIdSplit(pageName, section);
  }

  predicate Valid(line: Line) {
    line.Decoded? && KeyOf(line.documentId).Some?
  }

  function RowOf(line: Line, model: string): ChunkValue
    requires Valid(line)
  {
    ChunkValue(KeyOf(line.documentId).value, line.sectionName, line.anchor, line.text, line.tokenCount, model)
  }

  /** The rows the valid lines produce, in file order. */
  function Rows(lines: seq<Line>, model: string): (r: seq<ChunkValue>)
    ensures |r| == CountWhere(lines, Valid)
  {
    if lines == [] then []
    else
      var last := lines[|lines| - 1];
      Rows(lines[..|lines| - 1], model) + (if Valid(last) then [RowOf(last, model)] else [])
  }

  /** Every row handed off, batch after batch. */
  function AllRows(batches: seq<Batch>): seq<ChunkValue> {
    if batches == [] then [] else AllRows(batches[..|batches| - 1]) + batches[|batches| - 1].chunks
  }

  /** The batches handed off so far and the open batch hold exactly the
      rows of the valid lines read so far, in order, and
      `processed_count` counts them. */
  lemma {:induction false} LoadRows(lines: seq<Line>, batchSize: int, model: string)
    ensures var st := Load(lines, batchSize, model);
      AllRows(st.batches) + st.pending == Rows(lines, model) && st.processed == |Rows(lines, model)|
  {
    if lines != [] {
      var init := lines[..|lines| - 1];
      var st := Load(init, batchSize, model);
      var line := lines[|lines| - 1];
      LoadRows(init, batchSize, model);
      StepRows(st, line, batchSize, model);
      AppendAssoc(AllRows(st.batches), st.pending, if Valid(line) then [RowOf(line, model)] else []);
    }
  }

  lemma StepRows(st: LoadState, line: Line, batchSize: int, model: string)
    ensures var next := Step(st, line, batchSize, model);
      && AllRows(next.batches) + next.pending
         == (AllRows(st.batches) + st.pending) + (if Valid(line) then [RowOf(line, model)] else [])
      && next.processed == st.processed + (if Valid(line) then 1 else 0)
  {
    if Valid(line) {
      var row := RowOf(line, model);
      var pending := st.pending + [row];
      AppendAssoc(AllRows(st.batches), st.pending, [row]);
      if |pending| >= batchSize {
        var b := Batch(Retitled(st.docs, row.key, row.sectionName, row.text), pending);
        assert AllRows(st.batches + [b]) == AllRows(st.batches) + pending;
      }
    }
  }

  /** No row is lost or repeated: the batches handed off at the end hold
      the rows of the valid lines in file order, one per
      `processed_count`. */
  lemma HandOffComplete(lines: seq<Line>, batchSize: int, model: string)
    ensures AllRows(Finish(Load(lines, batchSize, model))) == Rows(lines, model)
    ensures Load(lines, batchSize, model).processed == CountWhere(lines, Valid)
  {
    var st := Load(lines, batchSize, model);
    LoadRows(lines, batchSize, model);
    if st.pending != [] {
      assert AllRows(st.batches + [Batch(st.docs, st.pending)]) == AllRows(st.batches) + st.pending;
    }
  }

  /** Some row of the batch belongs to the key. */
  predicate Used(k: DocKey, chunks: seq<ChunkValue>) {
    exists c :: c in chunks && c.key == k
  }

  /** A document built from the key: the default title, or the stripped
      text of one of the key's NAME rows. */
  predicate DocFor(k: DocKey, d: DocValue, chunks: seq<ChunkValue>) {
    && d.name == k.name && d.section == k.section && d.versionTag == k.version
    && d.sourcePath == SourcePath(k) && d.license == ""
    && (d.title == DefaultTitle(k)
        || exists c :: c in chunks && c.key == k && c.sectionName == "NAME" && d.title == Strip(c.text))
  }

  /** Each row's document is in the batch, and each document of the batch
      is made from its key. */
  predicate Grouped(docs: map<DocKey, DocValue>, chunks: seq<ChunkValue>) {
    && (forall c :: c in chunks ==> c.key in docs)
    && (forall k :: k in docs ==> DocFor(k, docs[k], chunks))
  }

  /** Handed-off batches are full; the open batch is not. */
  predicate Sized(st: LoadState, batchSize: int) {
    && |st.pending| < FlushSize(batchSize)
    && forall i :: 0 <= i < |st.batches| ==> |st.batches[i].chunks| == FlushSize(batchSize)
  }

  predicate AllGrouped(batches: seq<Batch>) {
    forall i :: 0 <= i < |batches| ==> Grouped(batches[i].documents, batches[i].chunks)
  }

  lemma AcceptGrouped(docs: map<DocKey, DocValue>, chunks: seq<ChunkValue>, row: ChunkValue)
    requires Grouped(docs, chunks)
    ensures Grouped(Retitled(docs, row.key, row.sectionName, row.text), chunks + [row])
  {
    var chunks' := chunks + [row];
    var docs' := Retitled(docs, row.key, row.sectionName, row.text);
    forall k | k in docs'
      ensures DocFor(k, docs'[k], chunks')
    {
      assert row in chunks';
      if k in docs && docs'[k] == docs[k] && docs[k].title != DefaultTitle(k) {
        var c :| c in chunks && c.key == k && c.sectionName == "NAME" && docs[k].title == Strip(c.text);
        assert c in chunks';
      }
    }
  }

  /** Opening a document for a key keeps the grouping. */
  lemma OpenedGrouped(docs: map<DocKey, DocValue>, chunks: seq<ChunkValue>, key: DocKey)
    requires Grouped(docs, chunks)
    ensures Grouped(Opened(docs, key), chunks)
  {
  }

  lemma StepKeeps(st: LoadState, line: Line, batchSize: int, model: string)
    requires Sized(st, batchSize) && AllGrouped(st.batches) && Grouped(st.docs, st.pending)
    ensures var next := Step(st, line, batchSize, model);
      Sized(next, batchSize) && AllGrouped(next.batches) && Grouped(next.docs, next.pending)
  {
    if Valid(line) {
      var row := RowOf(line, model);
      AcceptGrouped(st.docs, st.pending, row);
    } else if line.MissingField? && KeyOf(line.documentId).Some? {
      OpenedGrouped(st.docs, st.pending, KeyOf(line.documentId).value);
    }
  }

  lemma {:induction false} LoadKeeps(lines: seq<Line>, batchSize: int, model: string)
    ensures var st := Load(lines, batchSize, model);
      Sized(st, batchSize) && AllGrouped(st.batches) && Grouped(st.docs, st.pending)
  {
    if lines != [] {
      LoadKeeps(lines[..|lines| - 1], batchSize, model);
      StepKeeps(Load(lines[..|lines| - 1], batchSize, model), lines[|lines| - 1], batchSize, model);
    }
  }

  /** Every batch handed off is non-empty; all but the last hold exactly
      `batch_size` rows (one row when `batch_size < 1`), and the last at
      most that many. In each batch the rows of one (name, section,
      version) share one document, and every document is made from its
      key, titled `name(section)` unless a NAME row of the batch gave its
      stripped text. */
  lemma HandOffShape(lines: seq<Line>, batchSize: int, model: string)
    ensures var bs := Finish(Load(lines, batchSize, model));
      && (forall i :: 0 <= i < |bs| ==> 1 <= |bs[i].chunks| <= FlushSize(batchSize))
      && (forall i :: 0 <= i < |bs| - 1 ==> |bs[i].chunks| == FlushSize(batchSize))
      && AllGrouped(bs)
  {
    LoadKeeps(lines, batchSize, model);
  }

  /** Some line of the file lacks a chunk field but names the key. */
  predicate OpenedBy(k: DocKey, lines: seq<Line>) {
    exists i :: 0 <= i < |lines| && lines[i].MissingField? && KeyOf(lines[i].documentId) == Some(k)
  }

  /** Each document has a row of its batch, or was opened by a line that
      lacked a chunk field. */
  predicate Accounted(docs: map<DocKey, DocValue>, chunks: seq<ChunkValue>, lines: seq<Line>) {
    forall k :: k in docs ==> Used(k, chunks) || OpenedBy(k, lines)
  }

  predicate AllAccounted(batches: seq<Batch>, lines: seq<Line>) {
    forall i :: 0 <= i < |batches| ==> Accounted(batches[i].documents, batches[i].chunks, lines)
  }

  lemma {:induction false} LoadAccounted(lines: seq<Line>, batchSize: int, model: string)
    ensures var st := Load(lines, batchSize, model);
      AllAccounted(st.batches, lines) && Accounted(st.docs, st.pending, lines)
  {
    if lines != [] {
      var init := lines[..|lines| - 1];
      var line := lines[|lines| - 1];
      var st := Load(init, batchSize, model);
      LoadAccounted(init, batchSize, model);
      OpenedByLater(init, lines);
      if Valid(line) {
        var row := RowOf(line, model);
        var docs := Retitled(st.docs, row.key, row.sectionName, row.text);
        var pending := st.pending + [row];
        forall k | k in docs
          ensures Used(k, pending) || OpenedBy(k, lines)
        {
          assert row in pending;
          if k != row.key && Used(k, st.pending) {
            var c :| c in st.pending && c.key == k;
            assert c in pending;
          }
        }
      } else if line.MissingField? && KeyOf(line.documentId).Some? {
        assert OpenedBy(KeyOf(line.documentId).value, lines) by {
          assert lines[|lines| - 1] == line;
        }
      }
    }
  }

  lemma OpenedByLater(init: seq<Line>, lines: seq<Line>)
    requires init <= lines
    ensures forall k :: OpenedBy(k, init) ==> OpenedBy(k, lines)
  {
    forall k | OpenedBy(k, init)
      ensures OpenedBy(k, lines)
    {
      var i :| 0 <= i < |init| && init[i].MissingField? && KeyOf(init[i].documentId) == Some(k);
      assert lines[i] == init[i];
    }
  }

  /** Every document of a handed-off batch has a row in that batch, unless
      a line lacking a chunk field opened it; in a file without such lines,
      every document has a row. */
  lemma HandOffAccounted(lines: seq<Line>, batchSize: int, model: string)
    ensures AllAccounted(Finish(Load(lines, batchSize, model)), lines)
    ensures (forall i :: 0 <= i < |lines| ==> !lines[i].MissingField?) ==>
      var bs := Finish(Load(lines, batchSize, model));
      forall i, k :: 0 <= i < |bs| && k in bs[i].documents ==> Used(k, bs[i].chunks)
  {
    LoadAccounted(lines, batchSize, model);
  }

  /** A line lacking a chunk field leaves a Document with no row: with
      `batch_size >= 2`, a page `p` whose only line lacks `text`, followed
      by a complete line of page `q`, is handed off as one batch holding
      both Documents and only `q`'s row. */
  lemma OrphanDocument(p: string, q: string, section: string, anchor: string, text: string,
                       tokenCount: int, batchSize: int, model: string)
    requires ':' !in p && ':' !in q && ':' !in section && p != q && batchSize >= 2
    ensures var lines := [MissingField(DocumentId(p, section)),
                          Decoded(DocumentId(q, section), "DESCRIPTION", anchor, text, tokenCount)];
      var bs := Finish(Load(lines, batchSize, model));
      && |bs| == 1
      && DocKey(p, section, Version) in bs[0].documents
      && DocKey(q, section, Version) in bs[0].documents
      && !Used(DocKey(p, section, Version), bs[0].chunks)
      && |bs[0].chunks| == 1
  {
    var lines := [MissingField(DocumentId(p, section)),
                  Decoded(DocumentId(q, section), "DESCRIPTION", anchor, text, tokenCount)];
    var kp, kq := DocKey(p, section, Version), DocKey(q, section, Version);
    KeyOfBuiltId(p, section);
    KeyOfBuiltId(q, section);
    assert lines[..1] == [lines[0]];
    assert [lines[0]][..0] == [];
    var st1 := Load(lines[..1], batchSize, model);
    var st0 := Load([], batchSize, model);
    assert st1 == Step(st0, lines[0], batchSize, model);
    assert st1 == LoadState(map[kp := NewDoc(kp)], [], [], 0);
    var row := ChunkValue(kq, "DESCRIPTION", anchor, text, tokenCount, model);
    var st2 := Load(lines, batchSize, model);
    assert st2 == Accept(st1, kq, "DESCRIPTION", anchor, text, tokenCount, batchSize, model);
    assert st2.pending == [row] && st2.batches == [];
    assert kp != kq;
  }

  // ---------------------------------------------------------------------------
  // the loop, with Document objects
  // ---------------------------------------------------------------------------

  /** The batch's documents as values. */
  function Snapshot(m: map<DocKey, Document>): map<DocKey, DocValue>
    reads m.Values
  {
    map k | k in m :: m[k].Value()
  }

  /** Different keys hold different Document objects. */
  predicate Separate(m: map<DocKey, Document>) {
    forall k1, k2 :: k1 in m && k2 in m && k1 != k2 ==> m[k1] != m[k2]
  }

  /** The objects hold the values, key by key. */
  predicate Mirrors(m: map<DocKey, Document>, docs: map<DocKey, DocValue>)
    reads m.Values
  {
    m.Keys == docs.Keys && forall k :: k in m ==> m[k].Value() == docs[k]
  }

  lemma SnapshotMirrors(m: map<DocKey, Document>, docs: map<DocKey, DocValue>)
    requires Mirrors(m, docs)
    ensures Snapshot(m) == docs
  {
  }

  /** `if doc_key not in documents`: create the Document with its default
      title and source path. */
  method GetOrCreate(documents: map<DocKey, Document>, key: DocKey, ghost before: map<DocKey, DocValue>)
    returns (docs: map<DocKey, Document>)
    requires Separate(documents) && Mirrors(documents, before)
    ensures Separate(docs) && key in docs && docs.Keys == documents.Keys + {key}
    ensures forall k :: k in documents ==> docs[k] == documents[k]
    ensures key !in documents ==> fresh(docs[key])
    ensures Mirrors(docs, Opened(before, key))
  {
    docs := documents;
    if key !in docs {
      var d := new Document(key.name, key.section, DefaultTitle(key), SourcePath(key), "", key.version);
      docs := docs[key := d];
    }
  }

  /** The title update of one document; the other documents are untouched. */
  method ApplyTitle(docs: map<DocKey, Document>, key: DocKey, sectionName: string, text: string,
                    ghost before: map<DocKey, DocValue>)
    requires Separate(docs) && key in docs && Mirrors(docs, before)
    modifies docs[key]
    ensures Mirrors(docs, before[key := Retitle(before[key], sectionName, text)])
  {
    var d := docs[key];
    if sectionName == "NAME" && |text| > |d.title| {
      d.title := Strip(text);
    }
    ghost var after := before[key := Retitle(before[key], sectionName, text)];
    assert d.Value() == after[key];
    forall k | k in docs && k != key
      ensures docs[k].Value() == after[k]
    {
      assert docs[k] != d;
      assert docs[k].Value() == old(docs[k].Value()) == before[k];
    }
  }

  /** The documents after a row for `key` arrives: its document, new or
      not, with the title rule applied. */
  function Retitled(docs: map<DocKey, DocValue>, key: DocKey, sectionName: string, text: string): map<DocKey, DocValue> {
    var d := Opened(docs, key);
    d[key := Retitle(d[key], sectionName, text)]
  }

  /** The documents once the row's key has one. */
  function Opened(docs: map<DocKey, DocValue>, key: DocKey): (r: map<DocKey, DocValue>)
    ensures key in r
  {
    if key in docs then docs else docs[key := NewDoc(key)]
  }

  /** Get or create the row's document and apply the title rule to it. */
  method UpdateDocument(documents: map<DocKey, Document>, key: DocKey, sectionName: string, text: string,
                        ghost before: map<DocKey, DocValue>)
    returns (docs: map<DocKey, Document>)
    requires Separate(documents) && Mirrors(documents, before)
    modifies documents.Values
    ensures Separate(docs) && forall k :: k in docs ==> k in documents || fresh(docs[k])
    ensures forall k :: k in docs && k in documents ==> docs[k] == documents[k]
    ensures Mirrors(docs, Retitled(before, key, sectionName, text))
  {
    docs := GetOrCreate(documents, key, before);
    assert key in documents ==> docs[key] in documents.Values;
    ApplyTitle(docs, key, sectionName, text, Opened(before, key));
  }

  /** One pass of the loop: a malformed line or an invalid id is skipped; a
      line lacking a chunk field only gets or creates its Document;
      otherwise the row joins the open batch, which is handed off once it
      holds `batch_size` rows. */
  method HandleLine(documents: map<DocKey, Document>, chunks: seq<ChunkValue>, batches: seq<Batch>, processed: nat,
                    line: Line, batchSize: int, model: string, ghost st: LoadState)
    returns (documents': map<DocKey, Document>, chunks': seq<ChunkValue>, batches': seq<Batch>, processed': nat)
    requires Separate(documents) && Mirrors(documents, st.docs)
    requires chunks == st.pending && batches == st.batches && processed == st.processed
    modifies documents.Values
    ensures Separate(documents') && forall k :: k in documents' ==> k in documents || fresh(documents'[k])
    ensures forall k :: k in documents' && k in documents ==> documents'[k] == documents[k]
    ensures var next := Step(st, line, batchSize, model);
      Mirrors(documents', next.docs) && chunks' == next.pending && batches' == next.batches && processed' == next.processed
  {
    documents', chunks', batches', processed' := documents, chunks, batches, processed;
    if line.MissingField? {
      var key := KeyOf(line.documentId);
      if key.Some? {
        documents' := GetOrCreate(documents, key.value, st.docs);
      }
    } else if line.Decoded? {
      var key := KeyOf(line.documentId);
      if key.Some? {
        ghost var docs := Retitled(st.docs, key.value, line.sectionName, line.text);
        documents' := UpdateDocument(documents, key.value, line.sectionName, line.text, st.docs);
        chunks' := chunks + [ChunkValue(key.value, line.sectionName, line.anchor, line.text, line.tokenCount, model)];
        processed' := processed + 1;
        if |chunks'| >= batchSize {
          SnapshotMirrors(documents', docs);
          batches' := batches + [Batch(Snapshot(documents'), chunks')];
          documents' := map[];
          chunks' := [];
        }
      }
    }
  }

  /** `handle`'s line loop and the final hand-off: the batches passed to
      `_process_batch`, and `processed_count`. */
  method Handle(lines: seq<Line>, batchSize: int, model: string) returns (batches: seq<Batch>, processed: nat)
    ensures batches == Finish(Load(lines, batchSize, model))
    ensures processed == Load(lines, batchSize, model).processed
  {
    var documents: map<DocKey, Document> := map[];
    var chunks: seq<ChunkValue> := [];
    batches := [];
    processed := 0;
    ghost var st := Load([], batchSize, model);
    for i := 0 to |lines|
      invariant Separate(documents) && forall k :: k in documents ==> fresh(documents[k])
      invariant st == Load(lines[..i], batchSize, model)
      invariant Mirrors(documents, st.docs) && chunks == st.pending && batches == st.batches && processed == st.processed
    {
      TakeOneMore(lines, i);
      documents, chunks, batches, processed := HandleLine(documents, chunks, batches, processed, lines[i], batchSize, model, st);
      st := Step(st, lines[i], batchSize, model);
    }
    TakeAll(lines, |lines|);
    if chunks != [] {
      SnapshotMirrors(documents, st.docs);
      batches := batches + [Batch(Snapshot(documents), chunks)];
    }
  }
}
