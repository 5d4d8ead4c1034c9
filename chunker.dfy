/** Packing the blocks of one subsection into chunks (`assemble_chunks_from_blocks`,
    ingest_manpages.py:305-366): blocks are added to a buffer while its
    token count stays within the target; a full buffer is emitted as a chunk
    and its last tokens start the next buffer. */
module Chunker {
  import opened Strings
  import opened Common
  import opened Slug
  import opened Refs
  import opened Blocks
  import opened Overlap

  /** `CHUNK_TARGET_TOKENS`. */
  const ChunkTargetTokens: nat := 550
  /** `CHUNK_OVERLAP_TOKENS`. */
  const ChunkOverlapTokens: nat := 60

  /** One chunk record. */
  datatype Chunk = Chunk(documentId: string, sectionName: string, anchor: string, text: string,
                         tokenCount: nat, seeAlsoRefs: seq<string>, constants: seq<string>)

  /** What one call knows besides its blocks. */
  datatype ChunkParams = ChunkParams(docId: string, sectionName: string, anchorBase: string, enc: Encoder)

  /** `f"{page_name}-{section_num}-{slugify(section_name or 'section')}"`. */
  function AnchorBase(pageName: string, sectionNum: string, sectionName: string): string {
    pageName + "-" + sectionNum + "-" + Slugify(if sectionName == [] then "section" else sectionName, 64)
  }

  /** `f"{anchor_base}-{seq:02d}"`. */
  function Anchor(base: string, n: nat): string {
    base + "-" + Pad2(n)
  }

  /** The record of the `n`-th chunk of a call. */
  function MakeChunk(p: ChunkParams, n: nat, text: string): Chunk {
    Chunk(p.docId, p.sectionName, Anchor(p.anchorBase, n), text, |p.enc(text)|,
          ExtractSeeAlsoRefs(text), ExtractConstants(text))
  }

  /** `"\n\n".join(buffer).strip()`. */
  function ChunkText(buffer: seq<string>): string {
    Strip(Join(buffer, "\n\n"))
  }

  /** An emitted chunk with the buffer it was made from; `carried` says the
      buffer starts with the overlap of the chunk before. */
  datatype Emit = Emit(chunk: Chunk, buffer: seq<string>, carried: bool)

  /** The loop state: `buffer`, `buffer_tokens` and `seq`, with the chunks
      emitted so far. */
  datatype AsmState = AsmState(emitted: seq<Emit>, buffer: seq<string>, bufferTokens: nat, carried: bool, seqNo: nat)

  const AsmBegin := AsmState([], [], 0, false, 1)

  /** The flush inside the loop: a non-empty chunk text is emitted and its
      overlap becomes the new buffer. */
  function Flushed(st: AsmState, p: ChunkParams): AsmState {
    var text := ChunkText(st.buffer);
    if text == [] then st
    else
      var overlap := TakeLastTokens(text, p.enc, ChunkOverlapTokens);
      AsmState(st.emitted + [Emit(MakeChunk(p, st.seqNo, text), st.buffer, st.carried)],
               if overlap != [] then [overlap] else [],
               if overlap != [] then |p.enc(overlap)| else 0,
               overlap != [],
               st.seqNo + 1)
  }

  /** One pass of the loop body. */
  function AsmStep(st: AsmState, p: ChunkParams, blk: Block): AsmState {
    var norm := Strip(blk.text);
    if norm == [] then st
    else
      var t := |p.enc(norm)|;
      var st' := if st.bufferTokens + t <= ChunkTargetTokens || st.buffer == [] then st else Flushed(st, p);
      st'.(buffer := st'.buffer + [norm], bufferTokens := st'.bufferTokens + t)
  }

  function AsmRun(blocks: seq<Block>, p: ChunkParams): AsmState {
    if blocks == [] then AsmBegin else AsmStep(AsmRun(blocks[..|blocks| - 1], p), p, blocks[|blocks| - 1])
  }

  /** The flush after the loop. */
  function AsmFinish(st: AsmState, p: ChunkParams): seq<Emit> {
    if st.buffer != [] && ChunkText(st.buffer) != [] then
      st.emitted + [Emit(MakeChunk(p, st.seqNo, ChunkText(st.buffer)), st.buffer, st.carried)]
    else st.emitted
  }

  function ChunksOf(emitted: seq<Emit>): (r: seq<Chunk>)
    ensures |r| == |emitted|
    ensures forall i :: 0 <= i < |r| ==> r[i] == emitted[i].chunk
  {
    if emitted == [] then [] else ChunksOf(emitted[..|emitted| - 1]) + [emitted[|emitted| - 1].chunk]
  }

  /** The chunks of one call, with the buffers they were made from. */
  function Emissions(blocks: seq<Block>, p: ChunkParams): seq<Emit> {
    AsmFinish(AsmRun(blocks, p), p)
  }

  function Params(docId: string, pageName: string, sectionNum: string, sectionName: string, enc: Encoder): ChunkParams {
    ChunkParams(docId, sectionName, AnchorBase(pageName, sectionNum, sectionName), enc)
  }

  /** `assemble_chunks_from_blocks(...)`. */
  function AssembleChunks(docId: string, pageName: string, sectionNum: string, sectionName: string,
                          blocks: seq<Block>, enc: Encoder): seq<Chunk> {
    ChunksOf(Emissions(blocks, Params(docId, pageName, sectionNum, sectionName, enc)))
  }

  // ---------------------------------------------------------------------------
  // the loop
  // ---------------------------------------------------------------------------

  /** `assemble_chunks_from_blocks(...)`: one pass over the blocks, then the
      last flush. */
  method AssembleChunksFromBlocks(docId: string, pageName: string, sectionNum: string, sectionName: string,
                                  blocks: seq<Block>, enc: Encoder)
    returns (chunks: seq<Chunk>)
    ensures chunks == AssembleChunks(docId, pageName, sectionNum, sectionName, blocks, enc)
  {
    var secSlug := Slugify(if sectionName == [] then "section" else sectionName, 64);
    var anchorBase := pageName + "-" + sectionNum + "-" + secSlug;
    var p := ChunkParams(docId, sectionName, anchorBase, enc);
    assert p == Params(docId, pageName, sectionNum, sectionName, enc);
    chunks := [];
    ghost var emitted: seq<Emit> := [];
    var buffer: seq<string> := [];
    var bufferTokens: nat := 0;
    ghost var carried := false;
    var seqNo: nat := 1;
    var i := 0;
    while i < |blocks|
      invariant i <= |blocks|
      invariant AsmState(emitted, buffer, bufferTokens, carried, seqNo) == AsmRun(blocks[..i], p)
      invariant chunks == ChunksOf(emitted)
    {
      TakeOneMore(blocks, i);
      chunks, emitted, buffer, bufferTokens, carried, seqNo :=
        AddBlock(p, chunks, emitted, buffer, bufferTokens, carried, seqNo, blocks[i]);
      i := i + 1;
    }
    TakeAll(blocks, i);
    chunks, emitted := FinalFlush(p, chunks, emitted, buffer, bufferTokens, carried, seqNo);
  }

  /** The flush after the loop. */
  method FinalFlush(p: ChunkParams, chunks: seq<Chunk>, ghost emitted: seq<Emit>, buffer: seq<string>,
                    bufferTokens: nat, ghost carried: bool, seqNo: nat)
    returns (chunks': seq<Chunk>, ghost emitted': seq<Emit>)
    requires chunks == ChunksOf(emitted)
    ensures emitted' == AsmFinish(AsmState(emitted, buffer, bufferTokens, carried, seqNo), p)
    ensures chunks' == ChunksOf(emitted')
  {
    chunks', emitted' := chunks, emitted;
    if buffer != [] {
      var chunkText := Strip(Join(buffer, "\n\n"));
      if chunkText != [] {
        var c := MakeChunk(p, seqNo, chunkText);
        ghost var e := Emit(c, buffer, carried);
        ChunksOfSnoc(emitted, e);
        chunks', emitted' := chunks + [c], emitted + [e];
      }
    }
  }

  /** The loop body for one block. */
  method AddBlock(p: ChunkParams, chunks: seq<Chunk>, ghost emitted: seq<Emit>, buffer: seq<string>,
                  bufferTokens: nat, ghost carried: bool, seqNo: nat, blk: Block)
    returns (chunks': seq<Chunk>, ghost emitted': seq<Emit>, buffer': seq<string>,
             bufferTokens': nat, ghost carried': bool, seqNo': nat)
    requires chunks == ChunksOf(emitted)
    ensures AsmState(emitted', buffer', bufferTokens', carried', seqNo')
         == AsmStep(AsmState(emitted, buffer, bufferTokens, carried, seqNo), p, blk)
    ensures chunks' == ChunksOf(emitted')
  {
    chunks', emitted', buffer', bufferTokens', carried', seqNo' := chunks, emitted, buffer, bufferTokens, carried, seqNo;
    ghost var st := AsmState(emitted, buffer, bufferTokens, carried, seqNo);
    var blkTextNorm := Strip(blk.text);
    if blkTextNorm == [] {
      return;
    }
    var tcount := |p.enc(blkTextNorm)|;
    if bufferTokens + tcount <= ChunkTargetTokens || buffer == [] {
      AsmStepAppends(st, p, blk);
      buffer' := buffer + [blkTextNorm];
      bufferTokens' := bufferTokens + tcount;
      return;
    }
    AsmStepFlushes(st, p, blk);
    chunks', emitted', buffer', bufferTokens', carried', seqNo' := FlushBuffer(p, chunks, emitted, buffer, bufferTokens, carried, seqNo);
    buffer' := buffer' + [blkTextNorm];
    bufferTokens' := bufferTokens' + tcount;
  }

  lemma AsmStepAppends(st: AsmState, p: ChunkParams, blk: Block)
    requires Strip(blk.text) != []
    requires st.bufferTokens + |p.enc(Strip(blk.text))| <= ChunkTargetTokens || st.buffer == []
    ensures AsmStep(st, p, blk)
         == st.(buffer := st.buffer + [Strip(blk.text)], bufferTokens := st.bufferTokens + |p.enc(Strip(blk.text))|)
  {
  }

  lemma AsmStepFlushes(st: AsmState, p: ChunkParams, blk: Block)
    requires Strip(blk.text) != []
    requires !(st.bufferTokens + |p.enc(Strip(blk.text))| <= ChunkTargetTokens || st.buffer == [])
    ensures var f := Flushed(st, p);
      AsmStep(st, p, blk) == f.(buffer := f.buffer + [Strip(blk.text)], bufferTokens := f.bufferTokens + |p.enc(Strip(blk.text))|)
  {
  }

  /** The flush inside the loop. */
  method FlushBuffer(p: ChunkParams, chunks: seq<Chunk>, ghost emitted: seq<Emit>, buffer: seq<string>,
                     bufferTokens: nat, ghost carried: bool, seqNo: nat)
    returns (chunks': seq<Chunk>, ghost emitted': seq<Emit>, buffer': seq<string>,
             bufferTokens': nat, ghost carried': bool, seqNo': nat)
    requires chunks == ChunksOf(emitted)
    ensures AsmState(emitted', buffer', bufferTokens', carried', seqNo')
         == Flushed(AsmState(emitted, buffer, bufferTokens, carried, seqNo), p)
    ensures chunks' == ChunksOf(emitted')
  {
    var chunkText := Strip(Join(buffer, "\n\n"));
    if chunkText == [] {
      return chunks, emitted, buffer, bufferTokens, carried, seqNo;
    }
    chunks', emitted' := EmitChunk(p, chunks, emitted, buffer, carried, seqNo, chunkText);
    seqNo' := seqNo + 1;
    var overlapText := TakeLastTokensText(chunkText, p.enc, ChunkOverlapTokens);
    buffer' := if overlapText != [] then [overlapText] else [];
    bufferTokens' := if overlapText != [] then |p.enc(overlapText)| else 0;
    carried' := overlapText != [];
  }

  /** `chunks.append({...})` for the `seq`-th chunk. */
  method EmitChunk(p: ChunkParams, chunks: seq<Chunk>, ghost emitted: seq<Emit>, buffer: seq<string>,
                   ghost carried: bool, seqNo: nat, chunkText: string)
    returns (chunks': seq<Chunk>, ghost emitted': seq<Emit>)
    requires chunks == ChunksOf(emitted)
    ensures emitted' == emitted + [Emit(MakeChunk(p, seqNo, chunkText), buffer, carried)]
    ensures chunks' == ChunksOf(emitted')
  {
    var c := MakeChunk(p, seqNo, chunkText);
    ghost var e := Emit(c, buffer, carried);
    ChunksOfSnoc(emitted, e);
    chunks', emitted' := chunks + [c], emitted + [e];
  }

  lemma ChunksOfSnoc(emitted: seq<Emit>, e: Emit)
    ensures ChunksOf(emitted + [e]) == ChunksOf(emitted) + [e.chunk]
  {
    SplitAppend(emitted, [e]);
  }
}
