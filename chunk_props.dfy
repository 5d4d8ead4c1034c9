/** What `assemble_chunks_from_blocks` (ingest_manpages.py:305-366) promises
    about its output: chunks numbered `-01`, `-02`, … with the token count
    of their own text; every non-empty block whole, in order, in exactly one
    chunk as new text; the buffer after a flush opening with a suffix of the
    flushed chunk; and a single chunk when everything fits the target. */
module ChunkerProps {
  import opened Strings
  import opened Common
  import opened Blocks
  import opened Overlap
  import opened Chunker

  // ---------------------------------------------------------------------------
  // numbering
  // ---------------------------------------------------------------------------

  /** The `i`-th emitted chunk is made from a non-empty text and numbered `i + 1`. */
  predicate NumberedFrom(emitted: seq<Emit>, p: ChunkParams) {
    forall i :: 0 <= i < |emitted| ==> IsChunkNo(emitted[i], p, i + 1)
  }

  /** An emission is the `n`-th chunk, made from a non-empty text. */
  predicate IsChunkNo(e: Emit, p: ChunkParams, n: nat) {
    ChunkText(e.buffer) != [] && e.chunk == MakeChunk(p, n, ChunkText(e.buffer))
  }

  /** `seq` is one past the number of chunks emitted. */
  predicate Numbered(st: AsmState, p: ChunkParams) {
    st.seqNo == |st.emitted| + 1 && NumberedFrom(st.emitted, p)
  }

  lemma NumberedSnoc(emitted: seq<Emit>, p: ChunkParams, e: Emit)
    requires NumberedFrom(emitted, p)
    requires IsChunkNo(e, p, |emitted| + 1)
    ensures NumberedFrom(emitted + [e], p)
  {
    forall i | 0 <= i < |emitted| + 1
      ensures IsChunkNo((emitted + [e])[i], p, i + 1)
    {
      if i < |emitted| {
        assert (emitted + [e])[i] == emitted[i];
      } else {
        assert (emitted + [e])[i] == e;
      }
    }
  }

  lemma FlushedNumbered(st: AsmState, p: ChunkParams)
    requires Numbered(st, p)
    ensures Numbered(Flushed(st, p), p)
  {
    var text := ChunkText(st.buffer);
    if text != [] {
      NumberedSnoc(st.emitted, p, Emit(MakeChunk(p, st.seqNo, text), st.buffer, st.carried));
    }
  }

  lemma StepNumbered(st: AsmState, p: ChunkParams, blk: Block)
    requires Numbered(st, p)
    ensures Numbered(AsmStep(st, p, blk), p)
  {
    var norm := Strip(blk.text);
    var next := AsmStep(st, p, blk);
    if norm != [] {
      var t := |p.enc(norm)|;
      if st.bufferTokens + t <= ChunkTargetTokens || st.buffer == [] {
        assert next.emitted == st.emitted && next.seqNo == st.seqNo;
      } else {
        var st' := Flushed(st, p);
        FlushedNumbered(st, p);
        assert next.emitted == st'.emitted && next.seqNo == st'.seqNo;
      }
    }
  }

  lemma {:induction false} RunNumbered(blocks: seq<Block>, p: ChunkParams)
    ensures Numbered(AsmRun(blocks, p), p)
  {
    if blocks != [] {
      RunNumbered(blocks[..|blocks| - 1], p);
      StepNumbered(AsmRun(blocks[..|blocks| - 1], p), p, blocks[|blocks| - 1]);
    }
  }

  lemma EmissionsNumbered(blocks: seq<Block>, p: ChunkParams)
    ensures NumberedFrom(Emissions(blocks, p), p)
  {
    RunNumbered(blocks, p);
    var st := AsmRun(blocks, p);
    if st.buffer != [] && ChunkText(st.buffer) != [] {
      NumberedSnoc(st.emitted, p, Emit(MakeChunk(p, st.seqNo, ChunkText(st.buffer)), st.buffer, st.carried));
    }
  }

  /** The chunks of one call as records made by `MakeChunk`, numbered from 1. */
  lemma ChunksNumbered(docId: string, pageName: string, sectionNum: string, sectionName: string,
                       blocks: seq<Block>, enc: Encoder)
    ensures var p := Params(docId, pageName, sectionNum, sectionName, enc);
      var cs := AssembleChunks(docId, pageName, sectionNum, sectionName, blocks, enc);
      forall i :: 0 <= i < |cs| ==> cs[i].text != [] && cs[i] == MakeChunk(p, i + 1, cs[i].text)
  {
    var p := Params(docId, pageName, sectionNum, sectionName, enc);
    EmissionsNumbered(blocks, p);
  }

  /** Anchors run `base-01`, `base-02`, … in emission order. */
  lemma ChunkAnchorsConsecutive(docId: string, pageName: string, sectionNum: string, sectionName: string,
                                blocks: seq<Block>, enc: Encoder)
    ensures var cs := AssembleChunks(docId, pageName, sectionNum, sectionName, blocks, enc);
      forall i :: 0 <= i < |cs| ==> cs[i].anchor == Anchor(AnchorBase(pageName, sectionNum, sectionName), i + 1)
  {
    ChunksNumbered(docId, pageName, sectionNum, sectionName, blocks, enc);
  }

  /** Each chunk's `token_count` is the length of its own text's encoding,
      its text is not empty, and it carries the call's document id and
      section name. */
  lemma ChunkRecordsFaithful(docId: string, pageName: string, sectionNum: string, sectionName: string,
                             blocks: seq<Block>, enc: Encoder)
    ensures var cs := AssembleChunks(docId, pageName, sectionNum, sectionName, blocks, enc);
      forall i :: 0 <= i < |cs| ==>
        && cs[i].text != []
        && cs[i].tokenCount == |enc(cs[i].text)|
        && cs[i].documentId == docId
        && cs[i].sectionName == sectionName
  {
    ChunksNumbered(docId, pageName, sectionNum, sectionName, blocks, enc);
  }

  /** Different numbers give different anchors. */
  lemma AnchorInjective(base: string, m: nat, n: nat)
    requires Anchor(base, m) == Anchor(base, n)
    ensures m == n
  {
    var a := Anchor(base, m);
    assert a[|base| + 1..] == Pad2(m);
    assert Anchor(base, n)[|base| + 1..] == Pad2(n);
    Pad2Injective(m, n);
  }

  /** Anchors are distinct within one call. */
  lemma ChunkAnchorsDistinct(docId: string, pageName: string, sectionNum: string, sectionName: string,
                             blocks: seq<Block>, enc: Encoder)
    ensures var cs := AssembleChunks(docId, pageName, sectionNum, sectionName, blocks, enc);
      forall i, j :: 0 <= i < j < |cs| ==> cs[i].anchor != cs[j].anchor
  {
    ChunkAnchorsConsecutive(docId, pageName, sectionNum, sectionName, blocks, enc);
    NumberedAnchorsDistinct(AssembleChunks(docId, pageName, sectionNum, sectionName, blocks, enc),
                            AnchorBase(pageName, sectionNum, sectionName));
  }

  lemma NumberedAnchorsDistinct(cs: seq<Chunk>, base: string)
    requires forall i :: 0 <= i < |cs| ==> cs[i].anchor == Anchor(base, i + 1)
    ensures forall i, j :: 0 <= i < j < |cs| ==> cs[i].anchor != cs[j].anchor
  {
    forall i, j | 0 <= i < j < |cs|
      ensures cs[i].anchor != cs[j].anchor
    {
      if cs[i].anchor == cs[j].anchor {
        AnchorInjective(base, i + 1, j + 1);
      }
    }
  }

  // ---------------------------------------------------------------------------
  // the carried overlap
  // ---------------------------------------------------------------------------

  /** A chunk whose buffer was carried over starts from a suffix of the chunk
      before it. */
  predicate CarriesOverlap(emitted: seq<Emit>) {
    forall i :: 0 <= i < |emitted| && emitted[i].carried ==>
      0 < i && emitted[i].buffer != [] && EndsWith(emitted[i - 1].chunk.text, emitted[i].buffer[0])
  }

  /** The same for the open buffer. */
  predicate Carrying(st: AsmState) {
    && CarriesOverlap(st.emitted)
    && (st.carried ==> st.emitted != [] && st.buffer != []
                       && EndsWith(st.emitted[|st.emitted| - 1].chunk.text, st.buffer[0]))
  }

  lemma CarriesSnoc(emitted: seq<Emit>, e: Emit)
    requires CarriesOverlap(emitted)
    requires e.carried ==> emitted != [] && e.buffer != [] && EndsWith(emitted[|emitted| - 1].chunk.text, e.buffer[0])
    ensures CarriesOverlap(emitted + [e])
  {
    forall i | 0 <= i < |emitted| + 1
      ensures (emitted + [e])[i] == if i < |emitted| then emitted[i] else e
    {
    }
  }

  lemma FlushedCarrying(st: AsmState, p: ChunkParams)
    requires Carrying(st)
    ensures Carrying(Flushed(st, p))
  {
    var text := ChunkText(st.buffer);
    if text != [] {
      FlushedFields(st, p);
      var e := Emit(MakeChunk(p, st.seqNo, text), st.buffer, st.carried);
      CarriesSnoc(st.emitted, e);
      var st' := Flushed(st, p);
      assert st'.emitted[|st'.emitted| - 1].chunk.text == text;
      TakeLastIsSuffix(text, p.enc, ChunkOverlapTokens);
    }
  }

  lemma StepCarrying(st: AsmState, p: ChunkParams, blk: Block)
    requires Carrying(st)
    ensures Carrying(AsmStep(st, p, blk))
  {
    FlushedCarrying(st, p);
    var norm := Strip(blk.text);
    if norm != [] {
      var t := |p.enc(norm)|;
      var st' := if st.bufferTokens + t <= ChunkTargetTokens || st.buffer == [] then st else Flushed(st, p);
      if st'.carried {
        assert (st'.buffer + [norm])[0] == st'.buffer[0];
      }
    }
  }

  lemma {:induction false} RunCarrying(blocks: seq<Block>, p: ChunkParams)
    ensures Carrying(AsmRun(blocks, p))
  {
    if blocks != [] {
      RunCarrying(blocks[..|blocks| - 1], p);
      StepCarrying(AsmRun(blocks[..|blocks| - 1], p), p, blocks[|blocks| - 1]);
    }
  }

  /** Every buffer that was carried over opens with a suffix of the chunk
      emitted just before it. */
  lemma EmissionsCarryOverlap(blocks: seq<Block>, p: ChunkParams)
    ensures CarriesOverlap(Emissions(blocks, p))
  {
    RunCarrying(blocks, p);
    var st := AsmRun(blocks, p);
    if st.buffer != [] && ChunkText(st.buffer) != [] {
      CarriesSnoc(st.emitted, Emit(MakeChunk(p, st.seqNo, ChunkText(st.buffer)), st.buffer, st.carried));
    }
  }

  // ---------------------------------------------------------------------------
  // whole blocks, in order
  // ---------------------------------------------------------------------------

  /** Visible at both ends (and so not empty). */
  predicate VisibleEnds(s: string) {
    s != [] && !IsSpace(s[0]) && !IsSpace(s[|s| - 1])
  }

  predicate AllVisibleEnds(parts: seq<string>) {
    forall i :: 0 <= i < |parts| ==> VisibleEnds(parts[i])
  }

  /** The non-empty stripped blocks, in order: what the loop adds to buffers. */
  function Norms(blocks: seq<Block>): (r: seq<string>)
    ensures AllVisibleEnds(r)
  {
    if blocks == [] then []
    else
      var init := Norms(blocks[..|blocks| - 1]);
      var n := Strip(blocks[|blocks| - 1].text);
      if n == [] then init
      else
        assert VisibleEnds(n);
        AllVisibleSnoc(init, n);
        init + [n]
  }

  /** The part of a buffer that is new text: all of it, less the overlap
      that opens a carried buffer. */
  function Fresh(buffer: seq<string>, carried: bool): seq<string> {
    if carried && buffer != [] then buffer[1..] else buffer
  }

  /** The new text of the emitted chunks, in order. */
  function Flat(emitted: seq<Emit>): seq<string> {
    if emitted == [] then []
    else Flat(emitted[..|emitted| - 1]) + Fresh(emitted[|emitted| - 1].buffer, emitted[|emitted| - 1].carried)
  }

  /** Every emitted buffer is non-empty and made of texts with visible ends. */
  predicate WholeBuffers(emitted: seq<Emit>) {
    forall i :: 0 <= i < |emitted| ==> emitted[i].buffer != [] && AllVisibleEnds(emitted[i].buffer)
  }

  /** The loop invariant: the new text of the emitted chunks and of the open
      buffer is exactly the non-empty blocks read so far. */
  predicate Covers(st: AsmState, blocks: seq<Block>) {
    && Flat(st.emitted) + Fresh(st.buffer, st.carried) == Norms(blocks)
    && (st.carried ==> st.buffer != [])
    && AllVisibleEnds(st.buffer)
    && WholeBuffers(st.emitted)
  }

  lemma FlatSnoc(emitted: seq<Emit>, e: Emit)
    ensures Flat(emitted + [e]) == Flat(emitted) + Fresh(e.buffer, e.carried)
  {
    SplitAppend(emitted, [e]);
  }

  lemma WholeSnoc(emitted: seq<Emit>, e: Emit)
    requires WholeBuffers(emitted) && e.buffer != [] && AllVisibleEnds(e.buffer)
    ensures WholeBuffers(emitted + [e])
  {
    forall i | 0 <= i < |emitted| + 1
      ensures (emitted + [e])[i] == if i < |emitted| then emitted[i] else e
    {
    }
  }

  lemma NormsSnoc(blocks: seq<Block>, b: Block)
    ensures Norms(blocks + [b]) == Norms(blocks) + (if Strip(b.text) == [] then [] else [Strip(b.text)])
  {
    SplitAppend(blocks, [b]);
  }

  /** A buffer of texts with visible ends has a non-empty chunk text. */
  lemma ChunkTextOfVisible(buffer: seq<string>)
    requires buffer != [] && AllVisibleEnds(buffer)
    ensures ChunkText(buffer) != []
  {
    assert !IsSpace(buffer[0][0]);
    JoinNotBlank(buffer, "\n\n", 0);
    StripEmptyIffBlank(Join(buffer, "\n\n"));
  }

  /** The fields of the state after a flush that emits. */
  lemma FlushedFields(st: AsmState, p: ChunkParams)
    requires ChunkText(st.buffer) != []
    ensures var text := ChunkText(st.buffer);
      var o := TakeLastTokens(text, p.enc, ChunkOverlapTokens);
      && Flushed(st, p).emitted == st.emitted + [Emit(MakeChunk(p, st.seqNo, text), st.buffer, st.carried)]
      && Flushed(st, p).buffer == (if o != [] then [o] else [])
      && Flushed(st, p).carried == (o != [])
  {
  }

  /** After a flush that emits, only the overlap is open, and it has visible ends. */
  lemma FlushedOpen(st: AsmState, p: ChunkParams)
    requires st.buffer != [] && AllVisibleEnds(st.buffer)
    ensures var st' := Flushed(st, p);
      && Fresh(st'.buffer, st'.carried) == []
      && (st'.carried ==> st'.buffer != [])
      && AllVisibleEnds(st'.buffer)
  {
    ChunkTextOfVisible(st.buffer);
    FlushedFields(st, p);
    OverlapOfVisible(st.buffer, p.enc);
    OverlapOpen(Flushed(st, p).buffer, Flushed(st, p).carried);
  }

  /** The overlap of a buffer of texts with visible ends has visible ends. */
  lemma OverlapOfVisible(buffer: seq<string>, enc: Encoder)
    requires buffer != [] && AllVisibleEnds(buffer)
    ensures var o := TakeLastTokens(ChunkText(buffer), enc, ChunkOverlapTokens);
      o != [] ==> VisibleEnds(o)
  {
    ChunkTextOfVisible(buffer);
    OverlapVisibleEnds(ChunkText(buffer), enc, ChunkOverlapTokens);
  }

  /** A buffer holding nothing or just a carried overlap has no new text. */
  lemma OverlapOpen(buffer: seq<string>, carried: bool)
    requires (carried && |buffer| == 1 && VisibleEnds(buffer[0])) || (!carried && buffer == [])
    ensures Fresh(buffer, carried) == [] && (carried ==> buffer != []) && AllVisibleEnds(buffer)
  {
  }

  /** A flush that emits adds the open buffer's new text to the emitted text. */
  lemma FlushedFlat(st: AsmState, p: ChunkParams)
    requires st.buffer != [] && AllVisibleEnds(st.buffer) && WholeBuffers(st.emitted)
    ensures Flat(Flushed(st, p).emitted) == Flat(st.emitted) + Fresh(st.buffer, st.carried)
    ensures WholeBuffers(Flushed(st, p).emitted)
  {
    var text := ChunkText(st.buffer);
    ChunkTextOfVisible(st.buffer);
    FlushedFields(st, p);
    var e := Emit(MakeChunk(p, st.seqNo, text), st.buffer, st.carried);
    FlatSnoc(st.emitted, e);
    WholeSnoc(st.emitted, e);
  }

  /** The flush files the open buffer's new text under the emitted chunk and
      leaves only the overlap open. */
  lemma FlushedCovers(st: AsmState, p: ChunkParams, blocks: seq<Block>)
    requires Covers(st, blocks) && st.buffer != []
    ensures Covers(Flushed(st, p), blocks)
    ensures Fresh(Flushed(st, p).buffer, Flushed(st, p).carried) == []
  {
    var st' := Flushed(st, p);
    FlushedOpen(st, p);
    FlushedFlat(st, p);
    AppendEmpty(Flat(st'.emitted));
  }

  lemma StepCovers(st: AsmState, p: ChunkParams, blocks: seq<Block>, blk: Block)
    requires Covers(st, blocks)
    ensures Covers(AsmStep(st, p, blk), blocks + [blk])
  {
    NormsSnoc(blocks, blk);
    var norm := Strip(blk.text);
    if norm == [] {
      AppendEmpty(Norms(blocks));
    } else {
      var t := |p.enc(norm)|;
      var st' := if st.bufferTokens + t <= ChunkTargetTokens || st.buffer == [] then st else Flushed(st, p);
      if st' != st {
        FlushedCovers(st, p, blocks);
      }
      AppendFresh(st'.buffer, st'.carried, norm);
      AppendAssoc(Flat(st'.emitted), Fresh(st'.buffer, st'.carried), [norm]);
      AllVisibleSnoc(st'.buffer, norm);
    }
  }

  lemma AppendFresh(buffer: seq<string>, carried: bool, x: string)
    requires carried ==> buffer != []
    ensures Fresh(buffer + [x], carried) == Fresh(buffer, carried) + [x]
  {
  }

  lemma AllVisibleSnoc(parts: seq<string>, x: string)
    requires AllVisibleEnds(parts) && VisibleEnds(x)
    ensures AllVisibleEnds(parts + [x])
  {
    forall i | 0 <= i < |parts| + 1
      ensures (parts + [x])[i] == if i < |parts| then parts[i] else x
    {
    }
  }

  lemma {:induction false} RunCovers(blocks: seq<Block>, p: ChunkParams)
    ensures Covers(AsmRun(blocks, p), blocks)
  {
    if blocks != [] {
      var init := blocks[..|blocks| - 1];
      RunCovers(init, p);
      StepCovers(AsmRun(init, p), p, init, blocks[|blocks| - 1]);
      InitLast(blocks);
    }
  }

  /** After the last flush, the new text of the chunks is exactly the
      non-empty stripped blocks in order, and every chunk was made from a
      non-empty buffer of texts with visible ends. */
  lemma EmissionsCover(blocks: seq<Block>, p: ChunkParams)
    ensures Flat(Emissions(blocks, p)) == Norms(blocks)
    ensures WholeBuffers(Emissions(blocks, p))
  {
    RunCovers(blocks, p);
    var st := AsmRun(blocks, p);
    if st.buffer != [] {
      ChunkTextOfVisible(st.buffer);
      var e := Emit(MakeChunk(p, st.seqNo, ChunkText(st.buffer)), st.buffer, st.carried);
      FlatSnoc(st.emitted, e);
      WholeSnoc(st.emitted, e);
    } else {
      AppendEmpty(Flat(st.emitted));
    }
  }

  /** Joining texts with visible ends needs no strip. */
  lemma JoinVisible(buffer: seq<string>)
    requires buffer != [] && AllVisibleEnds(buffer)
    ensures ChunkText(buffer) == Join(buffer, "\n\n")
  {
    var j := Join(buffer, "\n\n");
    var k := JoinOffset(buffer, "\n\n", 0);
    assert j[0] == buffer[0][0];
    JoinLast(buffer, "\n\n");
    StripIdempotentOnStripped(j);
  }

  /** A join ends with its last part. */
  lemma {:induction false} JoinLast(parts: seq<string>, sep: string)
    requires parts != []
    ensures EndsWith(Join(parts, sep), parts[|parts| - 1])
  {
    if |parts| > 1 {
      JoinLast(parts[1..], sep);
      var r := Join(parts[1..], sep);
      var j := parts[0] + sep + r;
      assert j[|j| - |r|..] == r;
    }
  }

  /** Every chunk's text is its buffer joined by blank lines, so each block
      it holds appears in it whole. */
  lemma ChunkTextsAreJoins(blocks: seq<Block>, p: ChunkParams)
    ensures var em := Emissions(blocks, p);
      forall i :: 0 <= i < |em| ==> em[i].chunk.text == Join(em[i].buffer, "\n\n")
  {
    var em := Emissions(blocks, p);
    EmissionsCover(blocks, p);
    EmissionsNumbered(blocks, p);
    forall i | 0 <= i < |em|
      ensures em[i].chunk.text == Join(em[i].buffer, "\n\n")
    {
      JoinVisible(em[i].buffer);
    }
  }

  /** The chunk text opens with the first text of its buffer; for a carried
      buffer that is the overlap taken from the end of the chunk before. */
  lemma CarriedChunkStartsWithOverlap(blocks: seq<Block>, p: ChunkParams, i: nat)
    requires i < |Emissions(blocks, p)| && Emissions(blocks, p)[i].carried
    ensures var em := Emissions(blocks, p);
      0 < i && em[i].buffer != []
      && StartsWith(em[i].chunk.text, em[i].buffer[0])
      && EndsWith(em[i - 1].chunk.text, em[i].buffer[0])
  {
    var em := Emissions(blocks, p);
    EmissionsCarryOverlap(blocks, p);
    ChunkTextsAreJoins(blocks, p);
    var k := JoinOffset(em[i].buffer, "\n\n", 0);
  }

  // ---------------------------------------------------------------------------
  // one chunk when everything fits
  // ---------------------------------------------------------------------------

  /** The summed token counts of texts. */
  function TokenSum(parts: seq<string>, enc: Encoder): nat {
    if parts == [] then 0 else TokenSum(parts[..|parts| - 1], enc) + |enc(parts[|parts| - 1])|
  }

  lemma TokenSumSnoc(parts: seq<string>, x: string, enc: Encoder)
    ensures TokenSum(parts + [x], enc) == TokenSum(parts, enc) + |enc(x)|
  {
    SplitAppend(parts, [x]);
  }

  /** While the blocks' token counts sum to at most the target, nothing is
      flushed: the buffer holds every non-empty block. */
  lemma {:induction false} RunNoFlush(blocks: seq<Block>, p: ChunkParams)
    requires TokenSum(Norms(blocks), p.enc) <= ChunkTargetTokens
    ensures AsmRun(blocks, p) == AsmState([], Norms(blocks), TokenSum(Norms(blocks), p.enc), false, 1)
  {
    if blocks != [] {
      var init := blocks[..|blocks| - 1];
      var b := blocks[|blocks| - 1];
      InitLast(blocks);
      NormsSnoc(init, b);
      var n := Strip(b.text);
      if n == [] {
        AppendEmpty(Norms(init));
      } else {
        TokenSumSnoc(Norms(init), n, p.enc);
      }
      RunNoFlush(init, p);
      StepNoFlush(Norms(init), p, b);
    }
  }

  /** A block that keeps the sum within the target joins the buffer. */
  lemma StepNoFlush(buffer: seq<string>, p: ChunkParams, b: Block)
    requires Strip(b.text) != [] ==> TokenSum(buffer, p.enc) + |p.enc(Strip(b.text))| <= ChunkTargetTokens
    ensures var n := Strip(b.text);
      AsmStep(AsmState([], buffer, TokenSum(buffer, p.enc), false, 1), p, b)
      == AsmState([], buffer + (if n == [] then [] else [n]),
                  TokenSum(buffer, p.enc) + (if n == [] then 0 else |p.enc(n)|), false, 1)
  {
    if Strip(b.text) == [] {
      AppendEmpty(buffer);
    }
  }

  /** When the non-empty blocks' token counts sum to at most 550 there is
      exactly one chunk (none when every block is blank). */
  lemma SingleChunkWhenFits(docId: string, pageName: string, sectionNum: string, sectionName: string,
                            blocks: seq<Block>, enc: Encoder)
    requires TokenSum(Norms(blocks), enc) <= ChunkTargetTokens
    ensures |AssembleChunks(docId, pageName, sectionNum, sectionName, blocks, enc)| == if Norms(blocks) == [] then 0 else 1
  {
    var p := Params(docId, pageName, sectionNum, sectionName, enc);
    var e := Emissions(blocks, p);
    assert AssembleChunks(docId, pageName, sectionNum, sectionName, blocks, enc) == ChunksOf(e);
    var st := AsmRun(blocks, p);
    assert st.emitted == [] && st.buffer == Norms(blocks) by {
      RunNoFlush(blocks, p);
    }
    if Norms(blocks) != [] {
      assert ChunkText(st.buffer) != [] by {
        ChunkTextOfVisible(Norms(blocks));
      }
      assert |e| == 1;
    } else {
      assert e == [];
    }
  }
}
