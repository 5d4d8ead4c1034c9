/** The split of a section text into blocks (`split_into_paragraphs_preserve_code`,
    ingest_manpages.py:258-303): fenced code runs from one ``` line to the
    next, a line indented by four spaces is a code block of its own, and the
    remaining lines form paragraphs separated by blank lines. */
module Blocks {
  import opened Strings
  import opened Common
  import opened Sections

  /** `(text, is_code)`. */
  datatype Block = Block(text: string, isCode: bool)

  /** A block together with the input lines it was made from. */
  datatype Piece = Piece(block: Block, src: seq<string>)

  /** The loop state: the blocks so far, the `in_fence` flag and the pending
      `fence_lines` and `para_lines`. */
  datatype SplitState = SplitState(pieces: seq<Piece>, inFence: bool, fence: seq<string>, para: seq<string>)

  const Begin := SplitState([], false, [], [])

  /** `ln.startswith("    ")`. */
  predicate IsIndented(line: string) {
    StartsWith(line, "    ")
  }

  /** `any(ln.strip() for ln in lines)`. */
  predicate AnyVisible(lines: seq<string>) {
    exists i :: 0 <= i < |lines| && !AllSpace(lines[i])
  }

  /** `flush_para`: a paragraph with a visible line becomes a prose block. */
  function ParaFlushed(pieces: seq<Piece>, para: seq<string>): seq<Piece> {
    if para != [] && AnyVisible(para) then pieces + [Piece(Block(Strip(Join(para, "\n")), false), para)]
    else pieces
  }

  /** `flush_fence`: pending fence lines become a code block. */
  function FenceFlushed(pieces: seq<Piece>, fence: seq<string>): seq<Piece> {
    if fence != [] then pieces + [Piece(Block(RStrip(Join(fence, "\n")), true), fence)]
    else pieces
  }

  /** One pass of the loop body. */
  function SplitStep(st: SplitState, line: string): SplitState {
    if IsFence(line) then
      if st.inFence then SplitState(FenceFlushed(st.pieces, st.fence + [line]), false, [], st.para)
      else SplitState(ParaFlushed(st.pieces, st.para), true, [line], [])
    else if st.inFence then st.(fence := st.fence + [line])
    else if IsIndented(line) then
      st.(pieces := ParaFlushed(st.pieces, st.para) + [Piece(Block(RStrip(line), true), [line])], para := [])
    else if Strip(line) == [] then st.(pieces := ParaFlushed(st.pieces, st.para), para := [])
    else st.(para := st.para + [line])
  }

  function SplitRun(lines: seq<string>): SplitState {
    if lines == [] then Begin else SplitStep(SplitRun(lines[..|lines| - 1]), lines[|lines| - 1])
  }

  /** After the loop: an open fence is flushed, otherwise the paragraph. */
  function SplitFinish(st: SplitState): seq<Piece> {
    if st.inFence then FenceFlushed(st.pieces, st.fence) else ParaFlushed(st.pieces, st.para)
  }

  function BlocksOf(pieces: seq<Piece>): (r: seq<Block>)
    ensures |r| == |pieces|
    ensures forall i :: 0 <= i < |r| ==> r[i] == pieces[i].block
  {
    if pieces == [] then [] else BlocksOf(pieces[..|pieces| - 1]) + [pieces[|pieces| - 1].block]
  }

  /** The pieces `split_into_paragraphs_preserve_code(text)` is made of. */
  function TextPieces(text: string): seq<Piece> {
    SplitFinish(SplitRun(SplitLines(text)))
  }

  /** `split_into_paragraphs_preserve_code(text)`. */
  function SplitIntoParagraphs(text: string): seq<Block> {
    BlocksOf(TextPieces(text))
  }

  // ---------------------------------------------------------------------------
  // the loop
  // ---------------------------------------------------------------------------

  /** `split_into_paragraphs_preserve_code(text)`: one pass over the lines. */
  method SplitIntoParagraphsPreserveCode(text: string) returns (blocks: seq<Block>)
    ensures blocks == SplitIntoParagraphs(text)
  {
    var lines := SplitLines(text);
    blocks := [];
    ghost var pieces: seq<Piece> := [];
    var inFence := false;
    var fenceLines: seq<string> := [];
    var paraLines: seq<string> := [];
    var i := 0;
    while i < |lines|
      invariant i <= |lines|
      invariant SplitState(pieces, inFence, fenceLines, paraLines) == SplitRun(lines[..i])
      invariant blocks == BlocksOf(pieces)
    {
      TakeOneMore(lines, i);
      blocks, pieces, inFence, fenceLines, paraLines := ReadBlockLine(blocks, pieces, inFence, fenceLines, paraLines, lines[i]);
      i := i + 1;
    }
    TakeAll(lines, i);
    if inFence {
      blocks, pieces := FlushFence(blocks, pieces, fenceLines);
    } else {
      blocks, pieces := FlushPara(blocks, pieces, paraLines);
    }
  }

  /** The loop body for one line. */
  method ReadBlockLine(blocks: seq<Block>, ghost pieces: seq<Piece>, inFence: bool,
                       fenceLines: seq<string>, paraLines: seq<string>, line: string)
    returns (blocks': seq<Block>, ghost pieces': seq<Piece>, inFence': bool,
             fenceLines': seq<string>, paraLines': seq<string>)
    requires blocks == BlocksOf(pieces)
    ensures SplitState(pieces', inFence', fenceLines', paraLines')
         == SplitStep(SplitState(pieces, inFence, fenceLines, paraLines), line)
    ensures blocks' == BlocksOf(pieces')
  {
    blocks', pieces', inFence', fenceLines', paraLines' := blocks, pieces, inFence, fenceLines, paraLines;
    if IsFence(line) {
      if inFence {
        blocks', pieces' := FlushFence(blocks, pieces, fenceLines + [line]);
        fenceLines' := [];
        inFence' := false;
      } else {
        blocks', pieces' := FlushPara(blocks, pieces, paraLines);
        paraLines' := [];
        inFence' := true;
        fenceLines' := [line];
      }
    } else if inFence {
      fenceLines' := fenceLines + [line];
    } else if IsIndented(line) {
      blocks', pieces' := FlushPara(blocks, pieces, paraLines);
      paraLines' := [];
      var p := Piece(Block(RStrip(line), true), [line]);
      BlocksOfSnoc(pieces', p);
      blocks', pieces' := blocks' + [p.block], pieces' + [p];
    } else if Strip(line) == [] {
      blocks', pieces' := FlushPara(blocks, pieces, paraLines);
      paraLines' := [];
    } else {
      paraLines' := paraLines + [line];
    }
  }

  /** `flush_para()`. */
  method FlushPara(blocks: seq<Block>, ghost pieces: seq<Piece>, paraLines: seq<string>)
    returns (blocks': seq<Block>, ghost pieces': seq<Piece>)
    requires blocks == BlocksOf(pieces)
    ensures pieces' == ParaFlushed(pieces, paraLines) && blocks' == BlocksOf(pieces')
  {
    blocks', pieces' := blocks, pieces;
    if paraLines != [] && AnyVisible(paraLines) {
      var p := Piece(Block(Strip(Join(paraLines, "\n")), false), paraLines);
      BlocksOfSnoc(pieces, p);
      blocks', pieces' := blocks + [p.block], pieces + [p];
    }
  }

  /** `flush_fence()`. */
  method FlushFence(blocks: seq<Block>, ghost pieces: seq<Piece>, fenceLines: seq<string>)
    returns (blocks': seq<Block>, ghost pieces': seq<Piece>)
    requires blocks == BlocksOf(pieces)
    ensures pieces' == FenceFlushed(pieces, fenceLines) && blocks' == BlocksOf(pieces')
  {
    blocks', pieces' := blocks, pieces;
    if fenceLines != [] {
      var p := Piece(Block(RStrip(Join(fenceLines, "\n")), true), fenceLines);
      BlocksOfSnoc(pieces, p);
      blocks', pieces' := blocks + [p.block], pieces + [p];
    }
  }

  lemma BlocksOfSnoc(pieces: seq<Piece>, p: Piece)
    ensures BlocksOf(pieces + [p]) == BlocksOf(pieces) + [p.block]
  {
    SplitAppend(pieces, [p]);
  }

  // ---------------------------------------------------------------------------
  // what the blocks are made of
  // ---------------------------------------------------------------------------

  /** A line that joins a paragraph: visible, neither a fence nor indented. */
  predicate IsParaLine(line: string) {
    !IsFence(line) && !IsIndented(line) && !AllSpace(line)
  }

  /** A line the loop drops: a blank line outside a fence that is not
      indented by four spaces. */
  predicate Dropped(line: string, inFence: bool) {
    !inFence && !IsFence(line) && !IsIndented(line) && AllSpace(line)
  }

  /** The lines that end up in some block, in input order. */
  function Kept(lines: seq<string>): seq<string> {
    if lines == [] then []
    else
      var init := lines[..|lines| - 1];
      var line := lines[|lines| - 1];
      Kept(init) + (if Dropped(line, InFenceAfter(init)) then [] else [line])
  }

  /** The source lines of the pieces, one piece after the other. */
  function Sources(pieces: seq<Piece>): seq<string> {
    if pieces == [] then [] else Sources(pieces[..|pieces| - 1]) + pieces[|pieces| - 1].src
  }

  /** The visible lines of a list, in order. */
  function Visible(lines: seq<string>): seq<string> {
    if lines == [] then []
    else Visible(lines[..|lines| - 1]) + (if AllSpace(lines[|lines| - 1]) then [] else [lines[|lines| - 1]])
  }

  /** A piece as the loop makes it: a paragraph is its stripped lines, a
      fenced block starts at its fence line and is right-stripped, an
      indented block is one right-stripped line. */
  predicate WellFormed(p: Piece) {
    && p.src != []
    && if !p.block.isCode then
         (forall j :: 0 <= j < |p.src| ==> IsParaLine(p.src[j])) && p.block.text == Strip(Join(p.src, "\n"))
       else if IsFence(p.src[0]) then p.block.text == RStrip(Join(p.src, "\n"))
       else |p.src| == 1 && IsIndented(p.src[0]) && p.block.text == RStrip(p.src[0])
  }

  predicate AllWellFormed(pieces: seq<Piece>) {
    forall i :: 0 <= i < |pieces| ==> WellFormed(pieces[i])
  }

  /** What holds of the loop state after reading `lines`. */
  predicate Tracks(st: SplitState, lines: seq<string>) {
    && st.inFence == InFenceAfter(lines)
    && (st.inFence ==> st.para == [] && st.fence != [] && IsFence(st.fence[0]))
    && (!st.inFence ==> st.fence == [])
    && (forall j :: 0 <= j < |st.para| ==> IsParaLine(st.para[j]))
    && AllWellFormed(st.pieces)
    && Sources(st.pieces) + st.fence + st.para == Kept(lines)
  }

  lemma SourcesSnoc(pieces: seq<Piece>, p: Piece)
    ensures Sources(pieces + [p]) == Sources(pieces) + p.src
  {
    SplitAppend(pieces, [p]);
  }

  lemma WellFormedSnoc(pieces: seq<Piece>, p: Piece)
    requires AllWellFormed(pieces) && WellFormed(p)
    ensures AllWellFormed(pieces + [p])
  {
  }

  /** Flushing a paragraph of paragraph lines files exactly those lines. */
  lemma ParaFlushedFiles(pieces: seq<Piece>, para: seq<string>)
    requires AllWellFormed(pieces)
    requires forall j :: 0 <= j < |para| ==> IsParaLine(para[j])
    ensures AllWellFormed(ParaFlushed(pieces, para))
    ensures Sources(ParaFlushed(pieces, para)) == Sources(pieces) + para
  {
    if para != [] {
      assert !AllSpace(para[0]);
      var p := Piece(Block(Strip(Join(para, "\n")), false), para);
      SourcesSnoc(pieces, p);
      WellFormedSnoc(pieces, p);
    }
  }

  /** Flushing fence lines files exactly those lines. */
  lemma FenceFlushedFiles(pieces: seq<Piece>, fence: seq<string>)
    requires AllWellFormed(pieces)
    requires fence != [] && IsFence(fence[0])
    ensures AllWellFormed(FenceFlushed(pieces, fence))
    ensures Sources(FenceFlushed(pieces, fence)) == Sources(pieces) + fence
  {
    var p := Piece(Block(RStrip(Join(fence, "\n")), true), fence);
    SourcesSnoc(pieces, p);
    WellFormedSnoc(pieces, p);
  }

  lemma KeptSnoc(init: seq<string>, line: string)
    ensures Kept(init + [line]) == Kept(init) + (if Dropped(line, InFenceAfter(init)) then [] else [line])
    ensures InFenceAfter(init + [line]) == if IsFence(line) then !InFenceAfter(init) else InFenceAfter(init)
  {
    SplitAppend(init, [line]);
  }

  lemma {:induction false} RunTracks(lines: seq<string>)
    ensures Tracks(SplitRun(lines), lines)
  {
    if lines != [] {
      var init := lines[..|lines| - 1];
      RunTracks(init);
      InitLast(lines);
      StepTracks(SplitRun(init), init, lines[|lines| - 1]);
    }
  }

  lemma StepTracks(st: SplitState, init: seq<string>, line: string)
    requires Tracks(st, init)
    ensures Tracks(SplitStep(st, line), init + [line])
  {
    KeptSnoc(init, line);
    if IsFence(line) {
      if st.inFence {
        FenceCloses(st, init, line);
      } else {
        FenceOpens(st, init, line);
      }
    } else if st.inFence {
      InsideFence(st, init, line);
    } else if IsIndented(line) {
      IndentedLine(st, init, line);
    } else if Strip(line) == [] {
      StripEmptyIffBlank(line);
      BlankLine(st, init, line);
    } else {
      StripEmptyIffBlank(line);
      ParaLine(st, init, line);
    }
  }

  lemma FenceCloses(st: SplitState, init: seq<string>, line: string)
    requires Tracks(st, init) && IsFence(line) && st.inFence
    requires Kept(init + [line]) == Kept(init) + [line] && !InFenceAfter(init + [line])
    ensures Tracks(SplitStep(st, line), init + [line])
  {
    FenceFlushedFiles(st.pieces, st.fence + [line]);
    AppendAssoc(Sources(st.pieces), st.fence, [line]);
  }

  lemma FenceOpens(st: SplitState, init: seq<string>, line: string)
    requires Tracks(st, init) && IsFence(line) && !st.inFence
    requires Kept(init + [line]) == Kept(init) + [line] && InFenceAfter(init + [line])
    ensures Tracks(SplitStep(st, line), init + [line])
  {
    ParaFlushedFiles(st.pieces, st.para);
    var S := Sources(st.pieces);
    assert Kept(init) == S + st.para by {
      AppendEmpty(S);
    }
    var st' := SplitStep(st, line);
    assert Sources(st'.pieces) == S + st.para;
    assert st'.fence == [line] && st'.para == [];
    assert Sources(st'.pieces) + st'.fence + st'.para == Kept(init + [line]) by {
      AppendEmpty(Sources(st'.pieces) + [line]);
    }
  }

  lemma InsideFence(st: SplitState, init: seq<string>, line: string)
    requires Tracks(st, init) && !IsFence(line) && st.inFence
    requires Kept(init + [line]) == Kept(init) + [line] && InFenceAfter(init + [line])
    ensures Tracks(SplitStep(st, line), init + [line])
  {
    AppendAssoc(Sources(st.pieces), st.fence, [line]);
  }

  lemma IndentedLine(st: SplitState, init: seq<string>, line: string)
    requires Tracks(st, init) && !IsFence(line) && !st.inFence && IsIndented(line)
    requires Kept(init + [line]) == Kept(init) + [line] && !InFenceAfter(init + [line])
    ensures Tracks(SplitStep(st, line), init + [line])
  {
    ParaFlushedFiles(st.pieces, st.para);
    var S := Sources(st.pieces);
    assert Kept(init) == S + st.para by {
      AppendEmpty(S);
    }
    var p := Piece(Block(RStrip(line), true), [line]);
    SourcesSnoc(ParaFlushed(st.pieces, st.para), p);
    WellFormedSnoc(ParaFlushed(st.pieces, st.para), p);
    var st' := SplitStep(st, line);
    assert Sources(st'.pieces) == S + st.para + [line];
    assert st'.fence == [] && st'.para == [];
    assert Sources(st'.pieces) + st'.fence + st'.para == Kept(init + [line]) by {
      AppendEmpty(Sources(st'.pieces));
    }
  }

  lemma BlankLine(st: SplitState, init: seq<string>, line: string)
    requires Tracks(st, init) && !IsFence(line) && !st.inFence && !IsIndented(line) && Strip(line) == []
    requires Kept(init + [line]) == Kept(init) && !InFenceAfter(init + [line])
    ensures Tracks(SplitStep(st, line), init + [line])
  {
    ParaFlushedFiles(st.pieces, st.para);
    var S := Sources(st.pieces);
    assert Kept(init) == S + st.para by {
      AppendEmpty(S);
    }
    var st' := SplitStep(st, line);
    assert Sources(st'.pieces) == S + st.para;
    assert st'.fence == [] && st'.para == [];
    assert Sources(st'.pieces) + st'.fence + st'.para == Kept(init + [line]) by {
      AppendEmpty(Sources(st'.pieces));
    }
  }

  lemma ParaLine(st: SplitState, init: seq<string>, line: string)
    requires Tracks(st, init) && IsParaLine(line) && !st.inFence && Strip(line) != []
    requires Kept(init + [line]) == Kept(init) + [line] && !InFenceAfter(init + [line])
    ensures Tracks(SplitStep(st, line), init + [line])
  {
    AppendAssoc(Sources(st.pieces), st.para, [line]);
  }

  /** The final flush files what was pending. */
  lemma FinishFiles(st: SplitState, lines: seq<string>)
    requires Tracks(st, lines)
    ensures AllWellFormed(SplitFinish(st))
    ensures Sources(SplitFinish(st)) == Kept(lines)
  {
    var S := Sources(st.pieces);
    if st.inFence {
      FenceFlushedFiles(st.pieces, st.fence);
      AppendEmpty(S + st.fence);
    } else {
      ParaFlushedFiles(st.pieces, st.para);
      AppendEmpty(S);
    }
  }

  /** After the final flush every kept line is in exactly one piece, in
      order, and every piece is well formed. */
  lemma PiecesCoverKept(text: string)
    ensures AllWellFormed(TextPieces(text))
    ensures Sources(TextPieces(text)) == Kept(SplitLines(text))
  {
    RunTracks(SplitLines(text));
    FinishFiles(SplitRun(SplitLines(text)), SplitLines(text));
  }

  /** Only blank lines are dropped. */
  lemma {:induction false} KeptKeepsVisible(lines: seq<string>)
    ensures Visible(Kept(lines)) == Visible(lines)
  {
    if lines != [] {
      var init := lines[..|lines| - 1];
      var line := lines[|lines| - 1];
      KeptKeepsVisible(init);
      var tail := if Dropped(line, InFenceAfter(init)) then [] else [line];
      VisibleAppend(Kept(init), tail);
    }
  }

  lemma {:induction false} VisibleAppend(a: seq<string>, b: seq<string>)
    ensures Visible(a + b) == Visible(a) + Visible(b)
    decreases |b|
  {
    if b == [] {
      assert a + b == a;
    } else {
      var b' := b[..|b| - 1];
      VisibleAppend(a, b');
      assert (a + b)[..|a + b| - 1] == a + b';
      AppendAssoc(Visible(a), Visible(b'), if AllSpace(b[|b| - 1]) then [] else [b[|b| - 1]]);
    }
  }

  /** Every visible line of the text lands in exactly one block, and the
      blocks come out in input order: the visible source lines of the
      blocks, one block after the other, are the visible lines of the text. */
  lemma NonBlankLinesInOrder(text: string)
    ensures Visible(Sources(TextPieces(text))) == Visible(SplitLines(text))
  {
    PiecesCoverKept(text);
    KeptKeepsVisible(SplitLines(text));
  }

  /** A prose block is non-empty and stripped. */
  lemma ProseBlocksStripped(text: string)
    ensures forall i :: 0 <= i < |SplitIntoParagraphs(text)| && !SplitIntoParagraphs(text)[i].isCode ==>
      var t := SplitIntoParagraphs(text)[i].text;
      t != [] && !IsSpace(t[0]) && !IsSpace(t[|t| - 1])
  {
    var pieces := TextPieces(text);
    PiecesCoverKept(text);
    forall i | 0 <= i < |pieces| && !pieces[i].block.isCode
      ensures pieces[i].block.text != []
    {
      ProseNotEmpty(pieces[i]);
    }
  }

  lemma ProseNotEmpty(p: Piece)
    requires WellFormed(p) && !p.block.isCode
    ensures p.block.text != []
  {
    JoinNotBlank(p.src, "\n", 0);
    StripEmptyIffBlank(Join(p.src, "\n"));
  }

  /** A code block is either fenced, starting with its ``` line, or a single
      indented line. */
  lemma CodeBlocksShape(text: string)
    ensures forall i :: 0 <= i < |TextPieces(text)| && TextPieces(text)[i].block.isCode ==>
      var p := TextPieces(text)[i];
      && p.src != []
      && ((IsFence(p.src[0]) && IsFence(p.block.text))
          || (p.src == [p.src[0]] && IsIndented(p.src[0]) && p.block.text == RStrip(p.src[0])))
  {
    var pieces := TextPieces(text);
    PiecesCoverKept(text);
    forall i | 0 <= i < |pieces| && pieces[i].block.isCode && IsFence(pieces[i].src[0])
      ensures IsFence(pieces[i].block.text)
    {
      FenceTextOpens(pieces[i].src);
    }
  }

  /** Right-stripping keeps the opening ``` of a fenced block. */
  lemma FenceTextOpens(src: seq<string>)
    requires src != [] && IsFence(src[0])
    ensures IsFence(RStrip(Join(src, "\n")))
  {
    var j := Join(src, "\n");
    var r := RStrip(j);
    assert JoinOffset(src, "\n", 0) == 0;
    assert j[..3] == "```" by {
      assert j[0..|src[0]|] == src[0];
    }
    RStripKeepsNonSpace(j, 2);
    assert r[..3] == j[..3];
  }

  /** Right-stripping keeps every character up to the last non-space one. */
  lemma {:induction false} RStripKeepsNonSpace(s: string, k: nat)
    requires k < |s| && !IsSpace(s[k])
    ensures k < |RStrip(s)|
  {
    if s != [] && IsSpace(s[|s| - 1]) {
      RStripKeepsNonSpace(s[..|s| - 1], k);
    }
  }

  /** A fence still open at the end of the input is emitted as the last
      block, a code block starting with ```. */
  lemma UnclosedFenceEmitted(text: string)
    requires InFenceAfter(SplitLines(text))
    ensures var b := SplitIntoParagraphs(text);
      b != [] && b[|b| - 1].isCode && IsFence(b[|b| - 1].text)
  {
    var st := SplitRun(SplitLines(text));
    RunTracks(SplitLines(text));
    FenceTextOpens(st.fence);
  }
}
