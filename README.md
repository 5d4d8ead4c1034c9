# llm-manpage-rag, modelled in Dafny

This project models the core of llm-manpage-rag, a retrieval system over the Linux
man pages, and proves properties of that model.

- **Corpus preparation** (`ingest_manpages.py`). A rendered page is cleaned and split into
  its headed sections. The NAME line gives the page name, aliases and title. The section
  number comes from the file name. A document is built with an id, a licence text and the
  subsection offsets. Each subsection is cut into paragraph, fenced-code and indented
  blocks, and the blocks are packed into chunks of about 550 tokens with a 60-token
  overlap.
- **Derived assets** (same file):
  - `.so` redirections are resolved;
  - man files are discovered;
  - the alias map and the section-synonym inversion are built;
  - the evaluation set is picked;
  - a quality report is counted.
- **Retrieval evaluation** (`search/evaluation_utils.py`): Recall@k, MRR, decoding the
  target document id, one query's result, and the averages of a run.
- **Chunk loader** (`search/management/commands/populate_manpages.py`): the line loop that
  checks each document id, groups chunks under shared `Document` objects, updates titles
  and hands batches off.
- **Sign-in codes** (`accounts/models.py`, `accounts/services.py`): the one-time login code
  and its state machine, `is_upgraded`, and the request throttle of `send_login_code`.

The code works by updating state step by step in four places: the line loops, the chunk
packer, the resolver and the loader. Each of these is a `method` with a loop, proved equal
to a specification function. The properties are lemmas about those functions. The loader's
`Document` and the sign-in `LoginCode` and `User` are classes whose methods update their
fields.

External pieces become parameters or inputs:

- the tokenizer is a function from text to a sequence;
- renderer output is an input;
- the file system is a map from path to first line, plus the set of existing paths;
- the search engine's answer is an input;
- random shuffles are reordering functions;
- SHA-256 is an abstract hash function;
- the clock is a `now` argument, in integer microseconds.

## Model

| member | source | states |
|---|---|---|
| Common.PyPrefix | search/evaluation_utils.py:29 | `s[:n]` has length min(n, len) for n ≥ 0, drops -n elements for n < 0, and is a prefix of `s` |
| Strings.LStrip | ingest_manpages.py:386 | the result is a suffix of the text and does not start with whitespace |
| Strings.LStripDropsSpace | ingest_manpages.py:386 | what `lstrip` removes is whitespace only |
| Strings.RStrip | ingest_manpages.py:190 | the result is a prefix of the text and does not end with whitespace |
| Strings.RStripDropsSpace | ingest_manpages.py:190 | what `rstrip` removes is whitespace only |
| Strings.Strip | ingest_manpages.py:195 | the stripped text is empty or starts and ends with a visible character |
| Strings.StripSlice | ingest_manpages.py:195 | the stripped text is a contiguous slice of the text |
| Strings.StripEmptyIffBlank | ingest_manpages.py:857 | stripping yields the empty text exactly when the text is all whitespace |
| Strings.ReplaceSpaceRuns | ingest_manpages.py:195 | `re.sub(r"\s+", c, s)`: every remaining whitespace character is `c` and no two whitespace characters are adjacent |
| Strings.ReplaceSpaceRunsOfSpaceless | ingest_manpages.py:195 | a text without whitespace is left unchanged |
| Strings.ReplaceSpaceRunsStep | ingest_manpages.py:195 | a stretch without whitespace followed by a whole whitespace run becomes the stretch and a single `c`, and the rest is replaced on its own |
| Strings.ReplaceSpaceRunsKeepsText | ingest_manpages.py:195 | with a whitespace `c`, the visible characters are kept, in order |
| Strings.LStripRun | ingest_manpages.py:195 | `lstrip` of a whitespace run followed by a visible character drops exactly the run |
| Strings.NonSpaceStrip | ingest_manpages.py:195 | `strip` keeps the visible characters, in order |
| Strings.NonSpaceRStrip | ingest_manpages.py:193 | `rstrip` keeps the visible characters, in order |
| Strings.Split | search/evaluation_utils.py:101 | `s.split(c)` has at least one part and no part holds `c` |
| Strings.JoinSplit | search/evaluation_utils.py:101 | joining the parts of a split with the separator gives the text back |
| Strings.SplitNoSeparator | search/evaluation_utils.py:101 | a text without the separator splits into itself alone |
| Strings.SplitAtLeastTwo | search/management/commands/populate_manpages.py:70 | a text holding the separator splits into at least two parts |
| Strings.SplitLines | ingest_manpages.py:184 | no line holds a line break, and only the empty text has no lines |
| Strings.SplitLinesJoin | ingest_manpages.py:184 | joining the lines with `\n` restores the text, up to one final line break |
| Strings.SplitLinesSingle | ingest_manpages.py:184 | a non-empty text without a break is a single line |
| Strings.Upper | ingest_manpages.py:211 | `upper()` keeps the length, maps each character, and leaves no lower-case ASCII letter |
| Strings.Lower | ingest_manpages.py:170 | `lower()` keeps the length and maps each character |
| Strings.SortedSet | ingest_manpages.py:392 | `sorted(set(xs))` is strictly increasing and holds exactly the elements of `xs` |
| Strings.StrictlySortedDistinct | ingest_manpages.py:392 | a strictly increasing list has no repeated element |
| Strings.DecimalString | ingest_manpages.py:332 | `str(n)` is a non-empty run of digits |
| Strings.ParseDecimalString | ingest_manpages.py:332 | the decimal text reads back as `n` |
| Strings.Pad2 | ingest_manpages.py:332 | `f"{n:02d}"` has at least two characters, all digits |
| Strings.Pad2RoundTrip | ingest_manpages.py:332 | the two-digit text reads back as `n` |
| Strings.Pad2Injective | ingest_manpages.py:332 | different numbers give different two-digit texts |
| Slug.DashesToHyphen | ingest_manpages.py:171 | em and en dashes become `-`, and every other character stays in place |
| Slug.KeepSlugChars | ingest_manpages.py:173-174 | only characters of `[a-z0-9_-]` are kept; a slug text is kept whole, and a text with none of them becomes empty |
| Slug.KeepSlugCharsAppend | ingest_manpages.py:173-174 | the removal works piece by piece, so it is the filter that keeps every `[a-z0-9_-]` character in order |
| Slug.CollapseDashes | ingest_manpages.py:175 | no `--` is left, slug characters stay slug characters, and the text never grows |
| Slug.DashFreeUnchanged | ingest_manpages.py:175 | a text without `-` is unchanged |
| Slug.CollapseDashesStep | ingest_manpages.py:175 | a dash-free stretch followed by a whole run of dashes becomes the stretch and one `-`, and the rest is collapsed on its own |
| Slug.DashRunDropped | ingest_manpages.py:175 | right after an emitted dash, a further run of dashes adds nothing |
| Slug.LStripDashes | ingest_manpages.py:176 | the result is a suffix and does not start with `-` or `_` |
| Slug.LStripDashesDrops | ingest_manpages.py:176 | everything `lstrip("-_")` removes is `-` or `_` |
| Slug.RStripDashes | ingest_manpages.py:176 | the result is a prefix and does not end with `-` or `_` |
| Slug.RStripDashesDrops | ingest_manpages.py:176 | everything `rstrip("-_")` removes is `-` or `_` |
| Slug.SlugBody | ingest_manpages.py:170-175 | before the cut, the text has only slug characters and no `--` |
| Slug.SlugShape | ingest_manpages.py:169-176 | a slug uses only `[a-z0-9_-]`, is at most `max_len` long, has no `--`, and neither starts nor ends with `-` or `_` |
| Slug.CutShape | ingest_manpages.py:176 | cutting to `max_len` and stripping `-_` keeps every slug property |
| Paths.Parent | ingest_manpages.py:483 | `p.parent` is `p` without its last component |
| Paths.Child | ingest_manpages.py:484 | `p / name` adds the name as the last component, so that its parent is `p` |
| Paths.Stem | ingest_manpages.py:602 | `p.stem` is a prefix of the name; when shorter, it stops at the last dot, which is neither the first nor the final character; when the name is kept whole, its last dot (if any inner one exists) is the final character |
| Paths.FirstDotField | ingest_manpages.py:602 | `name.split(".")[0]` is the prefix of the name up to its first dot |
| Paths.FirstDotFieldOfStem | ingest_manpages.py:602 | the stem's first dot field equals the file name's, so the fallback page name is the file name up to its first dot |
| Sections.InFenceParity | ingest_manpages.py:186-189 | the `in_fence` toggle is on exactly when an odd number of fence lines was read |
| Sections.NormalizeLine | ingest_manpages.py:188-196 | fence, in-fence and indented lines only lose trailing whitespace (a prefix, the rest all whitespace); a prose line has no end whitespace and single spaces only; either way the visible characters are kept in order |
| Sections.NormalizeLines | ingest_manpages.py:187-196 | one output line per input line |
| Sections.CapNewlines | ingest_manpages.py:198 | `re.sub(r"\n{3,}", "\n\n")` leaves no run of three line breaks |
| Sections.CapNewlinesKeepsShortRuns | ingest_manpages.py:198 | a text without such a run is unchanged |
| Sections.CapNewlinesIdempotent | ingest_manpages.py:198 | collapsing twice is the same as collapsing once |
| Sections.NormalizeWhitespaceShape | ingest_manpages.py:183-199 | the cleaned text is stripped and has no run of two blank lines |
| Sections.NormalizeWhitespacePreserveCode | ingest_manpages.py:183-199 | the loop with the fence toggle computes the specification, and its output is stripped with no blank-line run |
| Sections.NormalizeEachLine | ingest_manpages.py:186-196 | the line loop produces each line normalised under the fence state left by the lines before it |
| Sections.LeadingHashes | ingest_manpages.py:206 | the length of the leading run of `#` |
| Sections.HeadingKey | ingest_manpages.py:206-211 | a recognised heading's key is upper-cased and stripped |
| Sections.HeadingText | ingest_manpages.py:211 | `strip().upper()` has no lower-case letter and visible ends |
| Sections.NoHashNoHeading | ingest_manpages.py:206 | a line without `#` is never a heading |
| Sections.HeadingOfHashes | ingest_manpages.py:206-211 | one to six `#`, a space and a visible name not starting with `#` form a heading keyed by the upper-cased name |
| Sections.Keys | ingest_manpages.py:217 | the keys of the ordered map, in order |
| Sections.Lookup | ingest_manpages.py:594 | `d.get(k)` is absent exactly when `k` is not a key |
| Sections.Put | ingest_manpages.py:209 | `d[k] = v` keeps an existing key in place and appends a new key |
| Sections.PutLookup | ingest_manpages.py:209 | after `d[k] = v`, `k` maps to `v` and every other key keeps its value |
| Sections.PutDistinct | ingest_manpages.py:209 | keys stay distinct |
| Sections.Dedup | ingest_manpages.py:216-218 | each element once, at its first appearance |
| Sections.DedupSnoc | ingest_manpages.py:216-218 | an appended element is added only if it is new |
| Sections.ParseSectionsKeys | ingest_manpages.py:201-219 | the keys are the stripped, upper-cased heading texts in order of first appearance, without repeats |
| Sections.ParseSectionsNoHeading | ingest_manpages.py:214-215 | text with no heading gives an empty map |
| Sections.PreambleJoinsFirstSection | ingest_manpages.py:208-213 | lines before the first heading are kept, at the start of the first section's text |
| Sections.RunPlain | ingest_manpages.py:213 | non-heading lines only add to the buffer |
| Sections.ParseMarkdownSections | ingest_manpages.py:201-219 | the loop with `current` and `buf` computes the specification, and its keys are the deduplicated headings |
| Sections.ReadSectionLines | ingest_manpages.py:205-213 | the line loop computes the specification's state |
| Sections.ReadSectionLine | ingest_manpages.py:206-213 | one iteration: a heading files the open section, any other line is buffered |
| NameSection.FirstNonBlank | ingest_manpages.py:224-229 | there is a result exactly when some line is not blank, and it is the stripped line at the first such index (every earlier line blank); it starts and ends with a visible character |
| NameSection.FirstNonBlankFound | ingest_manpages.py:224-231 | there is none exactly when every line is blank |
| NameSection.FindSep | ingest_manpages.py:232 | finds the leftmost `\s+[-—–]\s+` separator, and none lies before it |
| NameSection.NameList | ingest_manpages.py:235 | every name kept is non-empty, stripped and comma-free |
| NameSection.NamesRoundTrip | ingest_manpages.py:235 | names listed as `a, b, c` read back as exactly those names |
| NameSection.ExtractNameInfo | ingest_manpages.py:221-238 | no canonical name means no aliases, and every name is a listed name |
| NameSection.BlankNameSection | ingest_manpages.py:222-231 | a blank NAME section yields `(None, None, [])` |
| NameSection.NameLineInfo | ingest_manpages.py:232-238 | a title exists exactly when the line has a spaced dash |
| NameSection.TitlePart | ingest_manpages.py:234 | a title exists exactly when there is a separator |
| NameSection.ReadNames | ingest_manpages.py:235 | every name kept is a listed name |
| NameSection.Assemble | ingest_manpages.py:236-237 | the first name is canonical and the others are aliases, and no canonical name means an empty list |
| NameSection.BlankTextBlankLines | ingest_manpages.py:225 | every line of a blank text is blank |
| NameLineProps.NameLineRoundTrip | ingest_manpages.py:221-238 | `n1, n2, … — title` yields canonical `n1`, the title and aliases `n2, …` |
| NameLineProps.NameLineOf | ingest_manpages.py:232-238 | the same for any names part that reads back as the names |
| NameLineProps.LineRead | ingest_manpages.py:232-238 | such a line is read as its names part and its title |
| NameLineProps.NamesReadBack | ingest_manpages.py:235 | the joined names read back as the names |
| NameLineProps.NameLineSeparator | ingest_manpages.py:232 | the first separator is the spaced dash after the names |
| NameLineProps.NameLineExample | ingest_manpages.py:221-238 | `ls, dir — list` gives canonical `ls`, title `list` and aliases `[dir]` |
| NameLineProps.ExtractOfFirstLine | ingest_manpages.py:224-232 | the NAME text is read from its first visible line |
| Refs.RefMatchEnd | ingest_manpages.py:390 | a match found at `p` satisfies `\b` at `p` and is a `name(sec)` reference |
| Refs.RefMatchEndFinds | ingest_manpages.py:390 | wherever `\b([a-zA-Z0-9_+.-]+)\((\d[a-z]?)\)` matches `s[p..k]`, the match found at `p` ends at `k`: it is found, and it is the only one |
| Refs.RefMatches | ingest_manpages.py:390 | every match found by the scan is a reference |
| Refs.RefScanTakes | ingest_manpages.py:390 | where the pattern matches, `finditer` reports that match and resumes at its end |
| Refs.RefScanSkips | ingest_manpages.py:390 | where the pattern matches nothing, `finditer` moves on one character |
| Refs.ExtractSeeAlsoRefs | ingest_manpages.py:388-392 | the result is strictly increasing, holds only references, and holds exactly the matched ones |
| Refs.NoParenNoRefs | ingest_manpages.py:390 | a text without `(` has no reference |
| Refs.SeeAlsoExample | ingest_manpages.py:388-392 | `getcwd(3), realpath(3)` yields `[getcwd(3), realpath(3)]` |
| Refs.ConstMatchEnd | ingest_manpages.py:396 | a match found at `p` has `\b` at both ends and is a constant |
| Refs.ConstMatchEndFinds | ingest_manpages.py:396 | wherever `\b[A-Z][A-Z0-9_]{2,}\b` matches `s[p..k]`, the match found at `p` ends at `k`: it is found, and it is the only one |
| Refs.ConstMatches | ingest_manpages.py:396 | every match found by the scan is a constant |
| Refs.ConstScanTakes | ingest_manpages.py:396 | where the pattern matches, `findall` reports that match and resumes at its end |
| Refs.ConstScanSkips | ingest_manpages.py:396 | where the pattern matches nothing, `findall` moves on one character |
| Refs.WithoutStopWords | ingest_manpages.py:397-398 | THE, AND and FOR are dropped and nothing else is |
| Refs.ExtractConstants | ingest_manpages.py:394-400 | the result is strictly increasing, holds constants of at least 3 characters starting with A–Z, never THE, AND or FOR, and holds exactly the matched non-stop-words |
| Refs.NoUpperNoConstants | ingest_manpages.py:396 | a text without an upper-case letter has no constant |
| DocBuild.SectionSuffix | ingest_manpages.py:241-243 | a found section is `\d[a-z]?` and the name ends with `.` and that section |
| DocBuild.DetectSection | ingest_manpages.py:240-248 | a detected section is always `\d[a-z]?` |
| DocBuild.DetectSectionOfName | ingest_manpages.py:241-243 | a file `<base>.<sec>` gets section `<sec>` |
| DocBuild.ReplaceUnsafe | ingest_manpages.py:600 | each of `/\:*?"<>\|` becomes `_`, and every other character stays in place |
| DocBuild.StripUnderscores | ingest_manpages.py:600 | the result neither starts nor ends with `_`, and a text already free of them at the ends is unchanged |
| DocBuild.PageNameShape | ingest_manpages.py:598-602 | a canonical name gives a page name free of unsafe characters and of `_` at the ends; otherwise the page name is the file name up to its first dot |
| DocBuild.DocumentIdSplit | ingest_manpages.py:402-403 | `man:<version>:<page>:<section>` splits back into its four fields when neither field holds `:` |
| DocBuild.DocumentIdParts | ingest_manpages.py:402-403 | the parts of an id are those of its four fields |
| DocBuild.ColonInPageNameGivesLongId | ingest_manpages.py:602 | a fallback page name with `:` gives an id of more than four parts |
| DocBuild.LicenseText | ingest_manpages.py:609-616 | the COPYRIGHT text if non-empty, else the COLOPHON text, cut to 2000 characters; absent only when both are empty |
| DocBuild.Concatenated | ingest_manpages.py:619-624 | the accumulator's length is the sum of the text lengths plus 2 per section |
| DocBuild.ConcatenatedPrefix | ingest_manpages.py:619-624 | the accumulator after fewer sections is a prefix of the whole |
| DocBuild.TextAtOffset | ingest_manpages.py:619-624 | each section's text lies in the accumulator at its start offset |
| DocBuild.SubsectionsWithOffsets | ingest_manpages.py:618-624 | the loop gives subsection i the offset Σ_{j<i} (len(text_j)+2) |
| DocBuild.NonEmpty | ingest_manpages.py:638-639 | `value or None` is present exactly when the value is non-empty |
| DocBuild.ReplaceCrLf | ingest_manpages.py:590 | never lengthens the text and leaves a text without CR unchanged |
| DocBuild.ReplaceCrLfAddsNothing | ingest_manpages.py:590 | every character of the result occurs in the input |
| DocBuild.ReplaceCrLfNoPair | ingest_manpages.py:590 | a text without a CR LF pair is left unchanged |
| DocBuild.ReplaceCrLfAppend | ingest_manpages.py:590 | wherever a cut does not split a CR LF pair, the two sides are replaced on their own |
| DocBuild.ReplaceCrLfPair | ingest_manpages.py:590 | each CR LF pair becomes one line feed, with the texts around it replaced on their own |
| DocBuild.ParseAndNormalizePage | ingest_manpages.py:582-668 | a page is produced exactly when rendering succeeded; its text is cleaned, its sections parsed, its id built from its page name and section, and its offsets accumulated |
| Blocks.SplitIntoParagraphsPreserveCode | ingest_manpages.py:258-303 | the loop with its two flushes computes the specification |
| Blocks.ReadBlockLine | ingest_manpages.py:277-298 | one iteration updates the state as the specification's step |
| Blocks.FlushPara | ingest_manpages.py:265-269 | `flush_para` files the paragraph only if it has a visible line |
| Blocks.FlushFence | ingest_manpages.py:271-275 | `flush_fence` files the fence lines if there are any |
| Blocks.ParaFlushedFiles | ingest_manpages.py:265-269 | flushing files exactly the pending paragraph lines |
| Blocks.FenceFlushedFiles | ingest_manpages.py:271-275 | flushing files exactly the pending fence lines |
| Blocks.PiecesCoverKept | ingest_manpages.py:258-303 | every line outside the dropped blank lines lands in exactly one block, in input order |
| Blocks.KeptKeepsVisible | ingest_manpages.py:295-296 | only blank lines are dropped |
| Blocks.NonBlankLinesInOrder | ingest_manpages.py:258-303 | the visible lines of the blocks, block after block, are the visible lines of the text |
| Blocks.ProseBlocksStripped | ingest_manpages.py:267-268 | a prose block is non-empty and stripped |
| Blocks.CodeBlocksShape | ingest_manpages.py:271-293 | a code block is fenced and starts with its ``` line, or is one right-stripped indented line |
| Blocks.FenceTextOpens | ingest_manpages.py:274 | right-stripping keeps the opening ``` |
| Blocks.UnclosedFenceEmitted | ingest_manpages.py:299-300 | a fence still open at the end is the last block, a code block starting with ``` |
| Blocks.FenceCloses | ingest_manpages.py:278-282 | a closing ``` line joins the fence, which is filed, and the fence state ends |
| Blocks.FenceOpens | ingest_manpages.py:283-286 | an opening ``` line flushes the paragraph and starts a fence with that line |
| Blocks.InsideFence | ingest_manpages.py:288-290 | inside a fence every line joins the fence |
| Blocks.IndentedLine | ingest_manpages.py:291-294 | an indented line flushes the paragraph and becomes its own right-stripped code block |
| Blocks.BlankLine | ingest_manpages.py:295-296 | a blank line flushes the paragraph and is dropped |
| Blocks.ParaLine | ingest_manpages.py:297-298 | any other line joins the paragraph |
| Blocks.FinishFiles | ingest_manpages.py:299-302 | the final flush files every pending line, so the blocks cover the kept lines |
| Overlap.Runs | ingest_manpages.py:374 | `re.findall(r"\S+\|\s+")` gives non-empty runs |
| Overlap.RunsConcat | ingest_manpages.py:374 | the runs put together give the text back |
| Overlap.KeepFrom | ingest_manpages.py:377-385 | the loop's stopping index never passes its start |
| Overlap.TakeLastTokensText | ingest_manpages.py:368-386 | the reverse loop with `count` computes the specification |
| Overlap.KeepRun | ingest_manpages.py:377-385 | one pass either stops before a word that does not fit or keeps one more run |
| Overlap.TakeLastIsSuffix | ingest_manpages.py:368-386 | the overlap is a suffix of the text |
| Overlap.KeepFromBudget | ingest_manpages.py:382-385 | the kept words fit in `k` tokens, unless a single word alone exceeds it |
| Overlap.KeepFromMaximal | ingest_manpages.py:382-383 | the loop stops only before a word whose tokens would exceed `k` |
| Overlap.OverlapFitsBudget | ingest_manpages.py:368-386 | when the text exceeds `k` tokens, the overlap is the stripped tail from the first kept run and fits the budget |
| Overlap.OverlapVisibleEnds | ingest_manpages.py:386 | the overlap of a stripped text is stripped |
| Overlap.ShortTextKept | ingest_manpages.py:372-373 | a text within the budget is its own overlap |
| Chunker.AssembleChunksFromBlocks | ingest_manpages.py:305-366 | the loop with `buffer`, `buffer_tokens` and `seq` computes the specification |
| Chunker.FinalFlush | ingest_manpages.py:351-365 | the flush after the loop |
| Chunker.AddBlock | ingest_manpages.py:320-349 | one iteration adds the block or flushes first |
| Chunker.AsmStepAppends | ingest_manpages.py:325-328 | within the target, or into an empty buffer, the block is appended |
| Chunker.AsmStepFlushes | ingest_manpages.py:329-349 | over the target, the buffer is flushed and the block follows the overlap |
| Chunker.FlushBuffer | ingest_manpages.py:330-346 | the flush inside the loop: emit, then carry the overlap |
| Chunker.EmitChunk | ingest_manpages.py:332-343 | the `seq`-th chunk record is appended |
| ChunkerProps.ChunksNumbered | ingest_manpages.py:305-366 | the chunks are records made for numbers 1, 2, … with non-empty text |
| ChunkerProps.ChunkAnchorsConsecutive | ingest_manpages.py:315-355 | anchors run `base-01`, `base-02`, … in emission order |
| ChunkerProps.ChunkRecordsFaithful | ingest_manpages.py:333-339 | each chunk has non-empty text, `token_count == len(encode_fn(text))`, and the call's document id and section name |
| ChunkerProps.AnchorInjective | ingest_manpages.py:332 | different numbers give different anchors |
| ChunkerProps.ChunkAnchorsDistinct | ingest_manpages.py:332-355 | anchors are distinct within one call |
| ChunkerProps.EmissionsCarryOverlap | ingest_manpages.py:344-346 | a carried-over buffer opens with a suffix of the chunk emitted just before |
| ChunkerProps.Norms | ingest_manpages.py:321-323 | the stripped non-empty blocks, each with visible ends |
| ChunkerProps.EmissionsCover | ingest_manpages.py:320-365 | every non-empty block appears whole, in order, in exactly one chunk buffer as new text |
| ChunkerProps.ChunkTextsAreJoins | ingest_manpages.py:330-353 | each chunk text is its buffer joined by blank lines |
| ChunkerProps.CarriedChunkStartsWithOverlap | ingest_manpages.py:344-348 | a carried chunk starts with the overlap, which ends the chunk before it |
| ChunkerProps.RunNoFlush | ingest_manpages.py:325-328 | while the block tokens sum to at most 550, nothing is flushed |
| ChunkerProps.SingleChunkWhenFits | ingest_manpages.py:325-365 | blocks summing to at most 550 tokens give exactly one chunk, or none when all are blank |
| ChunkDocs.SectionLabel | ingest_manpages.py:855 | a non-empty name is stripped and upper-cased; the label has no lower-case letter |
| ChunkDocs.ChunkDocuments | ingest_manpages.py:846-868 | the loop over documents computes the specification |
| ChunkDocs.ChunkDocument | ingest_manpages.py:854-868 | the inner loop over subsections |
| ChunkDocs.ChunkSubsection | ingest_manpages.py:855-868 | one subsection is skipped when blank, otherwise split and packed |
| ChunkDocs.AllChunksOf | ingest_manpages.py:846-868 | every chunk belongs to a document and has an upper-cased section name, non-empty text and its own token count |
| ChunkDocs.BlankSubsectionSkipped | ingest_manpages.py:857-858 | a blank subsection adds no chunk |
| ChunkDocs.SubsectionChunksOf | ingest_manpages.py:855-868 | every chunk of one subsection carries the document's id, page, section and token count |
| ChunkDocs.DocChunksOf | ingest_manpages.py:854-868 | every chunk of one document does |
| Resolver.LinkName | ingest_manpages.py:490 | the stub's file name has no `/` |
| Resolver.NextFile | ingest_manpages.py:478-506 | a next file is always an existing one |
| Resolver.Follow | ingest_manpages.py:464-517 | a resolved file is readable, is not a `.so` page, was not visited, and its parent is the working directory; a stub goes to `.temp_<name>` next to the start page |
| Resolver.FewerUnvisited | ingest_manpages.py:465-469 | each visit leaves fewer files unvisited, so the loop terminates |
| Resolver.ResolveSoChain | ingest_manpages.py:443-519 | nothing when the page does not start with `.so `; otherwise a terminal file other than the start, or a stub next to the start |
| Resolver.ResolveSoChainLoop | ingest_manpages.py:443-519 | the loop with `visited` and `current_file` computes the specification |
| Resolver.VisitFile | ingest_manpages.py:465-517 | one pass either ends or moves to the next file, having visited the current one |
| Resolver.LookUpTarget | ingest_manpages.py:478-506 | the target lookup agrees with the specification |
| Resolver.FollowSo | ingest_manpages.py:474-512 | at a redirection, the loop moves to the found file or writes the `.so <name>` stub |
| Resolver.SelfRedirectGivesUp | ingest_manpages.py:465-467 | a page that redirects to itself gives `(False, None, None)` |
| Resolver.MutualRedirectGivesUp | ingest_manpages.py:465-467 | two pages that redirect to each other give `(False, None, None)` |
| Resolver.NearFile | ingest_manpages.py:502-506 | a plain target names the file next to the current one |
| Resolver.SoLineTarget | ingest_manpages.py:474-475 | `.so name` names `name` |
| Resolver.SiblingDirectoryFirst | ingest_manpages.py:478-487 | a `dir/file` target is looked up one level up first |
| Resolver.StubNextToStart | ingest_manpages.py:495-512 | a stub is written in the start page's directory, not the current file's |
| Discovery.Suffix | ingest_manpages.py:679 | `p.suffix` is empty or a tail of the name |
| Discovery.InsertElements | ingest_manpages.py:679 | inserting adds the path and nothing else |
| Discovery.InsertSorted | ingest_manpages.py:679 | inserting keeps key order |
| Discovery.InsertDistinct | ingest_manpages.py:679 | inserting a new path keeps the list repeat-free |
| Discovery.SortedUniqueShape | ingest_manpages.py:679 | `sorted(set(files), key=…)` holds each found path once, in key order |
| Discovery.DiscoverShape | ingest_manpages.py:670-682 | the result is sorted, repeat-free and a prefix of the sorted set; it holds every found path with no limit, and exactly `min(limit, n)` paths with one |
| Corpus.GatherDocs | ingest_manpages.py:761-765 | the loop keeps the parsed documents and counts the failures |
| Corpus.DocsPlusFailures | ingest_manpages.py:761-765 | documents plus failures equal the number of pages |
| Corpus.ParsedInOrder | ingest_manpages.py:761-765 | documents keep their pages' order |
| Corpus.SectionsOf | ingest_manpages.py:793 | the section of each document |
| Corpus.BySectionSorted | ingest_manpages.py:793-800 | the per-section counts are keyed in increasing order, each once |
| Corpus.BySectionKeys | ingest_manpages.py:793 | the keys are the documents' sections |
| Corpus.BySectionCounts | ingest_manpages.py:793 | each count is the number of documents of that section, at least 1 |
| Corpus.SectionTotals | ingest_manpages.py:793 | the counts add up to the number of documents |
| Corpus.Tally | ingest_manpages.py:793 | `Counter`: each key with its number of occurrences |
| Corpus.SummaryCounts | ingest_manpages.py:793-804 | `total_documents` is the number of documents; `with_NAME`, `with_SYNOPSIS` and `with_ERRORS` are each the number of documents with a name line, a synopsis or an `ERRORS` subsection, never above the total; `with_ERRORS` is 0 when no page has an `ERRORS` subsection and `with_NAME` is the total when every page has a name |
| Common.CountWhereIndices | ingest_manpages.py:794-796 | `sum(1 for x in s if p(x))` is the number of positions of `s` whose element satisfies `p` |
| Common.CountWhereAll | ingest_manpages.py:794 | when every element satisfies `p` the count is the length |
| Corpus.BuildAliasMap | ingest_manpages.py:813-824 | the loop computes the specification's alias map |
| Corpus.AddDocAliases | ingest_manpages.py:816-824 | the inner loop over one document's aliases |
| Corpus.AddAliasesKeys | ingest_manpages.py:816-824 | one document adds exactly the stripped non-empty aliases it names |
| Corpus.AddAliasesNamed | ingest_manpages.py:820-824 | a named alias maps to the document's entry |
| Corpus.AddAliasesOthers | ingest_manpages.py:816-824 | other keys keep their entries |
| Corpus.LastNamer | ingest_manpages.py:814-824 | the last document naming a key |
| Corpus.AliasMapLastWriter | ingest_manpages.py:813-824 | an alias is a key exactly when some document names it, and maps to the last such document |
| SectionHints.InvertSynonyms | ingest_manpages.py:828-832 | the two nested loops compute the inversion |
| SectionHints.AddSynonymsEffect | ingest_manpages.py:831-832 | one entry's synonyms map to its name, and other keys keep their values |
| SectionHints.LastListing | ingest_manpages.py:830-832 | the last entry listing a synonym |
| SectionHints.InvertLastWriter | ingest_manpages.py:828-832 | a synonym maps to the name of the last entry listing it |
| SectionHints.InvertIff | ingest_manpages.py:828-832 | with each synonym under one entry, `syn_to_canon[s] == c` iff `s` is listed under `c` |
| SectionHints.SectionSynonymsUnique | ingest_manpages.py:75-100 | no synonym of `SECTION_SYNONYMS` is listed under two canonical names |
| SectionHints.SectionNamesDistinct | ingest_manpages.py:75-100 | no canonical name of `SECTION_SYNONYMS` appears twice |
| SectionHints.SectionHintsIff | ingest_manpages.py:826-832 | in the written hints, `syn_to_canon[s] == c` iff `s` is a synonym listed under `c` in `SECTION_SYNONYMS` |
| EvalSet.SectionChunks | ingest_manpages.py:884-889 | `by_doc_section[(id, sec)]` holds only that document's chunks of that upper-cased section |
| Strings.FirstVisibleLine | ingest_manpages.py:903-908 | the index of the first non-blank line, with every earlier line blank |
| EvalSet.FirstLine | ingest_manpages.py:900-908 | a found first line is non-empty |
| EvalSet.FindFirstLine | ingest_manpages.py:900-910 | the method computes the specification |
| EvalSet.ScanLines | ingest_manpages.py:904-908 | the loop with `break` finds the first non-blank line |
| EvalSet.FirstVisibleLineAt | ingest_manpages.py:904-908 | the first non-blank line is the one after a blank prefix |
| EvalSet.CollectLineItems | ingest_manpages.py:894-945 | the per-document loop computes the NAME or SYNOPSIS questions |
| EvalSet.LineItemOf | ingest_manpages.py:895-919 | one document gives at most one question |
| EvalSet.CollectErrnoItems | ingest_manpages.py:949-964 | the three nested loops gather the errno questions |
| EvalSet.CollectDocErrnoItems | ingest_manpages.py:953-964 | the loop over one document's ERRORS chunks |
| EvalSet.CollectChunkErrnoItems | ingest_manpages.py:954-964 | the loop over one chunk's constants |
| EvalSet.CapErrnoItems | ingest_manpages.py:967-975 | the loop with its `errno_by_doc` tally computes the cap |
| EvalSet.CapOne | ingest_manpages.py:970-975 | a question is kept and counted while its document has fewer than three |
| EvalSet.BuildEvalSetLoops | ingest_manpages.py:882-989 | the whole selection computes the specification |
| EvalSet.FirstLineNone | ingest_manpages.py:900-910 | there is no question text exactly when every line is blank |
| EvalSet.FirstLineSome | ingest_manpages.py:903-908 | the question text is the first non-blank line, stripped and on one line |
| EvalSet.LineItemShape | ingest_manpages.py:894-945 | a question exists iff the section has chunks and a non-blank line; it targets the first chunk of the section and expects a non-empty prefix of that line of at most 200 characters |
| EvalSet.LineItemsSection | ingest_manpages.py:917-943 | every question targets the given section |
| EvalSet.ErrnoItemsFrom | ingest_manpages.py:950-964 | every errno question names a constant matching `E[A-Z0-9_]{2,}` from an ERRORS chunk, and targets that chunk |
| EvalSet.CapPerDocCount | ingest_manpages.py:967-975 | exactly `min(3, n)` of a document's `n` questions survive |
| EvalSet.CapPerDocSubsequence | ingest_manpages.py:967-975 | the cap only drops questions, and the kept ones stay in their original order (they sit at increasing positions of the input) |
| EvalSet.EvalSetShape | ingest_manpages.py:977-982 | the result is drawn from the combined questions, has `min(max_items, n)` of them, and holds at most 3 errno questions per document |
| TokenStats.Rank | ingest_manpages.py:1018 | `k` lies in `[0, n-1]`, and below `n-1` with two values or more |
| TokenStats.LowIndex | ingest_manpages.py:1019 | `f = int(k)` is an index with `f <= k < f+1` |
| TokenStats.HighIndex | ingest_manpages.py:1020 | `c = min(f+1, n-1)` is an index not below `f` |
| TokenStats.Neighbours | ingest_manpages.py:1019-1022 | `c == f+1`, or both are 0 on a one-element list |
| TokenStats.PercentileBracketed | ingest_manpages.py:1018-1025 | the percentile lies between `vals[f]` and `vals[c]` |
| TokenStats.PercentileInRange | ingest_manpages.py:1011-1025 | on a sorted list it lies between the first and last value; `p <= 0` gives the first and `p >= 100` the last |
| TokenStats.PercentileConstant | ingest_manpages.py:1011-1025 | on equal values every percentile is that value |
| TokenStats.PercentileMonotone | ingest_manpages.py:1011-1025 | on a sorted list a larger `p` never gives a smaller percentile |
| TokenStats.PercentileFormula | ingest_manpages.py:1018-1025 | the value at `f` and the next one, weighted by how far `k` lies past `f` |
| TokenStats.SortAscendingShape | ingest_manpages.py:1027 | sorting orders the counts and keeps each of them |
| TokenStats.SortAscendingSum | ingest_manpages.py:1027-1028 | sorting keeps the total |
| TokenStats.Mean | ingest_manpages.py:1029 | the mean times the count is the total |
| TokenStats.StatsTotal | ingest_manpages.py:1063 | the reported total is the sum of the counts |
| TokenStats.StatsAverage | ingest_manpages.py:1064 | the reported mean is the counts' mean |
| TokenStats.StatsExtremes | ingest_manpages.py:1065-1069 | `min` and `max` are counts, and every count lies between them |
| TokenStats.StatsPercentiles | ingest_manpages.py:1065-1069 | min ≤ p50 ≤ p90 ≤ p95 ≤ max |
| QualityReport.FirstSeenShape | ingest_manpages.py:1035 | `Counter` keys in first-seen order, each once |
| QualityReport.TallyTotal | ingest_manpages.py:1008-1009 | counts over distinct keys covering every element add up to the number of elements |
| QualityReport.OversizedAnchorsExact | ingest_manpages.py:1032 | one anchor per chunk over 700 tokens, and only those |
| QualityReport.RepeatedShape | ingest_manpages.py:1036 | the keys with a count above 1, each once |
| QualityReport.DuplicateAnchorsExact | ingest_manpages.py:1035-1036 | an anchor is reported exactly when two chunks share it, and only once |
| QualityReport.NoDuplicatesWhenDistinct | ingest_manpages.py:1035-1036 | distinct anchors give no duplicates |
| QualityReport.SectionNames | ingest_manpages.py:1008 | each chunk's upper-cased section name |
| QualityReport.BySectionNameShape | ingest_manpages.py:1008-1071 | section names sorted once each, with exact counts adding up to the chunks |
| QualityReport.MinCount | ingest_manpages.py:1073 | the least count, which is one of the counts |
| QualityReport.MaxCount | ingest_manpages.py:1075 | the greatest count, which is one of the counts |
| QualityReport.PerDocumentShape | ingest_manpages.py:1009-1076 | exact per-document counts adding up to the chunks; the average is chunks over documents |
| QualityReport.NamedSubsectionsExact | ingest_manpages.py:1041-1045 | the non-empty upper-cased subsection names |
| QualityReport.SectionsPresentShape | ingest_manpages.py:1039-1046 | a document's sections, sorted and each once |
| QualityReport.PresentMapLastWriter | ingest_manpages.py:1040-1046 | every document id is present, with the sections of the last document of that id |
| QualityReport.SortByCountShape | ingest_manpages.py:1089-1090 | sorting by count is descending and keeps every entry |
| QualityReport.SortByCountUnique | ingest_manpages.py:1089-1090 | sorting entries with distinct keys keeps the keys distinct |
| QualityReport.MostCommonUnique | ingest_manpages.py:1049-1090 | `most_common(n)` lists no element twice |
| QualityReport.MostCommonShape | ingest_manpages.py:1049-1090 | `most_common(n)` is descending with exact counts, has `min(n, #distinct)` entries, lists no element twice, and leaves out nothing more frequent than its last entry |
| QualityReport.LeftOut | ingest_manpages.py:1089-1090 | a left-out key's count is at most the n-th |
| QualityReport.QualityShape | ingest_manpages.py:992-1091 | no chunks gives the short report; otherwise totals, the oversized count, at most 20 examples, the duplicate count and the token total are as counted |
| Retrieval.IndexOf | search/evaluation_utils.py:81-177 | `list.index` finds the first occurrence, and is absent exactly when the id is missing |
| Retrieval.RecallAtK | search/evaluation_utils.py:13-30 | the value is 0 or 1 |
| Retrieval.RecallIff | search/evaluation_utils.py:25-30 | for k ≥ 0, Recall@k is 1 iff both inputs are non-empty and the target is among the first k ids |
| Retrieval.RecallIffNegative | search/evaluation_utils.py:25-30 | for k < 0, where `[:k]` drops the last -k ids, Recall@k is 1 iff both inputs are non-empty and the target is among the first len+k ids |
| Retrieval.RecallByRank | search/evaluation_utils.py:25-30 | Recall@k is 1 iff the first position of the target is below k |
| Retrieval.RecallMonotone | search/evaluation_utils.py:29-30 | Recall@k is non-decreasing in k |
| Retrieval.Mrr | search/evaluation_utils.py:65-85 | MRR lies in [0, 1] |
| Retrieval.Reciprocal | search/evaluation_utils.py:82 | `1/rank` lies in (0, 1] |
| Retrieval.MrrAtFirst | search/evaluation_utils.py:80-82 | MRR is `1/(i+1)` for the first position `i` of the target |
| Retrieval.MrrZero | search/evaluation_utils.py:76-85 | MRR is 0 exactly when an input is empty or the target is missing |
| Retrieval.MrrAboveRecall | search/evaluation_utils.py:65-85 | a hit within k gives MRR ≥ 1/k |
| Retrieval.ParseBuiltId | search/evaluation_utils.py:101-105 | an id built by the ingester decodes to its version, name and section |
| Retrieval.ParseNeedsThreeColons | search/evaluation_utils.py:101-102 | an id decodes exactly when it holds at least three colons |
| Retrieval.SplitCount | search/evaluation_utils.py:101 | there is one more part than separators |
| Retrieval.FirstMatch | search/evaluation_utils.py:108-113 | `.first()` returns a stored matching chunk; absent means none matches |
| Retrieval.FindTargetChunk | search/evaluation_utils.py:88-119 | found iff the id decodes and some stored chunk of that name, section and version has the anchor |
| Retrieval.HitIds | search/evaluation_utils.py:168 | the ids in search order |
| Retrieval.RetrievedOf | search/evaluation_utils.py:162-169 | each entry ranked from 1 with its score |
| Retrieval.EvaluateSingleQuery | search/evaluation_utils.py:122-198 | the method with its two loops computes the specification |
| Retrieval.CollectHits | search/evaluation_utils.py:162-169 | the loop lists the ids and the ranked entries |
| Retrieval.ScoreOfFirst | search/evaluation_utils.py:180-183 | the loop returns the score of the first entry with the id |
| Retrieval.EvaluateShape | search/evaluation_utils.py:136-198 | success iff the target exists and the search answered; metrics are present iff success iff there is no error |
| Retrieval.HitsFound | search/evaluation_utils.py:175-191 | the rank is the first position + 1, the score is that entry's, and MRR = 1/rank |
| Retrieval.HitsMissed | search/evaluation_utils.py:175-191 | a missed target gives nothing found and every metric 0 |
| Retrieval.HitsRecall | search/evaluation_utils.py:187-188 | Recall@k is 1 iff found and rank ≤ k, for k = 1, 5, 10, 20 |
| Retrieval.EvaluateCoherent | search/evaluation_utils.py:186-192 | a result's metrics are ordered: R@1 ≤ R@5 ≤ R@10 ≤ R@20 and R@1 ≤ MRR |
| Retrieval.HitsCoherent | search/evaluation_utils.py:187-191 | the metrics of one answer satisfy R@1 ≤ R@5 ≤ R@10 ≤ R@20 and R@1 ≤ MRR |
| Retrieval.Results | search/evaluation_utils.py:249-251 | one result per query |
| Retrieval.SuccessScores | search/evaluation_utils.py:274-285 | one metrics entry per successful query |
| Retrieval.RunEvaluation | search/evaluation_utils.py:236-302 | the loop computes the run summary |
| Retrieval.SuccessPlusFailure | search/evaluation_utils.py:274-287 | each query counts once, as a success or a failure |
| Retrieval.ResultsAt | search/evaluation_utils.py:249-251 | result i is the evaluation of query i |
| Retrieval.SumOfBounds | search/evaluation_utils.py:293-302 | a sum of metrics in [0, 1] lies in [0, n] |
| Retrieval.RunShape | search/evaluation_utils.py:229-302 | total = successes + failures; averages exist iff some query succeeded, are taken over successes only, and are ordered within [0, 1] |
| Retrieval.AveragesOrdered | search/evaluation_utils.py:293-302 | averages satisfy 0 ≤ R@1 ≤ R@5 ≤ R@10 ≤ R@20 ≤ 1 and R@1 ≤ MRR ≤ 1 |
| Populate.Document.constructor | search/management/commands/populate_manpages.py:87-94 | a new `Document` holds the given fields |
| Populate.KeyOfRebuilds | search/management/commands/populate_manpages.py:70-82 | an accepted id is exactly `man:<version>:<name>:<section>` |
| Populate.KeyOfBuiltId | search/management/commands/populate_manpages.py:70-82 | ingester ids are accepted with the page name, section and version as key |
| Populate.Rows | search/management/commands/populate_manpages.py:65-112 | one chunk row per valid line |
| Populate.LoadRows | search/management/commands/populate_manpages.py:63-130 | handed-off rows plus pending rows are the valid lines' rows, and `processed_count` is their number |
| Populate.HandOffComplete | search/management/commands/populate_manpages.py:58-134 | after the final hand-off every valid line's row was handed off once, in order; `processed_count` counts only valid lines |
| Populate.StepKeeps | search/management/commands/populate_manpages.py:65-119 | a line keeps batches sized, every row under its key's document, and every document made from its key, including one opened by a line lacking a chunk field |
| Populate.LoadKeeps | search/management/commands/populate_manpages.py:63-130 | the loop keeps that invariant |
| Populate.HandOffShape | search/management/commands/populate_manpages.py:115-134 | each batch has 1 to `batch_size` rows, all but the last exactly `batch_size`; chunks with one key share one document; every document has the key's name, section, version and path, and the default title unless a NAME row of the batch gave its stripped text |
| Populate.LoadAccounted | search/management/commands/populate_manpages.py:63-130 | every document of the open batch and of each handed-off batch has a row in that batch, or was opened by a line lacking a chunk field |
| Populate.HandOffAccounted | search/management/commands/populate_manpages.py:83-134 | after the final hand-off, each batch's documents have a row in the batch unless a line lacking a chunk field opened them; in a file without such lines, every document has a row |
| Populate.OrphanDocument | search/management/commands/populate_manpages.py:83-130 | a page whose only line lacks a chunk field still gets a `Document` in the batch, with no row |
| Populate.AcceptGrouped | search/management/commands/populate_manpages.py:82-110 | an accepted row keeps the grouping |
| Populate.OpenedGrouped | search/management/commands/populate_manpages.py:83-95 | opening a key's document keeps the grouping |
| Populate.Opened | search/management/commands/populate_manpages.py:83-95 | after get-or-create the key has a document |
| Populate.GetOrCreate | search/management/commands/populate_manpages.py:83-95 | creates a fresh `Document` with title `name(section)` and path `man{section}/{name}.{section}` only for a new key |
| Populate.ApplyTitle | search/management/commands/populate_manpages.py:108-110 | the title becomes the stripped text only for NAME with text longer than the title; other documents are untouched |
| Populate.UpdateDocument | search/management/commands/populate_manpages.py:82-110 | the documents mirror the specification after the row |
| Populate.HandleLine | search/management/commands/populate_manpages.py:65-130 | one iteration matches the specification's step: a line lacking a chunk field only gets or creates its document; a valid line adds its row and may hand off the batch, resetting it |
| Populate.Handle | search/management/commands/populate_manpages.py:58-134 | the loop and final hand-off produce the specification's batches and `processed_count` |
| Accounts.VerifyRefuses | accounts/models.py:100-102 | verification leaves everything unchanged and answers False exactly when the code is used or expired; `now == expires_at` is accepted |
| Accounts.VerifyOutcome | accounts/models.py:103-110 | in the window, success iff the hash matches; a wrong code adds exactly one attempt and stays unused; the right one is used now |
| Accounts.SingleUse | accounts/models.py:100-110 | any series of attempts succeeds at most once, never after an earlier use, and the code stays used |
| Accounts.AttemptsBounded | accounts/models.py:103-107 | attempts never decrease and grow by at most one per try |
| Accounts.LoginCode.constructor | accounts/models.py:68-77 | a new row is unused, with no attempts and no request metadata |
| Accounts.LoginCode.VerifyAndUse | accounts/models.py:100-110 | the answer and the new fields are those of the specification |
| Accounts.User.constructor | accounts/models.py:34-45 | a user with the given upgrade end and no codes |
| Accounts.UpgradeLasts | accounts/models.py:62-64 | `is_upgraded` holds iff `upgraded_until` is set and later than now, and then at every earlier time |
| Accounts.CreateForUser | accounts/models.py:88-98 | one fresh code is added, storing the hash of the code, expiring `minutes` after now |
| Accounts.NewCodeVerifies | accounts/models.py:88-110 | a new code verifies with its own code until expiry, and with an injective hash with no other candidate |
| Accounts.CreatedTimes | accounts/services.py:25-28 | the creation time of each code |
| Accounts.SendLoginCode | accounts/services.py:19-43 | a throttled request raises its message and adds nothing; otherwise exactly one fresh code is added with purpose `login`, expiry now + 10 min and the request's metadata |
| Accounts.CountHourly | accounts/services.py:28 | the loop counts codes created in the last hour |
| Accounts.ThrottleOrder | accounts/services.py:25-30 | the 30-second rule is checked first; the hourly message comes only when no code is that recent |
| Accounts.SendKeepsLimits | accounts/services.py:25-32 | a request that passes keeps codes 30 s apart and leaves at most 5 codes in the trailing hour |

## Left out

- Strings.IsWordChar, Strings.IsDigit, Strings.WordBoundary, Refs.ExtractSeeAlsoRefs,
  Refs.ExtractConstants, DocBuild.DetectSection: regex `\w`, `\d` and `\b` are taken
  as ASCII. Python's are Unicode on `str`, so a non-ASCII letter such as `é` before
  `ABC` or `getcwd(3)` blocks the `\b` there, and a non-ASCII digit such as `٣` is a `\d`.
  The model differs from the source on such text.
- Dataset download, tarball extraction, checksums, marker files, `acquire_dataset` and
  `main`: these are network and file-system I/O.
- The `mandoc`, `pandoc` and `groff` renderers and their temporary files. Rendering is an
  input that may be absent, and the `.so` stub write is returned as a value, not performed.
- The worker pool is modelled as a sequential fold over the results in input order.
- `tiktoken`: the tokenizer is a function parameter.
- `random.shuffle`: both shuffles are function parameters, assumed only to reorder.
- The timestamps `created_at` and `generated_at`, JSON and JSONL writes, and `log`.
- nDCG is not modelled, because `math.log2` has no exact counterpart.
- Percentiles, means and MRR use exact reals, not IEEE floats.
- Strings.SplitLines: only `\n` breaks a line. Python also breaks at `\r`, `\v`, `\f`,
  `\x1c`–`\x1e`, `\x85` and the Unicode line separators.
- Case mapping and `\s` follow ASCII rules plus the common Unicode spaces. There is no
  full Unicode case folding.
- Slug.SlugShape: idempotence of `slugify` is not stated.
- Discovery.DiscoverShape: the glob itself is an input. Ties between equal keys keep
  insertion order, and the order of `set` iteration is not modelled.
- Retrieval.RunShape: the nine metric lists are one list of score records, without the
  four nDCG lists.
- Retrieval.FirstMatch: `.first()` takes the stored sequence order as the primary-key
  order.
- The evaluation run's `EvaluationRun` and `EvaluationResult` database rows and its
  status field are not modelled.
- Populate:
  - each JSON line is decoded up front into the `Line` datatype: a line that fails to
    decode or has no `document_id` is `Malformed`, and one that has a `document_id` but
    lacks a chunk field is `MissingField`. Which chunk field is missing is not recorded;
    it does not change what the loop does;
  - `_process_batch` and the ORM bulk inserts are left out, and a batch is handed off as
    values;
  - an exception raised inside `_process_batch` would skip the reset of the batch
    buffers, and this is not modelled;
  - lines whose fields have the wrong type are not modelled. For example, a NAME line
    whose `text` is not a string has its row appended, and then `len`/`strip` raises
    before `processed_count` is incremented and before the batch-size check.
- Accounts:
  - `send_mail`, email normalisation and `get_or_create` of the user are left out;
  - the random code and SHA-256 are parameters, and `compare_digest` is equality;
  - `created_at` and `expires_at` are both taken from the single `now` argument. In
    `verify_and_use` the model likewise uses one `now` for the expiry check and for
    `used_at`, where the source reads the clock twice;
  - requests are modelled one at a time, each seeing the rows saved by the one before.
    The source locks nothing: `verify_and_use` checks `used_at` on a row loaded before
    the call, and `send_login_code` checks the throttle and then creates the code. So
    `SingleUse` and `SendKeepsLimits` do not hold for concurrent requests. Two requests
    that load the same row can both succeed, and two concurrent sends can create codes
    less than 30 s apart.
- Accounts.AttemptsBounded: the 16-bit limit of `PositiveSmallIntegerField` is not
  modelled.
- Qdrant, embeddings, the RAG service, the search wrappers, views, URLs, admin and
  migrations are outside the modelled core.
