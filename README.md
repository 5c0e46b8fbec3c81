# md-fmt core, modelled in Dafny

md-fmt formats Markdown notes. The tool reads a note's Markdown syntax tree
(`mdast`) and parses it into a note model. A note holds:

- optional YAML front matter;
- a head of blocks before the first top-level heading;
- a body of sections, one per depth-1 heading.

The tool then normalises the metadata, turning a bookmark's outline into a
table-of-contents block. It prints the note back to Markdown through a chunk
printer, and prints each block with a visitor over a depth-tracking context.
An index of notes is printed as a JSON array. The Obsidian plugin turns a text
diff into editor patches.

This project models those parts in Dafny and proves properties about them.
One Dafny module stands for each source file:

| module | file | what it models |
|---|---|---|
| `Text` | `text.dfy` | the parts of Rust's `str` API the formatter uses: Unicode white space, `trim`, `split`, `lines` |
| `Mdast` | `mdast.dfy` | the syntax tree nodes the printer reads |
| `AstPrint` | `ast_printer.dfy` | `AstPrinter`, as a class with `depth` and `order` fields |
| `NoteKinds` | `note_kind.dfy` | the kinds a callout card can have |
| `ModelKinds` | `model_kind.dfy` | the card kinds of the markdown-side model |
| `NoteMetadata` | `metadata.dfy` | front matter, bookmarks and their normalisation |
| `Toc` | `toc.dfy` | outline parsing and flattening |
| `Chunks` | `chunk_printer.dfy` | `ChunkPrinter`, as a class over a `seq` of chunks |
| `Visitor` | `visitor.dfy` | `VisitorContext`, as a class |
| `Builder` | `builder.dfy` | `heading` and `block_quote` |
| `Blocks` | `block.dfy` | `Block::visit` and `Block::print` |
| `NoteData` | `note_data.dfy` | the block-based note and its normalisation |
| `NoteModel` | `note_model.dfy` | the head/body note and its normalisation |
| `NoteParser` | `note_parser.dfy` | `NoteParser`, with a `Cursor` class for the peekable iterator |
| `NotePrinter` | `note_printer.dfy` | `NotePrinter` and its chunk-pushing helpers |
| `Indexes` | `indexes.dfy` | `Item` and `Indexes` |
| `QuotedArgs` | `quoted_args.dfy` | `parse_quoted_args` |
| `Patches` | `patches.dfy` | `getPatches` and `endOfDocument` |
| `Wrappers` | `wrappers.dfy` | `Option` and `Result` |

Imperative code stays imperative:

- A loop in the source is a `method` with a `while` loop.
- An object the source mutates is a `class`.
- Each of these is proved equal to a specification function.
- The properties are then proved about that function.

YAML encoding and decoding, and the JSON encoding of an index item, are
function parameters (`decode`, `encode`). The properties hold for every such
function.

## Model

| member | source | states |
|---|---|---|
| NoteKinds.FromNameOfName | crates/mdfmt-core/src/note/note_kind.rs:16-43 | parsing the printed name of a card kind gives that kind back |
| NoteKinds.NameInjective | crates/mdfmt-core/src/note/note_kind.rs:16-27 | two kinds with the same printed name are the same kind |
| NoteKinds.FromNameTotal | crates/mdfmt-core/src/note/note_kind.rs:29-43 | a name that no kind prints reads as `note`; a name some kind prints reads as that kind |
| ModelKinds.FromNameOfName | crates/mdfmt-core/src/note/model.rs:117-142 | parsing a printed model kind gives that kind back |
| ModelKinds.FromNameUnknown | crates/mdfmt-core/src/note/model.rs:129-142 | every unrecognised name, `todo` included, reads as `note` |
| NoteMetadata.StatusFromNameOfName | crates/mdfmt-core/src/note/metadata.rs:212-237 | parsing a printed status gives that status back |
| NoteMetadata.StatusFromNameUnknown | crates/mdfmt-core/src/note/metadata.rs:224-237 | an unrecognised status name reads as `todo` |
| NoteMetadata.FrontMatterRoundTrip | crates/mdfmt-core/src/note/metadata.rs:20-29 | only threads the YAML codec assumption through the two wrappers: if the codec reads back what it writes, front matter written by `to_md` is read back by `from_str` unchanged, and a codec failure is `to_md`'s error |
| NoteMetadata.ParseToc | crates/mdfmt-core/src/note/metadata.rs:156-163 | there is an outline exactly when there is outline text |
| NoteMetadata.MetaNormalizeNoneIff | crates/mdfmt-core/src/note/metadata.rs:130-154 | normalisation drops the metadata exactly when nothing in it is worth keeping |
| NoteMetadata.MetaNormalizeKeepsOwnFields | crates/mdfmt-core/src/note/metadata.rs:130-148 | the note's own title, link and dates are kept; missing ones are promoted from the bookmark; every other field is unchanged; the bookmark survives only if it has content, and then normalised |
| NoteMetadata.MetaNormalizeDropsToc | crates/mdfmt-core/src/note/metadata.rs:145-146 | normalised metadata has no outline of its own; a kept bookmark has no outline, title, url or dates left |
| NoteMetadata.BookmarkNormalizeShape | crates/mdfmt-core/src/note/metadata.rs:174-190 | a bookmark is dropped exactly when it has no content besides the promoted fields; otherwise only its remaining fields stay |
| NoteMetadata.MetaNormalizeIdempotent | crates/mdfmt-core/src/note/metadata.rs:130-154 | normalising metadata twice gives the same result as normalising it once |
| NoteMetadata.MetadataNormalizeIdempotent | crates/mdfmt-core/src/note/metadata.rs:31-36 | the same for front matter, raw or decoded |
| NoteMetadata.TocOnlyBookmarkDisappears | crates/mdfmt-core/src/note/metadata.rs:167-190 | a bookmark holding only an outline disappears, and so does metadata holding only such a bookmark |
| NoteMetadata.NormalizeExamples | crates/mdfmt-core/src/note/metadata.rs:246-289 | unit tests `normalize_empty`, `normalize_title` and `normalize_link` |
| NoteMetadata.NormalizeOthersExample | crates/mdfmt-core/src/note/metadata.rs:311-333 | unit test `normalize_others`: a bookmark with extra keys is kept |
| NoteData.GetTocSource | crates/mdfmt-core/src/note/note_data.rs:29-49 | the outline comes from the bookmark whenever there is one, even a bookmark without an outline, and otherwise from the front matter's own outline; there is one outline block exactly when that source has text |
| NoteData.NormalizeBody | crates/mdfmt-core/src/note/note_data.rs:19-27 | normalisation keeps every body block in order, after at most one new outline block |
| NoteData.NormalizeIdempotent | crates/mdfmt-core/src/note/note_data.rs:19-49 | normalising a note twice gives the same result as normalising it once |
| NoteData.NormalizePrintable | crates/mdfmt-core/src/note/note_data.rs:19-27 | a printable note stays printable after normalisation |
| NoteModel.CardKind | crates/mdfmt-core/src/note/model.rs:107-127 | a model kind becomes the card kind with the same name, never `todo` |
| NoteModel.CardBlock | crates/mdfmt-core/src/note/model.rs:73-75 | `Block::card` makes an untitled card of the kind with the same name, holding the given children |
| NoteModel.GetTocFromBookmark | crates/mdfmt-core/src/note/model.rs:34-47 | there is one outline block exactly when the bookmark carries outline text |
| NoteModel.OwnTocIgnored | crates/mdfmt-core/src/note/model.rs:34-47 | here the metadata's own outline is ignored; the block-based note uses it |
| NoteModel.NormalizeKeepsBlocks | crates/mdfmt-core/src/note/model.rs:23-32 | normalisation keeps the head in order after at most one outline block, and keeps the body as it is |
| NoteModel.NormalizeIdempotent | crates/mdfmt-core/src/note/model.rs:23-47 | normalising twice gives the same result as normalising once |
| Builder.QuoteLine | crates/mdfmt-core/src/note/builder.rs:8-14 | every quoted line starts with `>` and stays on one line |
| Builder.UnquoteQuoteLine | crates/mdfmt-core/src/note/builder.rs:8-14 | removing the quote marker gives the original line back |
| Builder.BlockQuoteShape | crates/mdfmt-core/src/note/builder.rs:5-18 | a block quote ends in a line break; each line is the quoted line of the trimmed text, starting with `>`; unquoting the lines gives the trimmed text back |
| Builder.BlockQuoteOneLine | crates/mdfmt-core/src/note/builder.rs:5-18 | a single visible line is quoted as `> ` plus that line plus a line break |
| Builder.BlockQuoteOfEmpty | crates/mdfmt-core/src/note/builder.rs:5-18 | quoting empty text gives a lone line break |
| Builder.HeadingIsOutlineHeading | crates/mdfmt-core/src/note/builder.rs:1-3 | a printed heading of depth d reads back as an outline heading line of depth d + 1 with the same title |
| Chunks.Separator | crates/mdfmt-core/src/chunk/printer.rs:20-30 | a chunk is followed by one or two line breaks, which are white space |
| Chunks.ChunksTextAppend | crates/mdfmt-core/src/chunk/printer.rs:17-31 | the text of two runs of chunks is the two texts concatenated |
| Chunks.PrintChunksDropsLastSeparator | crates/mdfmt-core/src/chunk/printer.rs:17-33 | with visible ends, trimming removes exactly the last chunk's line breaks |
| Chunks.PrintStartsWith | crates/mdfmt-core/src/chunk/printer.rs:17-33 | the printed text starts with the first chunk's text, followed by a line break or the end |
| Chunks.FirstLineSurvives | crates/mdfmt-core/src/chunk/printer.rs:17-33 | a visible one-line first chunk is the first line of the output, and the output is already trimmed |
| Chunks.OneChunkPrints | crates/mdfmt-core/src/chunk/printer.rs:17-33 | a lone chunk prints as its text without the surrounding white space |
| Chunks.SinglesText | crates/mdfmt-core/src/chunk/printer.rs:20-24 | lines pushed as single chunks, each with its own line break, are joined by blank lines |
| Chunks.SinglesPrint | crates/mdfmt-core/src/chunk/printer.rs:17-33 | the same lines print as their join on blank lines, with no trailing break |
| Chunks.ChunkPrinter.constructor | crates/mdfmt-core/src/chunk/printer.rs:9-11 | a new printer holds no chunks |
| Chunks.ChunkPrinter.Push | crates/mdfmt-core/src/chunk/printer.rs:13-15 | pushing appends the chunk and keeps the earlier ones in order |
| Chunks.ChunkPrinter.Print | crates/mdfmt-core/src/chunk/printer.rs:17-33 | the printing loop gives the trimmed text of the chunks pushed so far |
| Chunks.PrintExample | crates/mdfmt-core/src/chunk/printer.rs:49-65 | unit test `sigle_and_double` |
| Visitor.VisitorContext.constructor | crates/mdfmt-core/src/note.rs:36-39 | a new context is at the given depth and holds no chunks |
| Visitor.VisitorContext.Sub | crates/mdfmt-core/src/note.rs:45-47 | a sub-context is fresh, at the same depth, with no chunks, and does not share the parent's printer |
| Visitor.VisitorContext.Push | crates/mdfmt-core/src/note.rs:49-51 | pushing appends one chunk and changes nothing else |
| Visitor.VisitorContext.Descend | crates/mdfmt-core/src/note.rs:53-54 | diving goes one level deeper |
| Visitor.VisitorContext.Ascend | crates/mdfmt-core/src/note.rs:56-57 | leaving the dive goes back up one level |
| Visitor.VisitorContext.Print | crates/mdfmt-core/src/note.rs:60-62 | the context prints the chunks it holds |
| Blocks.Visit | crates/mdfmt-core/src/note/block.rs:63-134 | visiting appends exactly the block's chunks to the context and leaves its depth as it was |
| Blocks.VisitCard | crates/mdfmt-core/src/note/block.rs:85-109 | a card is printed in a sub-context, kind line first, then its children one level deeper; the result is pushed as one quoted chunk |
| Blocks.Dive | crates/mdfmt-core/src/note/block.rs:68-83 | the children are visited in order one level deeper, and the depth is restored |
| Blocks.Print | crates/mdfmt-core/src/note/block.rs:143-149 | a block prints as the printed chunks it visits into a fresh context |
| Blocks.CardFirstLine | crates/mdfmt-core/src/note/block.rs:93-107 | a card becomes one chunk whose first line is `> ` and its kind line |
| Blocks.KindLineShape | crates/mdfmt-core/src/note/block.rs:93-97 | the kind line starts with `[`, is one line, and ends with a visible character |
| Blocks.ChildrenChunksAppend | crates/mdfmt-core/src/note/block.rs:68-83 | the chunks of consecutive runs of children are consecutive |
| Blocks.SectionOpensWithHeading | crates/mdfmt-core/src/note/block.rs:75-83 | a section visited at context depth d opens with a heading the outline parser reads at level d + 1 with the section's title; its children follow at depth d + 1 |
| Blocks.TocLineIsOutlineItem | crates/mdfmt-core/src/note/block.rs:121-131 | an unquoted outline line reads back as a bullet whose indent encodes the entry's depth, with the same label |
| Indexes.ParsedNoteRecord | crates/mdfmt-core/src/index/item.rs:16-41 | the record of a parsed note has front matter exactly when the note's YAML block decoded, and then the decoded fields; exactly the records without it are left out of the index |
| Indexes.ToJson | crates/mdfmt-core/src/index/item.rs:33-41 | a record without front matter is left out; any other record gives its serialisation, or fails exactly when serialisation fails |
| Indexes.Indexes.constructor | crates/mdfmt-core/src/index/indexes.rs:14-16 | a new index holds the given records |
| Indexes.Indexes.Push | crates/mdfmt-core/src/index/indexes.rs:18-20 | pushing appends the note's record and keeps the others |
| Indexes.Indexes.Print | crates/mdfmt-core/src/index/indexes.rs:26-43 | the printing loop gives the specified index text, or the first serialisation error |
| Indexes.EmittedPrefixErr | crates/mdfmt-core/src/index/indexes.rs:31 | a serialisation error in some prefix is the error of the whole index |
| Indexes.Bracketed | crates/mdfmt-core/src/index/indexes.rs:27-40 | a printed index is bracketed by `[` and `]` |
| Indexes.EmptyIndex | crates/mdfmt-core/src/index/indexes.rs:26-43 | an index whose records have no front matter prints as `[]` |
| Indexes.SkippedRecord | crates/mdfmt-core/src/index/indexes.rs:31 | a record without front matter changes nothing in the printed index |
| Indexes.EmittedAppend | crates/mdfmt-core/src/index/indexes.rs:30-39 | the emitted texts of two runs of records are concatenated |
| Indexes.EmittedErrIff | crates/mdfmt-core/src/index/indexes.rs:31 | printing fails exactly when some record with front matter fails to serialise, with the first such record's error |
| Indexes.CommasBetween | crates/mdfmt-core/src/index/indexes.rs:32-37 | a comma goes before every emitted text except the first |
| Indexes.TwoRecords | crates/mdfmt-core/src/index/indexes.rs:28-40 | two records with front matter print as the array of their two serialisations, in order |
| QuotedArgs.ParseQuotedArgs | crates/mdfmt-core/src/cli/quoted_args.rs:1-37 | the character loop gives the specified words |
| QuotedArgs.WordsOfQuoteAll | crates/mdfmt-core/src/cli/quoted_args.rs:1-37 | writing words as escaped, quoted and space-separated arguments and then parsing gives the same words back, empty words included |
| QuotedArgs.ScanEscaped | crates/mdfmt-core/src/cli/quoted_args.rs:8-19 | inside quotes, an escaped word and its closing quote give exactly that word |
| QuotedArgs.WordsOfPlain | crates/mdfmt-core/src/cli/quoted_args.rs:20-35 | text without quotes or backslashes parses as its non-empty space-separated words |
| QuotedArgs.ScanWord | crates/mdfmt-core/src/cli/quoted_args.rs:28-30 | ordinary characters extend the current word |
| QuotedArgs.ExampleUnquoted | crates/mdfmt-core/src/cli/quoted_args.rs:45-53 | unit tests `empty` and `unquoted_string` |
| QuotedArgs.ExampleTwoWords | crates/mdfmt-core/src/cli/quoted_args.rs:65-68 | unit test `multiple_unquoted_string` |
| QuotedArgs.ExampleEscaped | crates/mdfmt-core/src/cli/quoted_args.rs:60-63 | unit test `escaped_string` |
| QuotedArgs.ScanNoEmptyWord | crates/mdfmt-core/src/cli/quoted_args.rs:6-36 | without a double quote in the rest of the input the scan adds no empty word |
| QuotedArgs.WordsNoEmptyWord | crates/mdfmt-core/src/cli/quoted_args.rs:20-35 | input without double quotes never parses to an empty word |
| QuotedArgs.ExampleTrailingBackslash | crates/mdfmt-core/src/cli/quoted_args.rs:15-19 | a backslash at the very end escapes nothing and is dropped: `a\` is `[a]` |
| QuotedArgs.ExampleUnterminatedQuote | crates/mdfmt-core/src/cli/quoted_args.rs:33-35 | a quote left open at the end keeps the word built so far, spaces included |
| QuotedArgs.ExampleEmptyWords | crates/mdfmt-core/src/cli/quoted_args.rs:8-27 | `""` is one empty word; spaces alone are none |
| Patches.EndOfDocumentCounts | packages/mdfmt-obsidian/src/utils/getPatches.ts:31-34 | the end line is the number of line feeds; the end column is the length of the last line |
| Patches.EndOfEmpty | packages/mdfmt-obsidian/src/utils/getPatches.ts:31-34 | the end of empty text is line 0, column 0 |
| Patches.EndOfAppend | packages/mdfmt-obsidian/src/utils/getPatches.ts:31-34 | the end of a concatenation follows from the ends of its parts |
| Patches.EndGrows | packages/mdfmt-obsidian/src/utils/getPatches.ts:31-34 | appending text never moves the end backwards |
| Patches.CountZeroIff | packages/mdfmt-obsidian/src/utils/getPatches.ts:32 | text counts no line feed exactly when it has none |
| Patches.EndOfTwoLines | packages/mdfmt-obsidian/src/utils/getPatches.ts:31-34 | `"a\nbc"` ends at line 1, column 2 |
| Patches.OffsetOfEnd | packages/mdfmt-obsidian/src/utils/getPatches.ts:31-34 | the end position of a prefix of a document points just past that prefix |
| Patches.GetPatches | packages/mdfmt-obsidian/src/utils/getPatches.ts:7-29 | the `forEach` loop gives the specified patch list |
| Patches.PatchPerEdit | packages/mdfmt-obsidian/src/utils/getPatches.ts:13-26 | there is one patch per inserting or deleting entry, in order, positioned at the end of the new text so far |
| Patches.DeletesOrdered | packages/mdfmt-obsidian/src/utils/getPatches.ts:19-22 | a deleting patch never ends before it starts |
| Patches.PatchesRewrite | packages/mdfmt-obsidian/src/utils/getPatches.ts:7-29 | applying the patches in order to the old text gives the new text |
| Patches.ApplyPrefix | packages/mdfmt-obsidian/src/utils/getPatches.ts:13-26 | after the patches of the first i entries, the document is the new text so far followed by the rest of the old text |
| Patches.ApplyAppend | packages/mdfmt-obsidian/src/utils/getPatches.ts:13-26 | applying two runs of patches is applying one run after the other |
| Toc.LeadingCount | src/note/toc.rs:108-166 | the count is the length of the run of the character that starts the text |
| Toc.ParseBlockShape | src/note/toc.rs:108-125 | a heading line of k `#`s reads as an outline heading of depth k + 1, with the text after the hashes and one more character |
| Toc.ParseBulletShape | src/note/toc.rs:127-144 | n spaces, `-` and a space read as a list entry of indent n + 1 |
| Toc.ParseOrderShape | src/note/toc.rs:146-166 | n spaces, one digit, `.` and a space read as a list entry of indent n + 1 |
| Toc.LineParseShape | src/note/toc.rs:95-106 | a line is a heading, then a bullet, then a numbered line, in that order of preference; otherwise it is unknown; depths are positive |
| Toc.ParseLine | src/note/toc.rs:54-91 | the `parse_line` loop gives the specified forest and stopping line |
| Toc.ParseNode | src/note/toc.rs:63-83 | a line that opens a node consumes its deeper lines as children, then the parse continues after them |
| Toc.ParseForestOther | src/note/toc.rs:84-86 | an unknown line is skipped; any other line that opens no node stops the level |
| Toc.ParseKeepsLineOrder | src/note/toc.rs:54-91 | flattening the parsed forest lists the labels of the consumed lines in order |
| Toc.TopLevelConsumesAll | src/note/toc.rs:48-52 | at the top level every line is consumed |
| Toc.ParseLinesKeepsEveryLine | src/note/toc.rs:48-91 | every recognised line's label appears once in the flattened outline, in order, and unknown lines are dropped |
| Toc.Flatten | src/note/toc.rs:28-34 | a flattened node starts with its own entry at its own depth |
| Toc.FlattenInner | src/note/toc.rs:28-34 | the recursive push appends the node's entries to those pushed before |
| Toc.FlattenAllAppend | src/note/toc.rs:28-34 | the entries of sibling trees are concatenated in order |
| Toc.FlattenRefIsOutline | src/note/toc.rs:22-34 | a flattened forest starts at depth 1, and each entry is at most one level deeper than the entry before it |
| Toc.NodeFlattenExample | src/note/toc.rs:285-304 | unit test `node_flatten` |
| Toc.SharpStyleExample | src/note/toc.rs:185-207 | unit test `sharp_style`, on its classified lines |
| Toc.BulletStyleExample | src/note/toc.rs:209-255 | unit tests `bullet_list` and `number_list`, whose classified lines are the same |
| Toc.MixedStyleExample | src/note/toc.rs:257-283 | unit test `mix_style`, on its classified lines |
| Toc.HeadingUnderHeading | src/note/toc.rs:54-91 | a heading followed by a deeper heading nests, and flattens to depths 1 and 2 |
| Toc.LoneBullet | src/note/toc.rs:48-52 | a lone bullet line is one outline entry at depth 1 |
| AstPrint.IndentOf | crates/mdfmt-core/src/ast/printer.rs:202-204 | list indentation is four spaces per level, and nothing but spaces |
| AstPrint.Leaf | crates/mdfmt-core/src/ast/printer.rs:161-174 | a leaf node prints, unless its kind is unsupported, and then the error names the kind |
| AstPrint.RenderComposed | crates/mdfmt-core/src/ast/printer.rs:27-121 | a parent node fails with its children's first error, or is built from the printed children |
| AstPrint.RenderAll | crates/mdfmt-core/src/ast/printer.rs:178-184 | printing children gives one text per child |
| AstPrint.RowPart | crates/mdfmt-core/src/ast/printer.rs:136-144 | a table row gives one printed row; any other child gives none |
| AstPrint.RenderErrIff | crates/mdfmt-core/src/ast/printer.rs:27-176 | printing a tree fails exactly when it holds an unsupported node |
| AstPrint.RenderAllErrIff | crates/mdfmt-core/src/ast/printer.rs:178-184 | printing children fails exactly when one of them holds an unsupported node |
| AstPrint.RenderItemsErrIff | crates/mdfmt-core/src/ast/printer.rs:35-48 | printing a list fails exactly when one of its items holds an unsupported node |
| AstPrint.RowPartErrIff | crates/mdfmt-core/src/ast/printer.rs:137-144 | a table child fails exactly when it is a row with an unsupported cell |
| AstPrint.TableRowsErrIff | crates/mdfmt-core/src/ast/printer.rs:122-150 | a table fails exactly when one of its rows has an unsupported cell; other children are ignored |
| AstPrint.PrintedTreeErrIff | crates/mdfmt-core/src/ast/printer.rs:19-25 | `AstPrinter::print` fails exactly on a tree holding an unsupported node |
| AstPrint.RenderAllOkElements | crates/mdfmt-core/src/ast/printer.rs:178-184 | on success, the printed children are the children printed one by one |
| AstPrint.RenderAllFirstErr | crates/mdfmt-core/src/ast/printer.rs:178-184 | on failure, the error is that of the first child that fails |
| AstPrint.RenderAllPrefixErr | crates/mdfmt-core/src/ast/printer.rs:178-184 | a failure in a prefix of the children is the failure of all of them |
| AstPrint.TextPrint | crates/mdfmt-core/src/ast/printer.rs:19-25 | a text node prints as its value, trimmed |
| AstPrint.ParagraphOfText | crates/mdfmt-core/src/ast/printer.rs:75-93 | a paragraph of one text with visible ends prints as that text |
| AstPrint.QuoteShape | crates/mdfmt-core/src/ast/printer.rs:187-200 | a quote ends in a line break; each line starts with `>`; unquoting gives the trimmed text back |
| AstPrint.QuoteOfEmpty | crates/mdfmt-core/src/ast/printer.rs:187-200 | `quote("")` is `>` and a line break, unlike `block_quote("")` |
| AstPrint.HeadingShape | crates/mdfmt-core/src/ast/printer.rs:49-53 | a heading prints as exactly d hashes, a space, then its joined children |
| AstPrint.LinkCollapses | crates/mdfmt-core/src/ast/printer.rs:115-121 | a link prints as its bare url exactly when its text is the url; otherwise as `[text](url)` |
| AstPrint.ItemMarker | crates/mdfmt-core/src/ast/printer.rs:35-74 | the list's text extends the earlier items' text with the k-th item's text; in an ordered list its marker is `k+1.` |
| AstPrint.SpacedWords | crates/mdfmt-core/src/ast/printer.rs:75-93 | pieces that neither start with a separator nor end with a break are joined by single spaces |
| AstPrint.SpacedLength | crates/mdfmt-core/src/ast/printer.rs:82-91 | gluing drops no character and adds at most one space between two pieces |
| AstPrint.TrimEachSpaces | crates/mdfmt-core/src/ast/printer.rs:81 | each piece of a paragraph is stripped of the spaces around it, in place and in order |
| AstPrint.ParagraphStep | crates/mdfmt-core/src/ast/printer.rs:82-90 | one loop step adds a space exactly under the source's four conditions |
| AstPrint.TableShape | crates/mdfmt-core/src/ast/printer.rs:122-150 | a table has one printed row per row child, plus the alignment row, which comes right after the first child's row |
| AstPrint.AstPrinter.constructor | crates/mdfmt-core/src/ast/printer.rs:20-23 | a new printer is at depth 0 with no item number |
| AstPrint.AstPrinter.Print | crates/mdfmt-core/src/ast/printer.rs:19-25 | the printer's result is the specified printed tree |
| AstPrint.AstPrinter.PrintRoot | crates/mdfmt-core/src/ast/printer.rs:27-176 | `print_root` gives the specified result and restores `depth` and `order`, whether it fails or not |
| AstPrint.AstPrinter.PrintParent | crates/mdfmt-core/src/ast/printer.rs:30-121 | the same for a parent node other than a list or a table |
| AstPrint.AstPrinter.PrintAll | crates/mdfmt-core/src/ast/printer.rs:178-184 | `map_children`'s loop gives the specified texts and restores the fields |
| AstPrint.AstPrinter.PrintList | crates/mdfmt-core/src/ast/printer.rs:35-48 | the item loop raises the depth, numbers items in an ordered list, and puts both fields back |
| AstPrint.AstPrinter.PrintParagraph | crates/mdfmt-core/src/ast/printer.rs:75-93 | the paragraph loop gives the specified glued text |
| AstPrint.AstPrinter.PrintTable | crates/mdfmt-core/src/ast/printer.rs:122-150 | the row loop gives the specified table text |
| NoteParser.PrintTrees | crates/mdfmt-core/src/note/parser.rs:122-124 | printing nodes gives one text per node |
| NoteParser.PrintTreesEach | crates/mdfmt-core/src/note/parser.rs:122-124 | printing nodes fails exactly when one of them fails; otherwise each text is that node printed |
| NoteParser.ParseHeading | crates/mdfmt-core/src/note/parser.rs:190-198 | a heading's title is its children printed one by one and joined by single spaces, or the first printing error |
| NoteParser.CardParagraphIff | crates/mdfmt-core/src/note/parser.rs:174-188 | a paragraph is a card exactly when its first line is a kind marker; the rest of its lines are the card text |
| NoteParser.MarkerShape | crates/mdfmt-core/src/note/parser.rs:174-188 | a kind marker is one line ending in `]`, the same as the printed kind line of an untitled card of that kind |
| NoteParser.MarkerInjective | crates/mdfmt-core/src/note/parser.rs:174-188 | distinct kinds have distinct markers |
| NoteParser.MarkerRoundTrip | crates/mdfmt-core/src/note/parser.rs:174-188 | text opening with a printed kind line reads back as a card of that kind |
| NoteParser.NotCard | crates/mdfmt-core/src/note/parser.rs:174-188 | one line that is no marker is not a card |
| NoteParser.NotCards | crates/mdfmt-core/src/note/parser.rs:174-188 | `[!todo]` and `[!Note]` are not card markers here |
| NoteParser.ParseCard | crates/mdfmt-core/src/note/parser.rs:139-169 | a card comes only from a paragraph opening with text; what remains is that paragraph with its first text replaced |
| NoteParser.OutlineQuote | crates/mdfmt-core/src/note/parser.rs:126-134 | a `toc` quote becomes an outline block of the flattened outline of the printed lines |
| NoteParser.QuotePrintable | crates/mdfmt-core/src/note/parser.rs:108-137 | every block read from a quote can be printed again |
| NoteParser.MetadataAt | crates/mdfmt-core/src/note/parser.rs:40-49 | front matter is read exactly when the first node is YAML; it is kept raw exactly when decoding fails |
| NoteParser.RawFrontMatterKept | crates/mdfmt-core/src/note/parser.rs:40-49 | undecodable front matter is kept and written back as it was |
| NoteParser.ParsedNote | crates/mdfmt-core/src/note/parser.rs:21-38 | a node other than a root is invalid; a parsed note has metadata exactly when the root opens with YAML |
| NoteParser.BlockRunStops | crates/mdfmt-core/src/note/parser.rs:75-87 | the block walk stops at the end or at a heading no deeper than its threshold, and every heading it passes is deeper |
| NoteParser.HeadStopsAtTop | crates/mdfmt-core/src/note/parser.rs:51-53 | the head stops where a depth-1 heading or the end is |
| NoteParser.NothingIgnored | crates/mdfmt-core/src/note/parser.rs:55-73 | from the top, the body loop skips no node |
| NoteParser.SectionCount | crates/mdfmt-core/src/note/parser.rs:55-73 | the body has exactly one section per depth-1 heading |
| NoteParser.ParsedNotePrintable | crates/mdfmt-core/src/note/parser.rs:21-38 | every block of a parsed note can be printed again |
| NoteParser.BlockRunReads | crates/mdfmt-core/src/note/parser.rs:75-106 | a walk fails only where reading a node fails, and succeeds only if every node it passes reads |
| NoteParser.SectionRunReads | crates/mdfmt-core/src/note/parser.rs:55-73 | the same for the body loop |
| NoteParser.ParseFailsIff | crates/mdfmt-core/src/note/parser.rs:21-106 | parsing a root fails exactly when reading some node after the front matter fails |
| NoteParser.ParseFailsExactly | crates/mdfmt-core/src/note/parser.rs:21-137 | parsing a root fails exactly when some node holds an unsupported node |
| NoteParser.OneBlockNote | crates/mdfmt-core/src/note/parser.rs:21-38 | a root with one non-heading node is a note whose head is that block |
| NoteParser.HeadingsNote | crates/mdfmt-core/src/note/parser.rs:278-292 | a depth-2 heading goes to the head; a depth-1 heading opens a body section holding what follows |
| NoteParser.HeadOnlyNote | crates/mdfmt-core/src/note/parser.rs:51-53 | nodes without headings all go to the head, in order |
| NoteParser.TextBlock | crates/mdfmt-core/src/note/parser.rs:97-101 | a text node reads as a text block of its trimmed value |
| NoteParser.TextTitle | crates/mdfmt-core/src/note/parser.rs:190-198 | a heading of one text has that text, trimmed, as its title |
| NoteParser.TextToNote | crates/mdfmt-core/src/note/parser.rs:208-221 | unit tests `text_to_invalid` and `text_to_note` |
| NoteParser.HeadingsToNote | crates/mdfmt-core/src/note/parser.rs:278-292 | unit test `heading_2_1_to_note`, for any texts |
| NoteParser.HeadingNestsNote | crates/mdfmt-core/src/note/parser.rs:75-106 | a depth-2 heading after a depth-1 heading is a section inside it |
| NoteParser.HeadingOneTwoToNote | crates/mdfmt-core/src/note/parser.rs:241-255 | unit test `heading_1_2_to_note`, for any texts |
| NoteParser.PlainQuoteReadsAsCard | crates/mdfmt-core/src/note/parser.rs:113-116 | a quote without a marker reads as a `note` card of its text |
| NoteParser.MarkedParagraph | crates/mdfmt-core/src/note/parser.rs:174-188 | a marker line followed by text reads as that kind with that text |
| NoteParser.MarkedQuoteReadsAsCard | crates/mdfmt-core/src/note/parser.rs:108-137 | a quote with a marker other than `toc` reads as a card of that kind |
| NoteParser.TocQuoteReadsAsOutline | crates/mdfmt-core/src/note/parser.rs:126-134 | a `toc` quote with one bullet reads as a one-entry outline |
| NoteParser.BlockQuoteParagraphToNote | crates/mdfmt-core/src/note/parser.rs:294-319 | unit test `block_quote_paragraph_to_note`, for any one-line text |
| NoteParser.Cursor.constructor | crates/mdfmt-core/src/note/parser.rs:21-24 | the iterator starts at the first node |
| NoteParser.ParseMetadata | crates/mdfmt-core/src/note/parser.rs:40-49 | `parse_metadata` consumes the YAML node if there is one, and gives the specified front matter |
| NoteParser.ParseBlock | crates/mdfmt-core/src/note/parser.rs:75-106 | `parse_block` gives the specified blocks and leaves the iterator where the walk stops, or gives the walk's error |
| NoteParser.ParseEntry | crates/mdfmt-core/src/note/parser.rs:88-104 | one step of `parse_block` reads one block and advances past it |
| NoteParser.ParseTopSection | crates/mdfmt-core/src/note/parser.rs:59-64 | one depth-1 heading gives one section and advances past its blocks |
| NoteParser.ParseBodyStep | crates/mdfmt-core/src/note/parser.rs:58-69 | one turn of the loop reads one section at a depth-1 heading or skips one other node, always advancing, and agrees with the specified section walk |
| NoteParser.ParseBody | crates/mdfmt-core/src/note/parser.rs:55-73 | `parse_body` gives the specified sections and, on success, consumes every node |
| NoteParser.Parse | crates/mdfmt-core/src/note/parser.rs:16-38 | `NoteParser::parse` gives the specified note or error |
| NotePrinter.YamlChunks | crates/mdfmt-core/src/note/printer.rs:58-63 | no front matter adds no chunk; front matter fails exactly when writing it fails |
| NotePrinter.FromBlock | crates/mdfmt-core/src/note/printer.rs:72-134 | `from_block` pushes exactly the block's chunks at the given depth |
| NotePrinter.FromSection | crates/mdfmt-core/src/note/printer.rs:83-89 | a section pushes its heading, then its children one level deeper |
| NotePrinter.FromCard | crates/mdfmt-core/src/note/printer.rs:91-110 | a card pushes one quoted chunk built in a sub-printer |
| NotePrinter.FromChildren | crates/mdfmt-core/src/note/printer.rs:76-81 | the child loop pushes every child's chunks in order |
| NotePrinter.FromYaml | crates/mdfmt-core/src/note/printer.rs:58-63 | `from_yaml` fails exactly when the front matter cannot be written; otherwise it pushes the fenced front matter |
| NotePrinter.FromBody | crates/mdfmt-core/src/note/printer.rs:65-70 | the body's blocks are pushed in order at depth 1 |
| NotePrinter.Print | crates/mdfmt-core/src/note/printer.rs:48-56 | `NotePrinter::print` gives the specified text |
| NotePrinter.PrintedText | crates/mdfmt-core/src/note/printer.rs:48-56 | the printed note is the front matter's and the body's chunks, printed, plus one line break |
| NotePrinter.PrintedTrimmed | crates/mdfmt-core/src/note/printer.rs:43-54 | the second `trim` in `print` changes nothing |
| NotePrinter.PrintedNoteShape | crates/mdfmt-core/src/note/printer.rs:54 | a printed note ends with exactly one line break after visible text, and starts with visible text |
| NotePrinter.PrintFailsOnlyOnFrontMatter | crates/mdfmt-core/src/note/printer.rs:48-63 | printing fails exactly when decoded front matter cannot be encoded |
| NotePrinter.FrontMatterFirst | crates/mdfmt-core/src/note/printer.rs:58-63 | front matter opens the printed note, fenced by `---` lines and followed by a line break |
| NotePrinter.NoFrontMatterPrintsBody | crates/mdfmt-core/src/note/printer.rs:48-56 | without front matter the note prints its body alone |
| NotePrinter.SingleTextPrints | crates/mdfmt-core/src/note/printer.rs:187-197 | unit test `convert_head_text`, for any visible text |
| NotePrinter.HeadHeadingPrints | crates/mdfmt-core/src/note/printer.rs:198-215 | unit test `convert_head_heading`: a section inside an anonymous section prints one level deeper |
| NotePrinter.SectionPrints | crates/mdfmt-core/src/note/printer.rs:216-230 | unit test `convert_body_heading`, for any title and text |
| NotePrinter.EmptySectionPrints | crates/mdfmt-core/src/note/printer.rs:231-241 | unit test `convert_body_text`: a section without children prints as its heading |
| NotePrinter.BareCardPrints | crates/mdfmt-core/src/note/printer.rs:91-110 | an empty untitled card prints as its quoted kind line |
| NotePrinter.CardsPrint | crates/mdfmt-core/src/note/printer.rs:91-110 | a run of bare cards prints as their quoted kind lines separated by blank lines |
| NotePrinter.ConvertCard | crates/mdfmt-core/src/note/printer.rs:242-271 | unit test `convert_card` |
| NotePrinter.TocPrints | crates/mdfmt-core/src/note/printer.rs:122-132 | an outline block prints as `> [!toc]` followed by its quoted, indented entries |
| NotePrinter.ConvertToc | crates/mdfmt-core/src/note/printer.rs:163-186 | unit test `convert_toc`, after normalisation moves the bookmark's outline into the body |
| NotePrinter.TwoEntriesText | crates/mdfmt-core/src/note/printer.rs:122-132 | an entry and its sub-entry print four spaces apart |
| Text.TrimStartRemovesWhitespace | crates/mdfmt-core/src/chunk/printer.rs:32 | `trim_start` removes only white space, using the Unicode White_Space property |
| Text.TrimEndRemovesWhitespace | crates/mdfmt-core/src/chunk/printer.rs:32 | `trim_end` removes only white space, using the Unicode White_Space property |

## Left out

- The markdown parser itself (`markdown::to_mdast`, called from `lib.rs`) is not modelled. The syntax tree is an input. Source positions and node kinds the printer does not know are modelled as `Other`.
- YAML decoding and encoding (`Meta::from_str`, `Meta::to_md`, `fix_indent`, serde) and the JSON serialisation inside `Item::to_json` (`serde_json::to_string`) are function parameters, not models. `Item::new`'s file name is taken as given rather than computed from the path.
- The error text of an unsupported node is the kind name plus " not supported syntax". The source prints the node's `Debug` form instead. Other errors carry only a short text such as "invalid".
- AstPrint.AstPrinter.PrintRoot: `depth` is a `nat`. The source's `u8` (ast/printer.rs:14) would overflow past 255 nested lists. The same holds for the `u8` heading depth in `VisitorContext` (note.rs:32) and `from_block` (note/printer.rs:72).
- NoteParser.TreePrint: a list item outside a list is an error value here. The source computes `self.depth - 1` at ast/printer.rs:65, which underflows at depth 0 (a panic in debug builds, a wrap-around to 255 in release, printing 1020 spaces of indentation). The printer's own members require the `ItemsNested` property that the markdown parser guarantees.
- Blocks.TocLine: requires entry depth >= 1. `indent - 1` on `usize` (block.rs:125, note/printer.rs:126) underflows at 0. `Toc::flatten_ref` never produces a depth of 0 (`Toc.FlattenRefIsOutline`).
- Visitor.VisitorContext.Descend: `dive`'s early return on a failing closure (note.rs:55) is not modelled. `Block::visit` cannot fail, so `Visit` returns no `Result`. `dive` is split into `Descend` and `Ascend` around the loop.
- `Toc::parse` never fails in the source, so `Toc.Parse` returns the nodes directly. `parse_lines` and `flatten_ref` are modelled from their callers and tests.
- Patches: `diff_main` is an input, the list of diff entries. Obsidian's `editor.replaceRange`, which `FormatAllCommand.run` calls once per patch in order, is modelled by `ApplyPatch`/`ApplyPatches`. Strings are sequences of Unicode scalar values, not UTF-16 code units, so columns differ from the editor's for characters outside the Basic Multilingual Plane. `FormatAllCommand`'s reading of the editor and its call to `format` are not modelled, nor is `FormatSelectionCommand`.
- Loop bodies are separate methods so that each proof stays small (`NoteParser.ParseEntry`, `NoteParser.ParseTopSection`, `NoteParser.ParseBodyStep`, `NotePrinter.FromSection`, `NotePrinter.FromCard`, `NotePrinter.FromChildren`).
- Debug printers (`debug_print`, `ast/debug_printer.rs`, `note/pretty.rs`), the CLI (`main.rs`, `cli/config.rs`), file I/O, the WebAssembly bindings and the older `src/` tree (apart from `src/note/toc.rs`) are not part of this model. `index/printer.rs`, an older copy of the index printer, is not part of it either.
