/** The note parser: it reads a markdown syntax tree into front matter, head
    blocks and top-level sections (crates/mdfmt-core/src/note/parser.rs).

    The parser walks the root's children with one shared cursor. The pure
    specification below describes each walk by the position it starts at
    and the position where it stops; the methods at the end advance a
    `Cursor` in loops and are proved against it. Every node the parser
    prints goes through one printer, `AstPrinter::print` (`TreePrint`);
    the walks take the printer as a parameter, so what they do with the
    nodes is proved once, apart from how a node prints. */
module NoteParser {
  import opened Wrappers
  import Str = Text
  import Toc
  import opened Mdast
  import AstPrint
  import Blocks
  import ModelKinds
  import opened NoteMetadata
  import NoteModel

  /** How a node is printed. */
  type Printer = Node -> Result<string>

  /** Nodes the syntax-tree printer accepts at the top: list items only
      inside lists. */
  predicate Nested(cs: seq<Node>) {
    forall k :: 0 <= k < |cs| ==> ItemsNested(cs[k], 0)
  }

  /** `AstPrinter::print` as the parser calls it. The printer demands that
      list items sit inside lists; `TreePrint` refuses any other tree with
      an error, so the parser demands nothing of its input. */
  function TreePrint(n: Node): Result<string> {
    if ItemsNested(n, 0) then AstPrint.PrintedTree(n) else Err("list item outside a list")
  }

  // ---------------------------------------------------------------------
  // Printing nodes

  /** Every node printed, stopping at the first error. */
  function PrintTrees(ns: seq<Node>, printer: Printer): (r: Result<seq<string>>)
    ensures r.Ok? ==> |r.value| == |ns|
  {
    if ns == [] then Ok([])
    else
      var init :- PrintTrees(ns[..|ns| - 1], printer);
      var v :- printer(ns[|ns| - 1]);
      Ok(init + [v])
  }

  /** Printing a list fails exactly when one of its nodes fails to print,
      and otherwise holds each node's print in place. */
  lemma {:induction false} PrintTreesEach(ns: seq<Node>, printer: Printer)
    ensures PrintTrees(ns, printer).Err? <==> exists k :: 0 <= k < |ns| && printer(ns[k]).Err?
    ensures PrintTrees(ns, printer).Ok? ==>
      forall k :: 0 <= k < |ns| ==> PrintTrees(ns, printer).value[k] == printer(ns[k]).value
  {
    if ns != [] {
      var init := ns[..|ns| - 1];
      PrintTreesEach(init, printer);
      assert forall k :: 0 <= k < |init| ==> init[k] == ns[k];
    }
  }

  /** A failure while printing a prefix is the failure of the whole. */
  lemma {:induction false} PrintTreesPrefixErr(ns: seq<Node>, k: nat, printer: Printer)
    requires k <= |ns| && PrintTrees(ns[..k], printer).Err?
    ensures PrintTrees(ns, printer) == PrintTrees(ns[..k], printer)
    decreases |ns| - k
  {
    if k < |ns| {
      assert ns[..k + 1][..k] == ns[..k];
      PrintTreesPrefixErr(ns, k + 1, printer);
    } else {
      assert ns[..k] == ns;
    }
  }

  /** The title `parse_heading` reads: the printed children joined by one
      space. */
  function HeadingTitle(children: seq<Node>, printer: Printer): Result<string> {
    var ts :- PrintTrees(children, printer);
    Ok(Str.Join(ts, " "))
  }

  /** `parse_heading`: prints the children one by one and stops at the
      first that fails. */
  method ParseHeading(children: seq<Node>, printer: Printer) returns (r: Result<string>)
    ensures r == HeadingTitle(children, printer)
  {
    var res: seq<string> := [];
    var k := 0;
    while k < |children|
      invariant k <= |children| && PrintTrees(children[..k], printer) == Ok(res)
    {
      var s := printer(children[k]);
      assert children[..k + 1][..k] == children[..k];
      if s.Err? {
        PrintTreesPrefixErr(children, k + 1, printer);
        return Err(s.error);
      }
      res := res + [s.value];
      k := k + 1;
    }
    assert children[..k] == children;
    return Ok(Str.Join(res, " "));
  }

  /** A node that is neither a heading nor a block quote: a footnote
      definition becomes a single block, anything else a text block, each
      holding the trimmed print. */
  function LeafBlock(n: Node, printer: Printer): Result<Blocks.Block> {
    var s :- printer(n);
    if n.FootnoteDefinition? then Ok(Blocks.Block.Single(Str.Trim(s)))
    else Ok(Blocks.Block.Text(Str.Trim(s)))
  }

  // ---------------------------------------------------------------------
  // Block quotes and cards

  /** The marker line of a card of kind `k`. */
  function Marker(k: ModelKinds.NoteKind): string {
    "[!" + ModelKinds.Name(k) + "]"
  }

  /** `parse_card_paragraph`: the kind named by a first line that is
      exactly a marker, and the remaining lines joined again. */
  function ParseCardParagraph(value: string): Option<(ModelKinds.NoteKind, string)> {
    var ls := Str.Lines(value);
    if ls == [] then None
    else
      var rest := Str.Join(ls[1..], "\n");
      if ls[0] == "[!note]" then Some((ModelKinds.Note, rest))
      else if ls[0] == "[!question]" then Some((ModelKinds.Question, rest))
      else if ls[0] == "[!quote]" then Some((ModelKinds.Quote, rest))
      else if ls[0] == "[!summary]" then Some((ModelKinds.Summary, rest))
      else if ls[0] == "[!toc]" then Some((ModelKinds.Toc, rest))
      else None
  }

  /** A paragraph is a card exactly when its first line is one of the five
      markers, written as the kind's name in lower case; the rest of the
      paragraph is its other lines. */
  lemma CardParagraphIff(value: string)
    ensures ParseCardParagraph(value).Some? <==>
      Str.Lines(value) != [] && exists k :: Str.Lines(value)[0] == Marker(k)
    ensures ParseCardParagraph(value).Some? ==>
      Str.Lines(value)[0] == Marker(ParseCardParagraph(value).value.0)
      && ParseCardParagraph(value).value.1 == Str.Join(Str.Lines(value)[1..], "\n")
  {
    var ls := Str.Lines(value);
    assert Marker(ModelKinds.Note) == "[!note]";
    assert Marker(ModelKinds.Question) == "[!question]";
    assert Marker(ModelKinds.Quote) == "[!quote]";
    assert Marker(ModelKinds.Summary) == "[!summary]";
    assert Marker(ModelKinds.Toc) == "[!toc]";
    if ls != [] && exists k :: ls[0] == Marker(k) {
      var k :| ls[0] == Marker(k);
      assert ParseCardParagraph(value).Some? by {
        match k
        case Note =>
        case Question =>
        case Quote =>
        case Summary =>
        case Toc =>
      }
    }
  }

  /** A marker is one line, ends in `]`, and is the first line the note
      printer writes for an untitled card of that kind. */
  lemma MarkerShape(k: ModelKinds.NoteKind, children: seq<Blocks.Block>)
    ensures Marker(k) != [] && '\n' !in Marker(k) && Marker(k)[|Marker(k)| - 1] == ']'
    ensures Marker(k) == Blocks.KindLine(Blocks.Card.Card(NoteModel.CardKind(k), None, children))
  {
    match k
    case Note => assert Marker(k) == "[!note]";
    case Question => assert Marker(k) == "[!question]";
    case Quote => assert Marker(k) == "[!quote]";
    case Summary => assert Marker(k) == "[!summary]";
    case Toc => assert Marker(k) == "[!toc]";
  }

  /** Different kinds have different markers (their names differ in
      length). */
  lemma MarkerInjective(a: ModelKinds.NoteKind, b: ModelKinds.NoteKind)
    requires Marker(a) == Marker(b)
    ensures a == b
  {
    assert |ModelKinds.Name(a)| == |ModelKinds.Name(b)|;
  }

  /** The line a card of the note printer starts with, `[!kind]` for a
      card with no title, is read back as a card of that kind, whatever
      lines follow it. */
  lemma MarkerRoundTrip(k: ModelKinds.NoteKind, w: string, children: seq<Blocks.Block>)
    requires |w| >= |Marker(k)| && w[..|Marker(k)|] == Marker(k)
    requires |w| == |Marker(k)| || w[|Marker(k)|] == '\n'
    ensures Marker(k) == Blocks.KindLine(Blocks.Card.Card(NoteModel.CardKind(k), None, children))
    ensures ParseCardParagraph(w) == Some((k, Str.Join(Str.Lines(w)[1..], "\n")))
  {
    MarkerShape(k, children);
    Str.LinesFirst(Marker(k), w);
    CardParagraphIff(w);
    MarkerInjective(k, ParseCardParagraph(w).value.0);
  }

  /** A one-line paragraph that is no marker starts a plain quote. */
  lemma NotCard(x: string)
    requires x != [] && '\n' !in x && x[|x| - 1] != '\r'
    requires forall k :: Marker(k) != x
    ensures ParseCardParagraph(x) == None
  {
    Str.LinesFirst(x, x);
    CardParagraphIff(x);
  }

  /** A kind the markdown-side note does not have, and a marker in other
      case, start plain quotes. */
  lemma NotCards()
    ensures ParseCardParagraph("[!todo]") == None
    ensures ParseCardParagraph("[!Note]") == None
  {
    forall k ensures Marker(k) != "[!todo]" && Marker(k) != "[!Note]" {
      MarkerShape(k, []);
      if |Marker(k)| == 7 {
        assert k == ModelKinds.Note;
        assert Marker(k)[2] == 'n';
      }
    }
    NotCard("[!todo]");
    NotCard("[!Note]");
  }

  /** `parse_card`: a paragraph starting with a text whose first line is a
      marker gives the kind and the paragraph without the marker line,
      unless nothing is left of it. */
  function ParseCard(node: Node): (r: Option<(ModelKinds.NoteKind, Option<Node>)>)
    ensures r.Some? ==> node.Paragraph? && node.children != [] && node.children[0].Text?
    ensures r.Some? && r.value.1.None? ==> |node.children| == 1
    ensures r.Some? && r.value.1.Some? ==>
      (var p := r.value.1.value;
       p.Paragraph? && p.children != [] && p.children[0].Text? && p.children[1..] == node.children[1..])
  {
    if node.Paragraph? && node.children != [] && node.children[0].Text? then
      match ParseCardParagraph(node.children[0].value)
      case Some((kind, s)) =>
        var rest := node.children[1..];
        Some((kind, if s == [] && rest == [] then None else Some(Paragraph([Text(s)] + rest))))
      case None => None
    else None
  }

  /** The outline lines of printed parts: each part split at line feeds. */
  function SplitAll(parts: seq<string>): seq<string> {
    if parts == [] then []
    else SplitAll(parts[..|parts| - 1]) + Str.Split(parts[|parts| - 1], '\n')
  }

  /** The kind of a non-empty quote and the nodes it prints: a card's
      paragraph without its marker line, or the whole first child of a
      plain quote, then the other children. */
  function QuoteParts(children: seq<Node>): (ModelKinds.NoteKind, seq<Node>)
    requires children != []
  {
    var card := ParseCard(children[0]);
    var kind := if card.Some? then card.value.0 else ModelKinds.Default;
    var node := if card.Some? then card.value.1 else Some(children[0]);
    if node.Some? then (kind, [node.value] + children[1..])
    else (kind, children[1..])
  }

  /** `parse_block_quote`: an empty quote is an empty block, an outline
      card becomes an outline block, and any other quote a card holding
      its printed parts separated by blank lines. */
  function ParseBlockQuote(children: seq<Node>, printer: Printer): Result<Blocks.Block> {
    if children == [] then Ok(Blocks.Block.Empty)
    else
      var (kind, parts) := QuoteParts(children);
      var lines :- PrintTrees(parts, printer);
      if kind == ModelKinds.Toc then
        Ok(Blocks.Block.Toc(Toc.FlattenRef(Toc.ParseLines(SplitAll(lines)))))
      else
        Ok(NoteModel.CardBlock(kind, [Blocks.Block.Text(Str.Join(lines, "\n\n"))]))
  }

  /** An outline card becomes an outline rooted at depth 1 holding every
      recognised line of its printed parts, in order. */
  lemma OutlineQuote(children: seq<Node>, printer: Printer)
    requires children != [] && QuoteParts(children).0 == ModelKinds.Toc
    requires ParseBlockQuote(children, printer).Ok?
    ensures var b := ParseBlockQuote(children, printer).value;
      var lines := SplitAll(PrintTrees(QuoteParts(children).1, printer).value);
      b.Toc?
      && Toc.OutlineFrom(b.entries, 1)
      && Toc.Labels(b.entries) == Toc.LineLabels(seq(|lines|, k requires 0 <= k < |lines| => Toc.Line.Parse(lines[k])))
  {
    var lines := SplitAll(PrintTrees(QuoteParts(children).1, printer).value);
    Toc.FlattenRefIsOutline(Toc.ParseLines(lines));
    Toc.ParseLinesKeepsEveryLine(lines);
  }

  /** Every block a quote gives can be printed: an outline's entries are
      indented at least once. */
  lemma QuotePrintable(children: seq<Node>, printer: Printer)
    requires ParseBlockQuote(children, printer).Ok?
    ensures Blocks.Printable(ParseBlockQuote(children, printer).value)
  {
    if children != [] {
      var (kind, parts) := QuoteParts(children);
      if kind == ModelKinds.Toc {
        OutlineQuote(children, printer);
      } else {
        var b := ParseBlockQuote(children, printer).value;
        assert Blocks.AllPrintable(b.card.children[1..]);
      }
    }
  }

  // ---------------------------------------------------------------------
  // What the parser reads at one node

  /** The part of `parse_block` that reads a node other than a heading:
      `parse_block_quote` on a block quote, the trimmed print otherwise. */
  function ReadBlock(n: Node, printer: Printer): Result<Blocks.Block> {
    if n.BlockQuote? then ParseBlockQuote(n.children, printer) else LeafBlock(n, printer)
  }

  /** How a walk reads a heading's title and any other node. The walks are
      stated for any readers, so that where they stop and what they keep
      is proved once; `ReadersOf` gives the parser's own. */
  datatype Readers = Readers(title: seq<Node> -> Result<string>, block: Node -> Result<Blocks.Block>)

  /** The parser's readers over printer `printer`. */
  function ReadersOf(printer: Printer): Readers {
    Readers(children => HeadingTitle(children, printer), n => ReadBlock(n, printer))
  }

  /** Every block the readers give can be printed again. */
  ghost predicate BlocksPrintable(rd: Readers) {
    forall n :: rd.block(n).Ok? ==> Blocks.Printable(rd.block(n).value)
  }

  /** The parser's readers give printable blocks only, whatever the
      printer: an outline's entries are indented at least once. */
  lemma ReadersPrintable(printer: Printer)
    ensures BlocksPrintable(ReadersOf(printer))
  {
    forall n | ReadersOf(printer).block(n).Ok?
      ensures Blocks.Printable(ReadersOf(printer).block(n).value)
    {
      if n.BlockQuote? {
        QuotePrintable(n.children, printer);
      }
    }
  }

  // ---------------------------------------------------------------------
  // The walk over the root's children

  /** Where a walk with threshold `min` stops: at the end, or at a heading
      no deeper than `min`, which it leaves for its caller. */
  predicate StopsAt(cs: seq<Node>, k: nat, min: nat) {
    k <= |cs| && (k == |cs| || (cs[k].Heading? && cs[k].depth <= min))
  }

  /** Every heading between `i` and `k` is deeper than `min`. */
  predicate DeeperBetween(cs: seq<Node>, i: nat, k: nat, min: nat) {
    forall p :: i <= p < k <= |cs| && cs[p].Heading? ==> cs[p].depth > min
  }

  /** `parse_block(min)` from position `i`: the position where it stops
      and the blocks read. A deeper heading opens a section whose children
      are read with that heading's depth as threshold. */
  function BlockRun(cs: seq<Node>, i: nat, min: nat, rd: Readers): (r: Result<(nat, seq<Blocks.Block>)>)
    requires i <= |cs|
    ensures r.Ok? ==> i <= r.value.0 <= |cs|
    decreases |cs| - i
  {
    if i == |cs| then Ok((i, []))
    else
      var n := cs[i];
      if n.Heading? && n.depth <= min then Ok((i, []))
      else if n.Heading? then
        var title :- rd.title(n.children);
        var sub :- BlockRun(cs, i + 1, n.depth, rd);
        var rest :- BlockRun(cs, sub.0, min, rd);
        Ok((rest.0, [Blocks.Block.Section(Blocks.Section.Section(title, sub.1))] + rest.1))
      else
        var b :- rd.block(n);
        var rest :- BlockRun(cs, i + 1, min, rd);
        Ok((rest.0, [b] + rest.1))
  }

  /** `parse_body` from position `i`: one section per depth-1 heading, with
      the blocks up to the next heading of depth 1 or less; any other node
      is skipped. */
  function SectionRun(cs: seq<Node>, i: nat, rd: Readers): Result<seq<Blocks.Section>>
    requires i <= |cs|
    decreases |cs| - i
  {
    if i == |cs| then Ok([])
    else if cs[i].Heading? && cs[i].depth == 1 then
      var title :- rd.title(cs[i].children);
      var sub :- BlockRun(cs, i + 1, 1, rd);
      var rest :- SectionRun(cs, sub.0, rd);
      Ok([Blocks.Section.Section(title, sub.1)] + rest)
    else SectionRun(cs, i + 1, rd)
  }

  /** `parse_metadata`: a leading front matter node is taken, decoded if it
      decodes and kept as raw text otherwise. Returns the position after
      it. */
  function MetadataAt(cs: seq<Node>, decode: string -> Result<Meta>): (r: (nat, Option<Metadata>))
    ensures r.0 <= |cs| && (r.0 == 1 <==> cs != [] && cs[0].Yaml?) && (r.0 == 0 <==> r.1.None?)
    ensures r.1.Some? ==> cs != [] && cs[0].Yaml? && (r.1.value.Raw? <==> decode(cs[0].value).Err?)
  {
    if cs != [] && cs[0].Yaml? then
      var md := MetadataFromStr(cs[0].value, decode);
      (1, Some(if md.Ok? then md.value else Metadata.Raw(cs[0].value)))
    else (0, None)
  }

  /** Front matter that does not decode is kept as written, and printed
      back as written. */
  lemma RawFrontMatterKept(cs: seq<Node>, decode: string -> Result<Meta>, encode: Meta -> Result<string>)
    requires cs != [] && cs[0].Yaml? && decode(cs[0].value).Err?
    ensures MetadataAt(cs, decode) == (1, Some(Metadata.Raw(cs[0].value)))
    ensures MetadataToMd(MetadataAt(cs, decode).1.value, encode) == Ok(cs[0].value + "\n")
  {
  }

  /** `NoteParser::parse` with readers `rd`: the front matter, the head
      read with threshold 1 and the sections. Anything but a root is
      refused. The parser itself reads with `ReadersOf(TreePrint)`. */
  function ParsedNote(root: Node, decode: string -> Result<Meta>, rd: Readers): (r: Result<NoteModel.Note>)
    ensures !root.Root? ==> r == Err("invalid")
    ensures r.Ok? ==> (r.value.metadata.Some? <==> root.children != [] && root.children[0].Yaml?)
  {
    if !root.Root? then Err("invalid")
    else
      var cs := root.children;
      var (i, metadata) := MetadataAt(cs, decode);
      var head :- BlockRun(cs, i, 1, rd);
      var body :- SectionRun(cs, head.0, rd);
      Ok(NoteModel.Note(metadata, head.1, body))
  }

  // ---------------------------------------------------------------------
  // Where the walks stop

  /** One heading step of `BlockRunStops`: the section's walk is deeper
      than the heading, the rest of the walk deeper than the threshold. */
  lemma DeeperAcrossSection(cs: seq<Node>, i: nat, s: nat, k: nat, min: nat)
    requires i < s <= k <= |cs| && cs[i].Heading? && cs[i].depth > min
    requires DeeperBetween(cs, i + 1, s, cs[i].depth) && DeeperBetween(cs, s, k, min)
    ensures DeeperBetween(cs, i, k, min)
  {
    forall p | i <= p < k <= |cs| && cs[p].Heading? ensures cs[p].depth > min {
      if i < p < s {
        assert cs[p].depth > cs[i].depth;
      }
    }
  }

  /** A walk stops at the end or at a heading no deeper than its
      threshold, and every heading it reads on the way is deeper than the
      threshold: a nested section always comes from a deeper heading. */
  lemma {:induction false} BlockRunStops(cs: seq<Node>, i: nat, min: nat, rd: Readers)
    requires i <= |cs| && BlockRun(cs, i, min, rd).Ok?
    ensures StopsAt(cs, BlockRun(cs, i, min, rd).value.0, min)
    ensures DeeperBetween(cs, i, BlockRun(cs, i, min, rd).value.0, min)
    decreases |cs| - i
  {
    if i < |cs| && !(cs[i].Heading? && cs[i].depth <= min) {
      if cs[i].Heading? {
        var s := BlockRun(cs, i + 1, cs[i].depth, rd).value.0;
        BlockRunStops(cs, i + 1, cs[i].depth, rd);
        BlockRunStops(cs, s, min, rd);
        DeeperAcrossSection(cs, i, s, BlockRun(cs, i, min, rd).value.0, min);
      } else {
        BlockRunStops(cs, i + 1, min, rd);
      }
    }
  }

  /** Every heading has depth at least 1, as in parsed markdown. */
  predicate PositiveDepths(cs: seq<Node>) {
    forall k :: 0 <= k < |cs| && cs[k].Heading? ==> cs[k].depth >= 1
  }

  /** A position where `parse_body` may take over: the end or a depth-1
      heading. */
  predicate AtTop(cs: seq<Node>, i: nat) {
    i <= |cs| && (i == |cs| || (cs[i].Heading? && cs[i].depth == 1))
  }

  /** The head walk (threshold 1) stops where `parse_body` takes over. */
  lemma HeadStopsAtTop(cs: seq<Node>, i: nat, rd: Readers)
    requires i <= |cs| && PositiveDepths(cs) && BlockRun(cs, i, 1, rd).Ok?
    ensures AtTop(cs, BlockRun(cs, i, 1, rd).value.0)
    ensures DeeperBetween(cs, i, BlockRun(cs, i, 1, rd).value.0, 1)
  {
    BlockRunStops(cs, i, 1, rd);
  }

  /** The positions `parse_body` passes over without reading them (empty
      when it fails). */
  ghost function Ignored(cs: seq<Node>, i: nat, rd: Readers): seq<nat>
    requires i <= |cs|
    decreases |cs| - i
  {
    if i == |cs| then []
    else if cs[i].Heading? && cs[i].depth == 1 then
      match BlockRun(cs, i + 1, 1, rd)
      case Ok(sub) => Ignored(cs, sub.0, rd)
      case Err(_) => []
    else [i] + Ignored(cs, i + 1, rd)
  }

  /** With every heading at depth 1 or more, `parse_body` started where the
      head walk stopped never passes over a node. */
  lemma {:induction false} NothingIgnored(cs: seq<Node>, i: nat, rd: Readers)
    requires PositiveDepths(cs) && AtTop(cs, i)
    ensures Ignored(cs, i, rd) == []
    decreases |cs| - i
  {
    if i < |cs| && BlockRun(cs, i + 1, 1, rd).Ok? {
      HeadStopsAtTop(cs, i + 1, rd);
      NothingIgnored(cs, BlockRun(cs, i + 1, 1, rd).value.0, rd);
    }
  }

  /** The number of depth-1 headings from position `i` on. */
  function TopHeadings(cs: seq<Node>, i: nat): nat
    requires i <= |cs|
    decreases |cs| - i
  {
    if i == |cs| then 0
    else (if cs[i].Heading? && cs[i].depth == 1 then 1 else 0) + TopHeadings(cs, i + 1)
  }

  lemma {:induction false} TopHeadingsSkip(cs: seq<Node>, i: nat, k: nat)
    requires i <= k <= |cs| && DeeperBetween(cs, i, k, 1)
    ensures TopHeadings(cs, i) == TopHeadings(cs, k)
    decreases k - i
  {
    if i < k {
      TopHeadingsSkip(cs, i + 1, k);
    }
  }

  /** `parse_body` makes exactly one section per depth-1 heading. */
  lemma {:induction false} SectionCount(cs: seq<Node>, i: nat, rd: Readers)
    requires i <= |cs| && SectionRun(cs, i, rd).Ok?
    ensures |SectionRun(cs, i, rd).value| == TopHeadings(cs, i)
    decreases |cs| - i
  {
    if i < |cs| {
      if cs[i].Heading? && cs[i].depth == 1 {
        var k := BlockRun(cs, i + 1, 1, rd).value.0;
        BlockRunStops(cs, i + 1, 1, rd);
        TopHeadingsSkip(cs, i + 1, k);
        SectionCount(cs, k, rd);
      } else {
        SectionCount(cs, i + 1, rd);
      }
    }
  }

  // ---------------------------------------------------------------------
  // What the walks produce

  /** Every block a walk reads can be printed again, when every block its
      readers give can. */
  lemma {:induction false} BlockRunPrintable(cs: seq<Node>, i: nat, min: nat, rd: Readers)
    requires i <= |cs| && BlocksPrintable(rd) && BlockRun(cs, i, min, rd).Ok?
    ensures Blocks.AllPrintable(BlockRun(cs, i, min, rd).value.1)
    decreases |cs| - i
  {
    var bs := BlockRun(cs, i, min, rd).value.1;
    if i < |cs| && !(cs[i].Heading? && cs[i].depth <= min) {
      if cs[i].Heading? {
        var sub := BlockRun(cs, i + 1, cs[i].depth, rd).value;
        BlockRunPrintable(cs, i + 1, cs[i].depth, rd);
        BlockRunPrintable(cs, sub.0, min, rd);
        assert bs[1..] == BlockRun(cs, sub.0, min, rd).value.1;
      } else {
        BlockRunPrintable(cs, i + 1, min, rd);
        assert bs[1..] == BlockRun(cs, i + 1, min, rd).value.1;
      }
    }
  }

  /** Every section `parse_body` reads can be printed again. */
  lemma {:induction false} SectionRunPrintable(cs: seq<Node>, i: nat, rd: Readers)
    requires i <= |cs| && BlocksPrintable(rd) && SectionRun(cs, i, rd).Ok?
    ensures forall k :: 0 <= k < |SectionRun(cs, i, rd).value| ==>
      Blocks.AllPrintable(SectionRun(cs, i, rd).value[k].children)
    decreases |cs| - i
  {
    if i < |cs| {
      if cs[i].Heading? && cs[i].depth == 1 {
        var sub := BlockRun(cs, i + 1, 1, rd).value;
        BlockRunPrintable(cs, i + 1, 1, rd);
        SectionRunPrintable(cs, sub.0, rd);
      } else {
        SectionRunPrintable(cs, i + 1, rd);
      }
    }
  }

  /** A note the parser reads can always be printed: its head and every
      section hold printable blocks only. */
  lemma ParsedNotePrintable(root: Node, decode: string -> Result<Meta>, printer: Printer)
    requires ParsedNote(root, decode, ReadersOf(printer)).Ok?
    ensures Blocks.AllPrintable(ParsedNote(root, decode, ReadersOf(printer)).value.head)
    ensures forall k :: 0 <= k < |ParsedNote(root, decode, ReadersOf(printer)).value.body| ==>
      Blocks.AllPrintable(ParsedNote(root, decode, ReadersOf(printer)).value.body[k].children)
  {
    var rd := ReadersOf(printer);
    var cs := root.children;
    var i := MetadataAt(cs, decode).0;
    ReadersPrintable(printer);
    BlockRunPrintable(cs, i, 1, rd);
    SectionRunPrintable(cs, BlockRun(cs, i, 1, rd).value.0, rd);
  }

  // ---------------------------------------------------------------------
  // When parsing fails

  /** Reading node `n` where a walk reads it fails. */
  predicate ReadFails(n: Node, rd: Readers) {
    if n.Heading? then rd.title(n.children).Err? else rd.block(n).Err?
  }

  /** A walk fails only where a node it reaches fails to read, and every
      node it reads on a successful walk reads. */
  lemma {:induction false} BlockRunReads(cs: seq<Node>, i: nat, min: nat, rd: Readers)
    requires i <= |cs|
    ensures BlockRun(cs, i, min, rd).Err? ==> exists k :: i <= k < |cs| && ReadFails(cs[k], rd)
    ensures BlockRun(cs, i, min, rd).Ok? ==>
      forall k :: i <= k < BlockRun(cs, i, min, rd).value.0 ==> !ReadFails(cs[k], rd)
    decreases |cs| - i
  {
    if i < |cs| && !(cs[i].Heading? && cs[i].depth <= min) {
      if cs[i].Heading? {
        if rd.title(cs[i].children).Ok? {
          BlockRunReads(cs, i + 1, cs[i].depth, rd);
          var sub := BlockRun(cs, i + 1, cs[i].depth, rd);
          if sub.Ok? {
            BlockRunReads(cs, sub.value.0, min, rd);
          }
        }
      } else {
        BlockRunReads(cs, i + 1, min, rd);
      }
    }
  }

  /** `parse_body` fails only where a node it reaches fails to read, and
      from a position where it takes over, with every heading at depth 1
      or more, a successful run has read every node. */
  lemma {:induction false} SectionRunReads(cs: seq<Node>, i: nat, rd: Readers)
    requires i <= |cs|
    ensures SectionRun(cs, i, rd).Err? ==> exists k :: i <= k < |cs| && ReadFails(cs[k], rd)
    ensures SectionRun(cs, i, rd).Ok? && PositiveDepths(cs) && AtTop(cs, i) ==>
      forall k :: i <= k < |cs| ==> !ReadFails(cs[k], rd)
    decreases |cs| - i
  {
    if i < |cs| {
      if cs[i].Heading? && cs[i].depth == 1 {
        if rd.title(cs[i].children).Ok? {
          BlockRunReads(cs, i + 1, 1, rd);
          var sub := BlockRun(cs, i + 1, 1, rd);
          if sub.Ok? {
            SectionRunReads(cs, sub.value.0, rd);
            if PositiveDepths(cs) {
              HeadStopsAtTop(cs, i + 1, rd);
            }
          }
        }
      } else {
        SectionRunReads(cs, i + 1, rd);
      }
    }
  }

  /** A root with headings at depth 1 or more parses exactly when every
      node after the front matter reads. */
  lemma ParseFailsIff(root: Node, decode: string -> Result<Meta>, rd: Readers)
    requires root.Root? && PositiveDepths(root.children)
    ensures ParsedNote(root, decode, rd).Err? <==>
      exists k :: MetadataAt(root.children, decode).0 <= k < |root.children| && ReadFails(root.children[k], rd)
  {
    var cs := root.children;
    var i := MetadataAt(cs, decode).0;
    BlockRunReads(cs, i, 1, rd);
    var head := BlockRun(cs, i, 1, rd);
    if head.Ok? {
      HeadStopsAtTop(cs, i, rd);
      SectionRunReads(cs, head.value.0, rd);
      if ParsedNote(root, decode, rd).Ok? {
        forall k | i <= k < |cs| ensures !ReadFails(cs[k], rd) {
          if k >= head.value.0 {
          }
        }
      }
    }
  }

  /** Two paragraphs that differ only in their leading text hold the same
      unsupported nodes. */
  lemma ParagraphsAlike(a: Node, b: Node)
    requires a.Paragraph? && b.Paragraph? && a.children != [] && b.children != []
    requires a.children[0].Text? && b.children[0].Text? && a.children[1..] == b.children[1..]
    ensures AstPrint.HasUnsupported(a) <==> AstPrint.HasUnsupported(b)
  {
    if AstPrint.HasUnsupported(a) {
      var i :| 0 <= i < |a.children| && AstPrint.HasUnsupported(a.children[i]);
      assert i > 0 && b.children[i] == a.children[1..][i - 1];
    }
    if AstPrint.HasUnsupported(b) {
      var i :| 0 <= i < |b.children| && AstPrint.HasUnsupported(b.children[i]);
      assert i > 0 && a.children[i] == b.children[1..][i - 1];
    }
  }

  lemma CardKeepsNesting(node: Node)
    requires ItemsNested(node, 0)
    ensures var c := ParseCard(node); c.Some? && c.value.1.Some? ==> ItemsNested(c.value.1.value, 0)
  {
    var c := ParseCard(node);
    if c.Some? && c.value.1.Some? {
      var p := c.value.1.value;
      forall i | 0 <= i < |p.children| ensures ItemsNested(p.children[i], 0) {
        if i > 0 {
          assert p.children[i] == node.children[1..][i - 1];
        }
      }
    }
  }

  /** Printing nested nodes fails exactly on one holding an unsupported
      node. */
  lemma PrintNestedFailsIff(ns: seq<Node>)
    requires Nested(ns)
    ensures PrintTrees(ns, TreePrint).Err? <==> exists k :: 0 <= k < |ns| && AstPrint.HasUnsupported(ns[k])
  {
    PrintTreesEach(ns, TreePrint);
    forall k | 0 <= k < |ns| ensures TreePrint(ns[k]).Err? <==> AstPrint.HasUnsupported(ns[k]) {
      AstPrint.PrintedTreeErrIff(ns[k]);
    }
  }

  /** Some node of `ns` holds a node kind the syntax-tree printer does not
      know. */
  predicate AnyUnsupported(ns: seq<Node>) {
    exists k :: 0 <= k < |ns| && AstPrint.HasUnsupported(ns[k])
  }

  /** Dropping or keeping a first node that holds nothing unsupported. */
  lemma UnsupportedTail(ns: seq<Node>, front: seq<Node>)
    requires ns != [] && !AstPrint.HasUnsupported(ns[0]) && |front| <= 1
    requires front != [] ==> !AstPrint.HasUnsupported(front[0])
    ensures AnyUnsupported(front + ns[1..]) <==> AnyUnsupported(ns)
  {
    var m := front + ns[1..];
    if AnyUnsupported(ns) {
      var k :| 0 <= k < |ns| && AstPrint.HasUnsupported(ns[k]);
      assert k > 0 && m[|front| + k - 1] == ns[k];
      assert AstPrint.HasUnsupported(m[|front| + k - 1]);
    }
    if AnyUnsupported(m) {
      var k :| 0 <= k < |m| && AstPrint.HasUnsupported(m[k]);
      assert k >= |front| && ns[k - |front| + 1] == m[k];
      assert AstPrint.HasUnsupported(ns[k - |front| + 1]);
    }
  }

  /** Replacing the first node by one with the same unsupported nodes. */
  lemma UnsupportedHead(ns: seq<Node>, a: Node)
    requires ns != [] && (AstPrint.HasUnsupported(a) <==> AstPrint.HasUnsupported(ns[0]))
    ensures AnyUnsupported([a] + ns[1..]) <==> AnyUnsupported(ns)
  {
    var m := [a] + ns[1..];
    assert m[0] == a;
    if AnyUnsupported(ns) {
      var k :| 0 <= k < |ns| && AstPrint.HasUnsupported(ns[k]);
      if k > 0 {
        assert m[k] == ns[k];
      }
      assert AstPrint.HasUnsupported(m[k]);
    }
    if AnyUnsupported(m) {
      var k :| 0 <= k < |m| && AstPrint.HasUnsupported(m[k]);
      if k > 0 {
        assert ns[k] == m[k];
      }
      assert AstPrint.HasUnsupported(ns[k]);
    }
  }

  /** A paragraph of one text holds nothing unsupported. */
  lemma LoneTextSupported(n: Node)
    requires n.Paragraph? && |n.children| == 1 && n.children[0].Text?
    ensures !AstPrint.HasUnsupported(n)
  {
    assert !AstPrint.HasUnsupported(n.children[0]);
  }

  /** A quote's parts hold an unsupported node exactly when its children
      do. */
  lemma QuotePartsAlike(children: seq<Node>)
    requires children != [] && Nested(children)
    ensures Nested(QuoteParts(children).1)
    ensures AnyUnsupported(QuoteParts(children).1) <==> AnyUnsupported(children)
  {
    var parts := QuoteParts(children).1;
    var card := ParseCard(children[0]);
    CardKeepsNesting(children[0]);
    if card.Some? && card.value.1.None? {
      LoneTextSupported(children[0]);
      assert parts == [] + children[1..];
      UnsupportedTail(children, []);
    } else if card.Some? {
      ParagraphsAlike(children[0], card.value.1.value);
      assert parts == [card.value.1.value] + children[1..];
      UnsupportedHead(children, card.value.1.value);
    } else {
      assert parts == children;
    }
  }

  /** With the syntax-tree printer, reading a node fails exactly when it
      holds a node kind the printer does not know. */
  lemma ReadFailsIff(n: Node)
    requires ItemsNested(n, 0)
    ensures ReadFails(n, ReadersOf(TreePrint)) <==> AstPrint.HasUnsupported(n)
  {
    if n.Heading? || n.BlockQuote? {
      assert Nested(n.children);
      if n.Heading? {
        PrintNestedFailsIff(n.children);
      } else if n.children != [] {
        QuotePartsAlike(n.children);
        PrintNestedFailsIff(QuoteParts(n.children).1);
      }
    } else {
      AstPrint.PrintedTreeErrIff(n);
    }
  }

  lemma ReadsFailIff(cs: seq<Node>)
    requires Nested(cs)
    ensures forall k :: 0 <= k < |cs| ==> (ReadFails(cs[k], ReadersOf(TreePrint)) <==> AstPrint.HasUnsupported(cs[k]))
  {
    forall k | 0 <= k < |cs| ensures ReadFails(cs[k], ReadersOf(TreePrint)) <==> AstPrint.HasUnsupported(cs[k]) {
      ReadFailsIff(cs[k]);
    }
  }

  /** Readers that fail exactly on unsupported nodes make the whole parse
      fail exactly on a root holding one. */
  lemma ParseFailsWhereUnsupported(root: Node, decode: string -> Result<Meta>, rd: Readers)
    requires root.Root? && PositiveDepths(root.children)
    requires forall k :: 0 <= k < |root.children| ==>
      (ReadFails(root.children[k], rd) <==> AstPrint.HasUnsupported(root.children[k]))
    ensures ParsedNote(root, decode, rd).Err? <==> AnyUnsupported(root.children)
  {
    var cs := root.children;
    ParseFailsIff(root, decode, rd);
    if cs != [] && cs[0].Yaml? {
      assert !AstPrint.HasUnsupported(cs[0]);
    }
  }

  /** `NoteParser::parse` fails on a root (with every heading at depth 1
      or more) exactly when one of its children holds a node kind the
      syntax-tree printer does not know. */
  lemma ParseFailsExactly(root: Node, decode: string -> Result<Meta>)
    requires root.Root? && Nested(root.children) && PositiveDepths(root.children)
    ensures ParsedNote(root, decode, ReadersOf(TreePrint)).Err? <==> AnyUnsupported(root.children)
  {
    ReadsFailIff(root.children);
    ParseFailsWhereUnsupported(root, decode, ReadersOf(TreePrint));
  }

  // ---------------------------------------------------------------------
  // Unit tests of crates/mdfmt-core/src/note/parser.rs

  /** A root holding one node that reads as block `b` is a note holding
      that block in its head. */
  lemma OneBlockNote(n: Node, b: Blocks.Block, decode: string -> Result<Meta>, rd: Readers)
    requires !n.Heading? && !n.Yaml? && rd.block(n) == Ok(b)
    ensures ParsedNote(Root([n]), decode, rd) == Ok(NoteModel.Note(None, [b], []))
  {
    assert BlockRun([n], 1, 1, rd) == Ok((1, []));
    assert [b] + [] == [b];
    assert BlockRun([n], 0, 1, rd) == Ok((1, [b]));
    assert SectionRun([n], 1, rd) == Ok([]);
  }

  /** A depth-2 heading before any depth-1 heading is a section of the
      head; a depth-1 heading opens a section of the body holding what
      follows it. */
  lemma HeadingsNote(a: Node, b: Node, c: Node, decode: string -> Result<Meta>, rd: Readers, ta: string, tb: string, bc: Blocks.Block)
    requires rd.title([a]) == Ok(ta) && rd.title([b]) == Ok(tb) && rd.block(c) == Ok(bc) && !c.Heading?
    ensures ParsedNote(Root([Heading(2, [a]), Heading(1, [b]), c]), decode, rd)
      == Ok(NoteModel.Note(None,
          [Blocks.Block.Section(Blocks.Section.Section(ta, []))],
          [Blocks.Section.Section(tb, [bc])]))
  {
    var cs := [Heading(2, [a]), Heading(1, [b]), c];
    var sa := Blocks.Block.Section(Blocks.Section.Section(ta, []));
    assert BlockRun(cs, 1, 2, rd) == Ok((1, []));
    assert BlockRun(cs, 1, 1, rd) == Ok((1, []));
    assert [sa] + [] == [sa];
    assert BlockRun(cs, 0, 1, rd) == Ok((1, [sa]));
    assert BlockRun(cs, 3, 1, rd) == Ok((3, []));
    assert [bc] + [] == [bc];
    assert BlockRun(cs, 2, 1, rd) == Ok((3, [bc]));
    assert SectionRun(cs, 3, rd) == Ok([]);
    assert [Blocks.Section.Section(tb, [bc])] + [] == [Blocks.Section.Section(tb, [bc])];
  }

  /** A text reads as a text block holding its trimmed value, which the
      parser's own trim keeps. */
  lemma TextBlock(v: string)
    ensures ReadersOf(TreePrint).block(Text(v)) == Ok(Blocks.Block.Text(Str.Trim(v)))
  {
    var t := Str.Trim(v);
    AstPrint.TextPrint(v);
    Str.TrimTrimmed(v);
    assert TreePrint(Text(v)) == Ok(t);
    assert LeafBlock(Text(v), TreePrint) == Ok(Blocks.Block.Text(Str.Trim(t)));
    ReadersBlock(TreePrint, Text(v));
  }

  /** A heading holding one text has that text, trimmed, as its title. */
  lemma TextTitle(v: string)
    ensures ReadersOf(TreePrint).title([Text(v)]) == Ok(Str.Trim(v))
  {
    var t := Str.Trim(v);
    AstPrint.TextPrint(v);
    assert TreePrint(Text(v)) == Ok(t);
    assert [Text(v)][..0] == [];
    assert PrintTrees([Text(v)], TreePrint) == Ok([] + [t]);
    assert HeadingTitle([Text(v)], TreePrint) == Ok(t);
  }

  /** `text_to_invalid` and `text_to_note`: a bare text is refused, and a
      root holding one text is a note with one text block. */
  lemma TextToNote(v: string, decode: string -> Result<Meta>)
    ensures ParsedNote(Text(v), decode, ReadersOf(TreePrint)) == Err("invalid")
    ensures ParsedNote(Root([Text(v)]), decode, ReadersOf(TreePrint))
      == Ok(NoteModel.Note(None, [Blocks.Block.Text(Str.Trim(v))], []))
  {
    TextBlock(v);
    OneBlockNote(Text(v), Blocks.Block.Text(Str.Trim(v)), decode, ReadersOf(TreePrint));
  }

  /** `heading_2_to_note`, `heading_1_to_note` and their mix, for any
      texts. */
  lemma HeadingsToNote(a: string, b: string, c: string, decode: string -> Result<Meta>)
    ensures ParsedNote(Root([Heading(2, [Text(a)]), Heading(1, [Text(b)]), Text(c)]), decode, ReadersOf(TreePrint))
      == Ok(NoteModel.Note(None,
          [Blocks.Block.Section(Blocks.Section.Section(Str.Trim(a), []))],
          [Blocks.Section.Section(Str.Trim(b), [Blocks.Block.Text(Str.Trim(c))])]))
  {
    TextTitle(a);
    TextTitle(b);
    TextBlock(c);
    HeadingsNote(Text(a), Text(b), Text(c), decode, ReadersOf(TreePrint), Str.Trim(a), Str.Trim(b), Blocks.Block.Text(Str.Trim(c)));
  }

  /** A depth-2 heading after a depth-1 heading is a section inside the
      depth-1 heading's section; the head stays empty. */
  lemma HeadingNestsNote(a: Node, b: Node, decode: string -> Result<Meta>, rd: Readers, ta: string, tb: string)
    requires rd.title([a]) == Ok(ta) && rd.title([b]) == Ok(tb)
    ensures ParsedNote(Root([Heading(1, [a]), Heading(2, [b])]), decode, rd)
      == Ok(NoteModel.Note(None, [],
          [Blocks.Section.Section(ta, [Blocks.Block.Section(Blocks.Section.Section(tb, []))])]))
  {
    var cs := [Heading(1, [a]), Heading(2, [b])];
    var sb := Blocks.Block.Section(Blocks.Section.Section(tb, []));
    assert BlockRun(cs, 0, 1, rd) == Ok((0, []));
    assert BlockRun(cs, 2, 2, rd) == Ok((2, []));
    assert BlockRun(cs, 2, 1, rd) == Ok((2, []));
    assert [sb] + [] == [sb];
    assert BlockRun(cs, 1, 1, rd) == Ok((2, [sb]));
    assert SectionRun(cs, 2, rd) == Ok([]);
    var sa := Blocks.Section.Section(ta, [sb]);
    assert [sa] + [] == [sa];
  }

  /** `heading_1_2_to_note`, for any texts. */
  lemma HeadingOneTwoToNote(a: string, b: string, decode: string -> Result<Meta>)
    ensures ParsedNote(Root([Heading(1, [Text(a)]), Heading(2, [Text(b)])]), decode, ReadersOf(TreePrint))
      == Ok(NoteModel.Note(None, [],
          [Blocks.Section.Section(Str.Trim(a), [Blocks.Block.Section(Blocks.Section.Section(Str.Trim(b), []))])]))
  {
    TextTitle(a);
    TextTitle(b);
    HeadingNestsNote(Text(a), Text(b), decode, ReadersOf(TreePrint), Str.Trim(a), Str.Trim(b));
  }

  /** A root of nodes that are neither headings nor front matter is a
      note whose head holds what each node reads as. */
  lemma HeadOnlyNote(ns: seq<Node>, bs: seq<Blocks.Block>, decode: string -> Result<Meta>, rd: Readers)
    requires |ns| == |bs| && (ns == [] || !ns[0].Yaml?)
    requires forall k :: 0 <= k < |ns| ==> !ns[k].Heading? && rd.block(ns[k]) == Ok(bs[k])
    ensures ParsedNote(Root(ns), decode, rd) == Ok(NoteModel.Note(None, bs, []))
  {
    HeadRun(ns, bs, 0, rd);
    assert bs[0..] == bs;
    assert SectionRun(ns, |ns|, rd) == Ok([]);
  }

  lemma {:induction false} HeadRun(ns: seq<Node>, bs: seq<Blocks.Block>, i: nat, rd: Readers)
    requires |ns| == |bs| && i <= |ns|
    requires forall k :: 0 <= k < |ns| ==> !ns[k].Heading? && rd.block(ns[k]) == Ok(bs[k])
    ensures BlockRun(ns, i, 1, rd) == Ok((|ns|, bs[i..]))
    decreases |ns| - i
  {
    if i < |ns| {
      HeadRun(ns, bs, i + 1, rd);
      assert bs[i..] == [bs[i]] + bs[i + 1..];
    }
  }

  /** A paragraph of one visible text prints as that text. */
  lemma PrintedParagraph(u: string)
    requires u != [] && !Str.IsWhitespace(u[0]) && !Str.IsWhitespace(u[|u| - 1])
    ensures PrintTrees([Paragraph([Text(u)])], TreePrint) == Ok([u])
  {
    var p := Paragraph([Text(u)]);
    AstPrint.ParagraphOfText(u);
    assert TreePrint(p) == Ok(u);
    assert [p][..0] == [];
    assert [] + [u] == [u];
  }

  /** A quote holding one paragraph of a visible text that is no marker is
      a card of the default kind holding that text. */
  lemma PlainQuoteReadsAsCard(v: string)
    requires v != [] && !Str.IsWhitespace(v[0]) && !Str.IsWhitespace(v[|v| - 1])
    requires ParseCardParagraph(v) == None
    ensures ReadBlock(BlockQuote([Paragraph([Text(v)])]), TreePrint)
      == Ok(NoteModel.CardBlock(ModelKinds.Default, [Blocks.Block.Text(v)]))
  {
    var p := Paragraph([Text(v)]);
    assert ParseCard(p) == None;
    assert [p] + [p][1..] == [p];
    assert QuoteParts([p]) == (ModelKinds.Default, [p]);
    PrintedParagraph(v);
    assert Str.Join([v], "\n\n") == v;
  }

  /** A paragraph whose first line is a marker and whose second line is
      `w` names the marker's kind and keeps `w`. */
  lemma MarkedParagraph(k: ModelKinds.NoteKind, w: string)
    requires w != [] && '\n' !in w && w[|w| - 1] != '\r'
    ensures ParseCardParagraph(Marker(k) + "\n" + w) == Some((k, w))
  {
    var m := Marker(k);
    var v := m + "\n" + w;
    MarkerShape(k, []);
    assert v[..|m|] == m && v[|m|] == '\n';
    MarkerRoundTrip(k, v, []);
    Str.LinesTwo(m, w);
    assert Str.Lines(v)[1..] == [w];
  }

  /** A quote holding one paragraph `[!kind]` / `w` is a card of that kind
      holding `w`. */
  lemma MarkedQuoteReadsAsCard(k: ModelKinds.NoteKind, w: string)
    requires k != ModelKinds.Toc
    requires w != [] && '\n' !in w && !Str.IsWhitespace(w[0]) && !Str.IsWhitespace(w[|w| - 1])
    ensures ReadBlock(BlockQuote([Paragraph([Text(Marker(k) + "\n" + w)])]), TreePrint)
      == Ok(NoteModel.CardBlock(k, [Blocks.Block.Text(w)]))
  {
    var p := Paragraph([Text(Marker(k) + "\n" + w)]);
    var q := Paragraph([Text(w)]);
    MarkedParagraph(k, w);
    assert [Text(w)] + p.children[1..] == [Text(w)];
    assert ParseCard(p) == Some((k, Some(q)));
    assert [q] + [p][1..] == [q];
    assert QuoteParts([p]) == (k, [q]);
    PrintedParagraph(w);
    assert Str.Join([w], "\n\n") == w;
  }

  /** A quote holding one paragraph `[!toc]` / `- w` is an outline of one
      entry at depth 1. */
  lemma TocQuoteReadsAsOutline(w: string)
    requires w != [] && '\n' !in w && !Str.IsWhitespace(w[|w| - 1])
    ensures ReadBlock(BlockQuote([Paragraph([Text(Marker(ModelKinds.Toc) + "\n- " + w)])]), TreePrint)
      == Ok(Blocks.Block.Toc([Toc.FlattenNode(1, w)]))
  {
    var item := "- " + w;
    var p := Paragraph([Text(Marker(ModelKinds.Toc) + "\n- " + w)]);
    var q := Paragraph([Text(item)]);
    assert Marker(ModelKinds.Toc) + "\n- " + w == Marker(ModelKinds.Toc) + "\n" + item;
    assert item[|item| - 1] == w[|w| - 1];
    MarkedParagraph(ModelKinds.Toc, item);
    assert [Text(item)] + p.children[1..] == [Text(item)];
    assert ParseCard(p) == Some((ModelKinds.Toc, Some(q)));
    assert [q] + [p][1..] == [q];
    assert QuoteParts([p]) == (ModelKinds.Toc, [q]);
    Str.VisibleAscii('-');
    PrintedParagraph(item);
    Str.SplitNoSeparator(item, '\n');
    assert SplitAll([item]) == [] + [item];
    Toc.LoneBullet(w);
  }

  /** The root's children in test `block_quote_paragraph_to_note`, with
      the text `w` where the test has `foo`. */
  function QuoteNodes(w: string): seq<Node> {
    [BlockQuote([Paragraph([Text(w)])]),
     BlockQuote([Paragraph([Text("[!note]\n" + w)])]),
     BlockQuote([Paragraph([Text("[!summary]\n" + w)])]),
     BlockQuote([Paragraph([Text("[!quote]\n" + w)])]),
     BlockQuote([Paragraph([Text("[!question]\n" + w)])]),
     BlockQuote([Paragraph([Text("[!toc]\n- " + w)])])]
  }

  /** The head the test expects. */
  function QuoteBlocks(w: string): seq<Blocks.Block> {
    [NoteModel.CardBlock(ModelKinds.Note, [Blocks.Block.Text(w)]),
     NoteModel.CardBlock(ModelKinds.Note, [Blocks.Block.Text(w)]),
     NoteModel.CardBlock(ModelKinds.Summary, [Blocks.Block.Text(w)]),
     NoteModel.CardBlock(ModelKinds.Quote, [Blocks.Block.Text(w)]),
     NoteModel.CardBlock(ModelKinds.Question, [Blocks.Block.Text(w)]),
     Blocks.Block.Toc([Toc.FlattenNode(1, w)])]
  }

  /** `block_quote_paragraph_to_note`, for any visible one-line text `w`
      that is no marker: a plain quote and four marked quotes are cards,
      and a `[!toc]` quote is an outline. */
  lemma BlockQuoteParagraphToNote(w: string, decode: string -> Result<Meta>)
    requires w != [] && '\n' !in w && !Str.IsWhitespace(w[0]) && !Str.IsWhitespace(w[|w| - 1])
    requires forall k :: Marker(k) != w
    ensures ParsedNote(Root(QuoteNodes(w)), decode, ReadersOf(TreePrint))
      == Ok(NoteModel.Note(None, QuoteBlocks(w), []))
  {
    var ns, bs := QuoteNodes(w), QuoteBlocks(w);
    var rd := ReadersOf(TreePrint);
    forall k | 0 <= k < |ns| ensures !ns[k].Heading? && rd.block(ns[k]) == Ok(bs[k]) {
      QuoteReads(w, k);
    }
    HeadOnlyNote(ns, bs, decode, rd);
  }

  lemma ReadersBlock(printer: Printer, n: Node)
    ensures ReadersOf(printer).block(n) == ReadBlock(n, printer)
  {
  }

  lemma QuoteReads(w: string, k: nat)
    requires w != [] && '\n' !in w && !Str.IsWhitespace(w[0]) && !Str.IsWhitespace(w[|w| - 1])
    requires forall k :: Marker(k) != w
    requires k < 6
    ensures !QuoteNodes(w)[k].Heading?
    ensures ReadersOf(TreePrint).block(QuoteNodes(w)[k]) == Ok(QuoteBlocks(w)[k])
  {
    if k == 0 {
      PlainQuoteReads(w, k);
    } else if k == 5 {
      TocQuoteReads(w, k);
    } else {
      MarkedQuoteReads(w, k);
    }
  }

  lemma PlainQuoteReads(w: string, k: nat)
    requires w != [] && '\n' !in w && !Str.IsWhitespace(w[0]) && !Str.IsWhitespace(w[|w| - 1])
    requires forall k :: Marker(k) != w
    requires k == 0
    ensures !QuoteNodes(w)[k].Heading?
    ensures ReadersOf(TreePrint).block(QuoteNodes(w)[k]) == Ok(QuoteBlocks(w)[k])
  {
    var n := QuoteNodes(w)[k];
    ReadersBlock(TreePrint, n);
    assert n == BlockQuote([Paragraph([Text(w)])]);
    NotCard(w);
    PlainQuoteReadsAsCard(w);
  }

  lemma TocQuoteReads(w: string, k: nat)
    requires w != [] && '\n' !in w && !Str.IsWhitespace(w[0]) && !Str.IsWhitespace(w[|w| - 1])
    requires forall k :: Marker(k) != w
    requires k == 5
    ensures !QuoteNodes(w)[k].Heading?
    ensures ReadersOf(TreePrint).block(QuoteNodes(w)[k]) == Ok(QuoteBlocks(w)[k])
  {
    var n := QuoteNodes(w)[k];
    ReadersBlock(TreePrint, n);
    MarkerTexts(w);
    assert n == BlockQuote([Paragraph([Text(Marker(ModelKinds.Toc) + "\n- " + w)])]);
    TocQuoteReadsAsOutline(w);
  }

  lemma MarkedQuoteReads(w: string, k: nat)
    requires w != [] && '\n' !in w && !Str.IsWhitespace(w[0]) && !Str.IsWhitespace(w[|w| - 1])
    requires forall k :: Marker(k) != w
    requires 1 <= k < 5
    ensures !QuoteNodes(w)[k].Heading?
    ensures ReadersOf(TreePrint).block(QuoteNodes(w)[k]) == Ok(QuoteBlocks(w)[k])
  {
    var n, b := QuoteNodes(w)[k], QuoteBlocks(w)[k];
    ReadersBlock(TreePrint, n);
    MarkerTexts(w);
    var kind := [ModelKinds.Note, ModelKinds.Summary, ModelKinds.Quote, ModelKinds.Question][k - 1];
    assert n == BlockQuote([Paragraph([Text(Marker(kind) + "\n" + w)])]);
    assert b == NoteModel.CardBlock(kind, [Blocks.Block.Text(w)]);
    MarkedQuoteReadsAsCard(kind, w);
  }

  /** The marker lines of the five kinds, written out. */
  lemma MarkerTexts(w: string)
    ensures Marker(ModelKinds.Note) + "\n" + w == "[!note]\n" + w
    ensures Marker(ModelKinds.Summary) + "\n" + w == "[!summary]\n" + w
    ensures Marker(ModelKinds.Quote) + "\n" + w == "[!quote]\n" + w
    ensures Marker(ModelKinds.Question) + "\n" + w == "[!question]\n" + w
    ensures Marker(ModelKinds.Toc) + "\n- " + w == "[!toc]\n- " + w
  {
  }

  // ---------------------------------------------------------------------
  // The parser over a cursor

  /** The walk before `rest`'s blocks: `rest` with `done` in front. */
  function Prepend(done: seq<Blocks.Block>, rest: Result<(nat, seq<Blocks.Block>)>): Result<(nat, seq<Blocks.Block>)> {
    if rest.Ok? then Ok((rest.value.0, done + rest.value.1)) else rest
  }

  function PrependSections(done: seq<Blocks.Section>, rest: Result<seq<Blocks.Section>>): Result<seq<Blocks.Section>> {
    if rest.Ok? then Ok(done + rest.value) else rest
  }

  /** The root's children and how far the parser has read them (the
      source's peekable iterator). */
  class Cursor {
    const nodes: seq<Node>
    var pos: nat

    constructor(nodes: seq<Node>)
      ensures this.nodes == nodes && pos == 0
    {
      this.nodes := nodes;
      pos := 0;
    }

    predicate Valid()
      reads this
    {
      pos <= |nodes|
    }
  }

  /** `parse_metadata` over the cursor. */
  method ParseMetadata(it: Cursor, decode: string -> Result<Meta>) returns (r: Option<Metadata>)
    requires it.Valid() && it.pos == 0
    modifies it
    ensures it.Valid() && (it.pos, r) == MetadataAt(it.nodes, decode)
  {
    r := None;
    if it.pos < |it.nodes| && it.nodes[it.pos].Yaml? {
      var value := it.nodes[it.pos].value;
      it.pos := it.pos + 1;
      var md := MetadataFromStr(value, decode);
      r := Some(if md.Ok? then md.value else Metadata.Raw(value));
    }
  }

  /** A walk reaching a heading no deeper than its threshold stops there. */
  lemma BlockRunStop(cs: seq<Node>, i: nat, min: nat, rd: Readers)
    requires StopsAt(cs, i, min)
    ensures BlockRun(cs, i, min, rd) == Ok((i, []))
  {
  }

  /** One step of a walk at a deeper heading, given the title and the walk
      read after it. */
  lemma BlockRunSection(cs: seq<Node>, i: nat, min: nat, rd: Readers, title: Result<string>, sub: Result<(nat, seq<Blocks.Block>)>)
    requires i < |cs| && cs[i].Heading? && cs[i].depth > min
    requires title == rd.title(cs[i].children)
    requires title.Ok? ==> sub == BlockRun(cs, i + 1, cs[i].depth, rd)
    ensures title.Err? ==> BlockRun(cs, i, min, rd) == Err(title.error)
    ensures title.Ok? && sub.Err? ==> BlockRun(cs, i, min, rd) == Err(sub.error)
    ensures title.Ok? && sub.Ok? ==> i < sub.value.0 <= |cs|
    ensures title.Ok? && sub.Ok? ==>
      BlockRun(cs, i, min, rd) == Prepend([Blocks.Block.Section(Blocks.Section.Section(title.value, sub.value.1))], BlockRun(cs, sub.value.0, min, rd))
  {
  }

  /** One step of a walk at any other node, given the block read there. */
  lemma BlockRunLeaf(cs: seq<Node>, i: nat, min: nat, rd: Readers, b: Result<Blocks.Block>)
    requires i < |cs| && !cs[i].Heading? && b == rd.block(cs[i])
    ensures b.Err? ==> BlockRun(cs, i, min, rd) == Err(b.error)
    ensures b.Ok? ==> BlockRun(cs, i, min, rd) == Prepend([b.value], BlockRun(cs, i + 1, min, rd))
  {
  }

  /** Blocks read so far can be moved in front of the rest of the walk. */
  lemma PrependAppend(done: seq<Blocks.Block>, b: Blocks.Block, rest: Result<(nat, seq<Blocks.Block>)>)
    ensures Prepend(done, Prepend([b], rest)) == Prepend(done + [b], rest)
  {
    if rest.Ok? {
      assert done + ([b] + rest.value.1) == (done + [b]) + rest.value.1;
    }
  }

  /** `parse_block` over the cursor: on success the cursor stops where the
      walk stops. */
  method ParseBlock(it: Cursor, min: nat, printer: Printer) returns (r: Result<seq<Blocks.Block>>)
    requires it.Valid()
    modifies it
    ensures it.Valid() && old(it.pos) <= it.pos
    ensures r.Ok? <==> BlockRun(it.nodes, old(it.pos), min, ReadersOf(printer)).Ok?
    ensures r.Ok? ==> r.value == BlockRun(it.nodes, old(it.pos), min, ReadersOf(printer)).value.1
    ensures r.Ok? ==> it.pos == BlockRun(it.nodes, old(it.pos), min, ReadersOf(printer)).value.0
    ensures r.Err? ==> r.error == BlockRun(it.nodes, old(it.pos), min, ReadersOf(printer)).error
    decreases |it.nodes| - it.pos, 1
  {
    ghost var rd := ReadersOf(printer);
    ghost var start := it.pos;
    ghost var cs := it.nodes;
    var res: seq<Blocks.Block> := [];
    ghost var spec := BlockRun(cs, start, min, rd);
    assert spec.Ok? ==> [] + spec.value.1 == spec.value.1;
    while it.pos < |it.nodes|
      invariant it.Valid() && start <= it.pos && it.nodes == cs
      invariant spec == Prepend(res, BlockRun(cs, it.pos, min, rd))
      decreases |it.nodes| - it.pos
    {
      var node := it.nodes[it.pos];
      if node.Heading? && node.depth <= min {
        break;
      }
      var b := ParseEntry(it, min, printer);
      if b.Err? {
        return Err(b.error);
      }
      PrependAppend(res, b.value, BlockRun(cs, it.pos, min, rd));
      res := res + [b.value];
    }
    BlockRunStop(cs, it.pos, min, rd);
    assert res + [] == res;
    return Ok(res);
  }

  /** The body of `parse_block`'s loop at a node the walk reads: a deeper
      heading gives a section holding the blocks read after it, any other
      node the block read from it. */
  method ParseEntry(it: Cursor, min: nat, printer: Printer) returns (r: Result<Blocks.Block>)
    requires it.Valid() && it.pos < |it.nodes|
    requires !(it.nodes[it.pos].Heading? && it.nodes[it.pos].depth <= min)
    modifies it
    ensures it.Valid() && old(it.pos) < it.pos
    ensures r.Err? ==> BlockRun(it.nodes, old(it.pos), min, ReadersOf(printer)) == Err(r.error)
    ensures r.Ok? ==>
      BlockRun(it.nodes, old(it.pos), min, ReadersOf(printer)) == Prepend([r.value], BlockRun(it.nodes, it.pos, min, ReadersOf(printer)))
    decreases |it.nodes| - it.pos, 0
  {
    ghost var rd := ReadersOf(printer);
    ghost var cs := it.nodes;
    ghost var p := it.pos;
    var node := it.nodes[it.pos];
    it.pos := it.pos + 1;
    if node.Heading? {
      var title := ParseHeading(node.children, printer);
      ghost var sub := if title.Ok? then BlockRun(cs, p + 1, node.depth, rd) else Err("");
      BlockRunSection(cs, p, min, rd, title, sub);
      if title.Err? {
        return Err(title.error);
      }
      var children := ParseBlock(it, node.depth, printer);
      if children.Err? {
        return Err(children.error);
      }
      r := Ok(Blocks.Block.Section(Blocks.Section.Section(title.value, children.value)));
    } else {
      if node.BlockQuote? {
        r := ParseBlockQuote(node.children, printer);
      } else {
        var s := printer(node);
        r := if s.Err? then Err(s.error)
          else if node.FootnoteDefinition? then Ok(Blocks.Block.Single(Str.Trim(s.value)))
          else Ok(Blocks.Block.Text(Str.Trim(s.value)));
      }
      BlockRunLeaf(cs, p, min, rd, r);
    }
  }

  /** One step of `parse_body` at a depth-1 heading, given the title and
      the walk read after it. */
  lemma SectionRunStep(cs: seq<Node>, i: nat, rd: Readers, title: Result<string>, sub: Result<(nat, seq<Blocks.Block>)>)
    requires i < |cs| && cs[i].Heading? && cs[i].depth == 1
    requires title == rd.title(cs[i].children)
    requires title.Ok? ==> sub == BlockRun(cs, i + 1, 1, rd)
    ensures title.Err? ==> SectionRun(cs, i, rd) == Err(title.error)
    ensures title.Ok? && sub.Err? ==> SectionRun(cs, i, rd) == Err(sub.error)
    ensures title.Ok? && sub.Ok? ==> i < sub.value.0 <= |cs|
    ensures title.Ok? && sub.Ok? ==>
      SectionRun(cs, i, rd) == PrependSections([Blocks.Section.Section(title.value, sub.value.1)], SectionRun(cs, sub.value.0, rd))
  {
  }

  /** `parse_body` skips a node that is not a depth-1 heading. */
  lemma SectionRunSkip(cs: seq<Node>, i: nat, rd: Readers)
    requires i < |cs| && !(cs[i].Heading? && cs[i].depth == 1)
    ensures SectionRun(cs, i, rd) == SectionRun(cs, i + 1, rd)
  {
  }

  lemma PrependSectionsConcat(done: seq<Blocks.Section>, more: seq<Blocks.Section>, rest: Result<seq<Blocks.Section>>)
    ensures PrependSections(done, PrependSections(more, rest)) == PrependSections(done + more, rest)
  {
    if rest.Ok? {
      assert done + (more + rest.value) == (done + more) + rest.value;
    }
  }

  /** One depth-1 heading of `parse_body`: its title, then the blocks
      read under it. */
  method ParseTopSection(it: Cursor, printer: Printer) returns (r: Result<Blocks.Section>)
    requires it.Valid() && it.pos < |it.nodes|
    requires it.nodes[it.pos].Heading? && it.nodes[it.pos].depth == 1
    modifies it
    ensures it.Valid() && old(it.pos) < it.pos
    ensures r.Err? ==> SectionRun(it.nodes, old(it.pos), ReadersOf(printer)) == Err(r.error)
    ensures r.Ok? ==>
      SectionRun(it.nodes, old(it.pos), ReadersOf(printer))
        == PrependSections([r.value], SectionRun(it.nodes, it.pos, ReadersOf(printer)))
  {
    ghost var rd := ReadersOf(printer);
    ghost var cs := it.nodes;
    ghost var p := it.pos;
    var node := it.nodes[it.pos];
    it.pos := it.pos + 1;
    var title := ParseHeading(node.children, printer);
    if title.Err? {
      SectionRunStep(cs, p, rd, title, Err(""));
      return Err(title.error);
    }
    var children := ParseBlock(it, 1, printer);
    SectionRunStep(cs, p, rd, title, BlockRun(cs, p + 1, 1, rd));
    if children.Err? {
      return Err(children.error);
    }
    r := Ok(Blocks.Section.Section(title.value, children.value));
  }

  /** One turn of `parse_body`'s loop: a depth-1 heading starts a section,
      any other node is skipped. */
  method ParseBodyStep(it: Cursor, printer: Printer) returns (r: Result<seq<Blocks.Section>>)
    requires it.Valid() && it.pos < |it.nodes|
    modifies it
    ensures it.Valid() && old(it.pos) < it.pos
    ensures r.Err? ==> SectionRun(it.nodes, old(it.pos), ReadersOf(printer)) == Err(r.error)
    ensures r.Ok? ==>
      SectionRun(it.nodes, old(it.pos), ReadersOf(printer))
        == PrependSections(r.value, SectionRun(it.nodes, it.pos, ReadersOf(printer)))
  {
    var node := it.nodes[it.pos];
    if !(node.Heading? && node.depth == 1) {
      ghost var p := it.pos;
      it.pos := it.pos + 1;
      SectionRunSkip(it.nodes, p, ReadersOf(printer));
      PrependNothing(SectionRun(it.nodes, it.pos, ReadersOf(printer)));
      return Ok([]);
    }
    var section := ParseTopSection(it, printer);
    if section.Err? {
      return Err(section.error);
    }
    return Ok([section.value]);
  }

  lemma PrependNothing(rest: Result<seq<Blocks.Section>>)
    ensures PrependSections([], rest) == rest
  {
    if rest.Ok? {
      assert [] + rest.value == rest.value;
    }
  }

  /** `parse_body` over the cursor: on success everything is read. */
  method ParseBody(it: Cursor, printer: Printer) returns (r: Result<seq<Blocks.Section>>)
    requires it.Valid()
    modifies it
    ensures it.Valid()
    ensures r == SectionRun(it.nodes, old(it.pos), ReadersOf(printer))
    ensures r.Ok? ==> it.pos == |it.nodes|
  {
    ghost var rd := ReadersOf(printer);
    ghost var cs := it.nodes;
    var res: seq<Blocks.Section> := [];
    ghost var spec := SectionRun(cs, it.pos, rd);
    PrependNothing(spec);
    while it.pos < |it.nodes|
      invariant it.Valid() && it.nodes == cs
      invariant spec == PrependSections(res, SectionRun(cs, it.pos, rd))
      decreases |it.nodes| - it.pos
    {
      var step := ParseBodyStep(it, printer);
      if step.Err? {
        return Err(step.error);
      }
      PrependSectionsConcat(res, step.value, SectionRun(cs, it.pos, rd));
      res := res + step.value;
    }
    assert res + [] == res;
    return Ok(res);
  }

  /** `NoteParser::parse`: the cursor is read for front matter, head and
      body in turn, with the syntax-tree printer. */
  method Parse(root: Node, decode: string -> Result<Meta>) returns (r: Result<NoteModel.Note>)
    ensures r == ParsedNote(root, decode, ReadersOf(TreePrint))
  {
    if !root.Root? {
      return Err("invalid");
    }
    var it := new Cursor(root.children);
    var metadata := ParseMetadata(it, decode);
    var head := ParseBlock(it, 1, TreePrint);
    if head.Err? {
      return Err(head.error);
    }
    var body := ParseBody(it, TreePrint);
    if body.Err? {
      return Err(body.error);
    }
    return Ok(NoteModel.Note(metadata, head.value, body.value));
  }
}
