/** Printing a note: the front matter between `---` fences, then each block
    of the body at heading depth 1 (crates/mdfmt-core/src/note/printer.rs). */
module NotePrinter {
  import opened Wrappers
  import opened Text
  import opened Chunks
  import B = Builder
  import opened Blocks
  import opened NoteMetadata
  import opened NoteData
  import Toc

  /** The chunk `from_yaml` emits: nothing without front matter, the
      fenced encoding with it, or the encoder's error. */
  function YamlChunks(metadata: Option<Metadata>, encode: Meta -> Result<string>): (r: Result<seq<Chunk>>)
    ensures metadata.None? ==> r == Ok([])
    ensures metadata.Some? ==> (r.Err? <==> MetadataToMd(metadata.value, encode).Err?)
  {
    if metadata.None? then Ok([])
    else
      var md :- MetadataToMd(metadata.value, encode);
      Ok([Chunk.Single("---\n" + md + "---")])
  }

  /** `NotePrinter::print`. */
  function NotePrint(n: Note, encode: Meta -> Result<string>): Result<string>
    requires AllPrintable(n.body)
  {
    var yaml :- YamlChunks(n.metadata, encode);
    Ok(Trim(PrintChunks(yaml + ChildrenChunks(n.body, 1))) + "\n")
  }

  /** `from_block`: the same chunks as `Block::visit`, written as a
      recursion over a chunk printer instead of a visitor context. */
  method FromBlock(b: Block, depth: nat, chunks: ChunkPrinter)
    requires Printable(b)
    modifies chunks
    ensures chunks.chunks == old(chunks.chunks) + VisitChunks(b, depth)
    decreases b, 1
  {
    match b
    case Empty =>
      assert old(chunks.chunks) + [] == old(chunks.chunks);
    case AnonymousSection(cs) =>
      FromChildren(cs, depth + 1, chunks);
    case Section(s) =>
      FromSection(s, depth, chunks);
    case Card(c) =>
      FromCard(c, depth, chunks);
    case Text(t) =>
      chunks.Push(Chunk.Double(t));
    case Single(t) =>
      chunks.Push(Chunk.Single(t));
    case Toc(es) =>
      chunks.Push(Chunk.Double(TocText(es)));
  }

  /** The section arm of `from_block`: the heading line, then the
      children one level deeper. */
  method FromSection(s: Section, depth: nat, chunks: ChunkPrinter)
    requires AllPrintable(s.children)
    modifies chunks
    ensures chunks.chunks == old(chunks.chunks) + VisitChunks(Block.Section(s), depth)
    decreases s, 2
  {
    var heading := Chunk.Single(B.Heading(depth, s.title));
    chunks.Push(heading);
    FromChildren(s.children, depth + 1, chunks);
    assert chunks.chunks == old(chunks.chunks) + ([heading] + ChildrenChunks(s.children, depth + 1));
  }

  /** The card arm of `from_block`: a separate printer for the kind line
      and the children, quoted into one chunk. */
  method FromCard(c: Card, depth: nat, chunks: ChunkPrinter)
    requires AllPrintable(c.children)
    modifies chunks
    ensures chunks.chunks == old(chunks.chunks) + VisitChunks(Block.Card(c), depth)
    decreases c, 2
  {
    ghost var inner := [Chunk.Single(KindLine(c))] + ChildrenChunks(c.children, depth + 1);
    var subchunks := new ChunkPrinter();
    subchunks.Push(Chunk.Single(KindLine(c)));
    FromChildren(c.children, depth + 1, subchunks);
    assert subchunks.chunks == inner;
    var text := subchunks.Print();
    assert VisitChunks(Block.Card(c), depth) == [Chunk.Single(B.BlockQuote(PrintChunks(inner)))];
    chunks.Push(Chunk.Single(B.BlockQuote(text)));
  }

  /** The `for child in children` loop of `from_block`. */
  method FromChildren(children: seq<Block>, depth: nat, chunks: ChunkPrinter)
    requires AllPrintable(children)
    modifies chunks
    ensures chunks.chunks == old(chunks.chunks) + ChildrenChunks(children, depth)
    decreases children, 0
  {
    var i := 0;
    while i < |children|
      invariant 0 <= i <= |children|
      invariant AllPrintable(children[i..])
      invariant chunks.chunks + ChildrenChunks(children[i..], depth)
        == old(chunks.chunks) + ChildrenChunks(children, depth)
      decreases |children| - i
    {
      assert children[i..][1..] == children[i + 1..];
      FromBlock(children[i], depth, chunks);
      i := i + 1;
    }
  }

  /** `from_yaml`. */
  method FromYaml(metadata: Option<Metadata>, chunks: ChunkPrinter, encode: Meta -> Result<string>)
    returns (r: Result<()>)
    modifies chunks
    ensures YamlChunks(metadata, encode).Err? <==> r.Err?
    ensures YamlChunks(metadata, encode).Ok? ==>
      chunks.chunks == old(chunks.chunks) + YamlChunks(metadata, encode).value
  {
    if metadata.Some? {
      var md := MetadataToMd(metadata.value, encode);
      if md.Err? {
        return Err(md.error);
      }
      chunks.Push(Chunk.Single("---\n" + md.value + "---"));
    }
    return Ok(());
  }

  /** `from_body`: every block of the body at depth 1. */
  method FromBody(blocks: seq<Block>, chunks: ChunkPrinter)
    requires AllPrintable(blocks)
    modifies chunks
    ensures chunks.chunks == old(chunks.chunks) + ChildrenChunks(blocks, 1)
  {
    FromChildren(blocks, 1, chunks);
  }

  /** `NotePrinter::print`. */
  method Print(n: Note, encode: Meta -> Result<string>) returns (r: Result<string>)
    requires AllPrintable(n.body)
    ensures r == NotePrint(n, encode)
  {
    var chunks := new ChunkPrinter();
    var y := FromYaml(n.metadata, chunks, encode);
    if y.Err? {
      return Err(YamlChunks(n.metadata, encode).error);
    }
    ghost var yaml := YamlChunks(n.metadata, encode).value;
    assert chunks.chunks == yaml by {
      assert [] + yaml == yaml;
    }
    FromBody(n.body, chunks);
    assert chunks.chunks == yaml + ChildrenChunks(n.body, 1);
    var s := chunks.Print();
    return Ok(Trim(s) + "\n");
  }

  // ---------------------------------------------------------------------
  // Properties

  /** When the front matter encodes, the printed note is the printed chunks
      (already trimmed, so the outer trim changes nothing) with one line
      break. */
  lemma PrintedText(n: Note, encode: Meta -> Result<string>)
    requires AllPrintable(n.body)
    requires YamlChunks(n.metadata, encode).Ok?
    ensures NotePrint(n, encode)
      == Ok(PrintChunks(YamlChunks(n.metadata, encode).value + ChildrenChunks(n.body, 1)) + "\n")
  {
    var yaml := YamlChunks(n.metadata, encode);
    var cs := yaml.value + ChildrenChunks(n.body, 1);
    PrintedTrimmed(cs);
  }

  /** Printed chunks are already trimmed. */
  lemma PrintedTrimmed(cs: seq<Chunk>)
    ensures Trim(PrintChunks(cs)) == PrintChunks(cs)
  {
    TrimTrimmed(ChunksText(cs));
  }

  /** The printed note ends with exactly one line break and has no other
      whitespace at either end. */
  lemma PrintedNoteShape(n: Note, encode: Meta -> Result<string>)
    requires AllPrintable(n.body)
    requires NotePrint(n, encode).Ok?
    ensures var s := NotePrint(n, encode).value;
      && s != [] && s[|s| - 1] == '\n'
      && var t := s[..|s| - 1];
         t == [] || (!IsWhitespace(t[0]) && !IsWhitespace(t[|t| - 1]))
  {
    var t := Trim(PrintChunks(YamlChunks(n.metadata, encode).value + ChildrenChunks(n.body, 1)));
    var s := NotePrint(n, encode).value;
    assert s == t + "\n";
    assert s[..|s| - 1] == t;
  }

  /** Printing fails exactly when there is front matter that the encoder
      cannot encode. */
  lemma PrintFailsOnlyOnFrontMatter(n: Note, encode: Meta -> Result<string>)
    requires AllPrintable(n.body)
    ensures NotePrint(n, encode).Err? <==>
      n.metadata.Some? && n.metadata.value.Meta? && encode(n.metadata.value.meta).Err?
  {
  }

  /** Front matter opens the printed note, fenced by `---` lines. */
  lemma FrontMatterFirst(n: Note, encode: Meta -> Result<string>)
    requires AllPrintable(n.body)
    requires n.metadata.Some? && MetadataToMd(n.metadata.value, encode).Ok?
    ensures var fenced := "---\n" + MetadataToMd(n.metadata.value, encode).value + "---";
      && NotePrint(n, encode).Ok?
      && var s := NotePrint(n, encode).value;
         |s| > |fenced| && s[..|fenced|] == fenced && s[|fenced|] == '\n'
  {
    var md := MetadataToMd(n.metadata.value, encode).value;
    assert YamlChunks(n.metadata, encode) == Ok([Chunk.Single("---\n" + md + "---")]);
    PrintedText(n, encode);
    FencedOpensPrint(md, ChildrenChunks(n.body, 1));
  }

  /** The fenced front matter, printed first, is followed by a line break
      whatever chunks follow it. */
  lemma FencedOpensPrint(md: string, rest: seq<Chunk>)
    ensures var fenced := "---\n" + md + "---";
      var s := PrintChunks([Chunk.Single(fenced)] + rest) + "\n";
      |s| > |fenced| && s[..|fenced|] == fenced && s[|fenced|] == '\n'
  {
    FenceEnds(md);
    OpensLine("---\n" + md + "---", rest);
  }

  /** A visible-ended first chunk, once the printed note gets its final
      line break, is a line of its own. */
  lemma OpensLine(t: string, rest: seq<Chunk>)
    requires t != [] && !IsWhitespace(t[0]) && !IsWhitespace(t[|t| - 1])
    ensures var s := PrintChunks([Chunk.Single(t)] + rest) + "\n";
      |s| > |t| && s[..|t|] == t && s[|t|] == '\n'
  {
    PrintStartsWith(Chunk.Single(t), rest);
    var p := PrintChunks([Chunk.Single(t)] + rest);
    var s := p + "\n";
    assert s[..|t|] == p[..|t|];
  }

  /** The fenced front matter starts and ends with a visible `-`. */
  lemma FenceEnds(md: string)
    ensures var fenced := "---\n" + md + "---";
      fenced != [] && !IsWhitespace(fenced[0]) && !IsWhitespace(fenced[|fenced| - 1])
  {
    var fenced := "---\n" + md + "---";
    assert fenced[0] == '-' && fenced[|fenced| - 1] == '-';
    VisibleAscii('-');
  }

  /** A note without front matter prints its body alone. */
  lemma NoFrontMatterPrintsBody(n: Note, encode: Meta -> Result<string>)
    requires AllPrintable(n.body) && n.metadata.None?
    ensures NotePrint(n, encode) == Ok(PrintChunks(ChildrenChunks(n.body, 1)) + "\n")
  {
    var body := ChildrenChunks(n.body, 1);
    var yaml := YamlChunks(n.metadata, encode);
    assert yaml == Ok([]);
    PrintedText(n, encode);
    assert yaml.value + body == body;
  }

  // ---------------------------------------------------------------------
  // Unit tests of crates/mdfmt-core/src/note/printer.rs

  /** A body of one visible text block prints as that text and a line
      break; test `convert_head_text` is the text `foo`. */
  lemma SingleTextPrints(encode: Meta -> Result<string>, t: string)
    requires t != [] && !IsWhitespace(t[0]) && !IsWhitespace(t[|t| - 1])
    ensures AllPrintable([Block.Text(t)])
    ensures NotePrint(Note(None, [Block.Text(t)]), encode) == Ok(t + "\n")
  {
    TextChunks(t);
    NoFrontMatterPrintsBody(Note(None, [Block.Text(t)]), encode);
  }

  lemma TextChunks(t: string)
    requires t != [] && !IsWhitespace(t[0]) && !IsWhitespace(t[|t| - 1])
    ensures AllPrintable([Block.Text(t)])
    ensures PrintChunks(ChildrenChunks([Block.Text(t)], 1)) == t
  {
    OneBlockBody(Block.Text(t), 1);
    OneChunkPrints(Chunk.Double(t), t, "");
  }

  /** A section at depth 1 holding one visible text prints a level-1
      heading line directly followed by the text; test
      `convert_body_heading` is the title `heading` over the text `foo`. */
  lemma SectionPrints(encode: Meta -> Result<string>, title: string, t: string)
    requires title != [] && !IsWhitespace(title[|title| - 1])
    requires t != [] && !IsWhitespace(t[0]) && !IsWhitespace(t[|t| - 1])
    ensures AllPrintable([Block.Section(Section.Section(title, [Block.Text(t)]))])
    ensures NotePrint(Note(None, [Block.Section(Section.Section(title, [Block.Text(t)]))]), encode)
      == Ok("# " + title + "\n" + t + "\n")
  {
    var sec := Block.Section(Section.Section(title, [Block.Text(t)]));
    SectionVisit(title, t, 1);
    OneBlockBody(sec, 1);
    HeadingLevels(title);
    HeadingTextPrints("# " + title, t);
    NoFrontMatterPrintsBody(Note(None, [sec]), encode);
  }

  /** A section inside an anonymous section is one level deeper: test
      `convert_head_heading` prints the title `heading` as `## heading`
      over the text `foo`. */
  lemma HeadHeadingPrints(encode: Meta -> Result<string>, title: string, t: string)
    requires title != [] && !IsWhitespace(title[|title| - 1])
    requires t != [] && !IsWhitespace(t[0]) && !IsWhitespace(t[|t| - 1])
    ensures AllPrintable([Block.AnonymousSection([Block.Section(Section.Section(title, [Block.Text(t)]))])])
    ensures NotePrint(Note(None, [Block.AnonymousSection([Block.Section(Section.Section(title, [Block.Text(t)]))])]), encode)
      == Ok("## " + title + "\n" + t + "\n")
  {
    var sec := Block.Section(Section.Section(title, [Block.Text(t)]));
    var anon := Block.AnonymousSection([sec]);
    SectionVisit(title, t, 2);
    OneBlockBody(sec, 2);
    assert VisitChunks(anon, 1) == ChildrenChunks([sec], 2);
    OneBlockBody(anon, 1);
    HeadingLevels(title);
    HeadingTextPrints("## " + title, t);
    NoFrontMatterPrintsBody(Note(None, [anon]), encode);
  }

  /** A section with no children prints its heading line alone; test
      `convert_body_text` is the title `foo`. */
  lemma EmptySectionPrints(encode: Meta -> Result<string>, title: string)
    requires title != [] && !IsWhitespace(title[|title| - 1])
    ensures AllPrintable([Block.Section(Section.Section(title, []))])
    ensures NotePrint(Note(None, [Block.Section(Section.Section(title, []))]), encode) == Ok("# " + title + "\n")
  {
    var sec := Block.Section(Section.Section(title, []));
    var h := "# " + title;
    EmptySectionChunks(title);
    assert h[0] == '#' && h[|h| - 1] == title[|title| - 1];
    VisibleAscii('#');
    OneChunkPrints(Chunk.Single(h), h, "");
    NoFrontMatterPrintsBody(Note(None, [sec]), encode);
  }

  lemma EmptySectionChunks(title: string)
    ensures AllPrintable([Block.Section(Section.Section(title, []))])
    ensures ChildrenChunks([Block.Section(Section.Section(title, []))], 1) == [Chunk.Single("# " + title)]
  {
    var sec := Block.Section(Section.Section(title, []));
    HeadingLevels(title);
    assert VisitChunks(sec, 1) == [Chunk.Single("# " + title)] + [];
    OneBlockBody(sec, 1);
  }

  lemma HeadingLevels(title: string)
    ensures B.Heading(1, title) == "# " + title
    ensures B.Heading(2, title) == "## " + title
  {
    assert Repeat("#", 1) == "#" + "";
    assert Repeat("#", 2) == "#" + Repeat("#", 1);
  }

  /** A heading line and a text print as the two lines, the heading chunk
      being single-spaced. */
  lemma HeadingTextPrints(h: string, t: string)
    requires h != [] && h[0] == '#' && !IsWhitespace(h[|h| - 1])
    requires t != [] && !IsWhitespace(t[0]) && !IsWhitespace(t[|t| - 1])
    ensures PrintChunks([Chunk.Single(h), Chunk.Double(t)]) + "\n" == h + "\n" + t + "\n"
  {
    var cs := [Chunk.Single(h), Chunk.Double(t)];
    var x := h + "\n" + t;
    assert ChunksText(cs) == x + "\n\n" by {
      assert cs[..1] == [Chunk.Single(h)];
      assert cs[..1][..0] == [];
      assert ChunksText(cs[..1]) == h + "\n" by {
        assert "" + h + "\n" == h + "\n";
      }
      assert cs[..|cs| - 1] == cs[..1];
    }
    VisibleAscii('#');
    assert x[0] == '#' && x[|x| - 1] == t[|t| - 1];
    TrimPadded(x, "\n\n");
  }

  lemma SectionVisit(title: string, t: string, depth: nat)
    ensures Printable(Block.Section(Section.Section(title, [Block.Text(t)])))
    ensures VisitChunks(Block.Section(Section.Section(title, [Block.Text(t)])), depth)
      == [Chunk.Single(B.Heading(depth, title)), Chunk.Double(t)]
  {
    assert [Block.Text(t)][1..] == [];
    assert AllPrintable([Block.Text(t)]) by {
      assert Printable(Block.Text(t)) && AllPrintable([]);
    }
    assert ChildrenChunks([Block.Text(t)], depth + 1) == [Chunk.Double(t)] by {
      assert [Chunk.Double(t)] + [] == [Chunk.Double(t)];
    }
  }

  /** A card with no title and no children prints as its quoted kind line;
      test `convert_card` is the kind `note`. */
  lemma BareCardPrints(encode: Meta -> Result<string>, kind: NoteKinds.NoteKind)
    ensures AllPrintable([Block.Card(Card.Card(kind, None, []))])
    ensures NotePrint(Note(None, [Block.Card(Card.Card(kind, None, []))]), encode)
      == Ok("> [!" + NoteKinds.Name(kind) + "]\n")
  {
    BareCardBody(kind);
    NoFrontMatterPrintsBody(Note(None, [Block.Card(Card.Card(kind, None, []))]), encode);
  }

  lemma BareCardBody(kind: NoteKinds.NoteKind)
    ensures AllPrintable([Block.Card(Card.Card(kind, None, []))])
    ensures PrintChunks(ChildrenChunks([Block.Card(Card.Card(kind, None, []))], 1)) + "\n"
      == "> [!" + NoteKinds.Name(kind) + "]\n"
  {
    var c := Card.Card(kind, None, []);
    var kl := KindLine(c);
    var x := "> " + kl;
    BareCardChunks(c, 1);
    OneBlockBody(Block.Card(c), 1);
    assert x[0] == '>' && x[|x| - 1] == kl[|kl| - 1];
    VisibleAscii('>');
    OneChunkPrints(Chunk.Single(x + "\n"), x, "\n");
    QuotedKindLine(NoteKinds.Name(kind));
  }

  lemma QuotedKindLine(name: string)
    ensures "> " + ("[!" + name + "]") + "\n" == "> [!" + name + "]\n"
  {
  }

  /** A card printed without children: its kind line is one visible line. */
  predicate BareCard(c: Card) {
    c.children == [] && (c.title.Some? ==> OneLineTitle(c.title.value))
  }

  predicate BareCards(bs: seq<Block>) {
    forall k :: 0 <= k < |bs| ==> bs[k].Card? && BareCard(bs[k].card)
  }

  /** The quoted kind line of each card. */
  function CardLines(bs: seq<Block>): seq<string>
    requires BareCards(bs)
  {
    seq(|bs|, k requires 0 <= k < |bs| => "> " + KindLine(bs[k].card))
  }

  /** A bare card becomes one chunk: its quoted kind line. */
  lemma BareCardChunks(c: Card, depth: nat)
    requires BareCard(c)
    ensures KindLine(c) != [] && !IsWhitespace(KindLine(c)[|KindLine(c)| - 1])
    ensures VisitChunks(Block.Card(c), depth) == [Chunk.Single("> " + KindLine(c) + "\n")]
  {
    var kl := KindLine(c);
    KindLineShape(c);
    BareCardVisit(c, depth);
    assert kl[0] == '[';
    VisibleAscii('[');
    OneChunkPrints(Chunk.Single(kl), kl, "");
    B.BlockQuoteOneLine(kl);
  }

  lemma BareCardVisit(c: Card, depth: nat)
    requires c.children == []
    ensures VisitChunks(Block.Card(c), depth) == [Chunk.Single(B.BlockQuote(PrintChunks([Chunk.Single(KindLine(c))])))]
  {
    var inner := [Chunk.Single(KindLine(c))] + ChildrenChunks(c.children, depth + 1);
    assert inner == [Chunk.Single(KindLine(c))];
    assert VisitChunks(Block.Card(c), depth) == [Chunk.Single(B.BlockQuote(PrintChunks(inner)))];
  }

  /** Bare cards side by side become their quoted kind lines, each a
      single chunk. */
  lemma {:induction false} CardsChunks(bs: seq<Block>, depth: nat)
    requires BareCards(bs)
    ensures AllPrintable(bs)
    ensures ChildrenChunks(bs, depth) == Singles(CardLines(bs))
  {
    if bs != [] {
      var c := bs[0].card;
      assert BareCards(bs[1..]) by {
        forall k | 0 <= k < |bs[1..]| ensures bs[1..][k].Card? && BareCard(bs[1..][k].card) {
          assert bs[1..][k] == bs[k + 1];
        }
      }
      CardsChunks(bs[1..], depth);
      BareCardChunks(c, depth);
      assert Printable(bs[0]) by {
        assert bs[0] == Block.Card(c);
      }
      var lines := CardLines(bs);
      CardLinesTail(bs);
      SinglesCons(lines);
      assert VisitChunks(bs[0], depth) == [Chunk.Single(lines[0] + "\n")] by {
        assert bs[0] == Block.Card(c);
      }
    }
  }

  lemma CardLinesTail(bs: seq<Block>)
    requires bs != [] && BareCards(bs) && BareCards(bs[1..])
    ensures CardLines(bs[1..]) == CardLines(bs)[1..]
  {
    var tail, all := CardLines(bs[1..]), CardLines(bs);
    forall k | 0 <= k < |tail| ensures tail[k] == all[k + 1] {
      assert bs[1..][k] == bs[k + 1];
    }
  }

  /** A body of bare cards prints their quoted kind lines, one blank line
      apart (`Chunk::Single` of a block quote that already ends in a line
      break). */
  lemma CardsPrint(encode: Meta -> Result<string>, bs: seq<Block>)
    requires bs != [] && BareCards(bs)
    ensures AllPrintable(bs)
    ensures NotePrint(Note(None, bs), encode) == Ok(Join(CardLines(bs), "\n\n") + "\n")
  {
    CardsChunks(bs, 1);
    CardLinesVisible(bs);
    SinglesPrint(CardLines(bs));
    NoFrontMatterPrintsBody(Note(None, bs), encode);
  }

  /** The quoted kind lines open with `>` and close with a visible
      character. */
  lemma CardLinesVisible(bs: seq<Block>)
    requires bs != [] && BareCards(bs)
    ensures var ls := CardLines(bs);
      && ls[0] != [] && !IsWhitespace(ls[0][0])
      && ls[|ls| - 1] != [] && !IsWhitespace(ls[|ls| - 1][|ls[|ls| - 1]| - 1])
  {
    CardLineVisible(bs, 0);
    CardLineVisible(bs, |bs| - 1);
  }

  lemma CardLineVisible(bs: seq<Block>, k: nat)
    requires k < |bs| && BareCards(bs)
    ensures var l := CardLines(bs)[k]; l != [] && !IsWhitespace(l[0]) && !IsWhitespace(l[|l| - 1])
  {
    var c := bs[k].card;
    assert BareCard(c);
    KindLineShape(c);
    QuotedVisible(KindLine(c));
  }

  lemma QuotedVisible(line: string)
    requires line != [] && !IsWhitespace(line[|line| - 1])
    ensures var q := "> " + line; !IsWhitespace(q[0]) && !IsWhitespace(q[|q| - 1])
  {
    VisibleAscii('>');
    var q := "> " + line;
    assert q[0] == '>' && q[|q| - 1] == line[|line| - 1];
  }

  /** Test `convert_card`: six cards, one titled, printed one blank line
      apart. */
  lemma ConvertCard(encode: Meta -> Result<string>)
    ensures AllPrintable(SixCards())
    ensures NotePrint(Note(None, SixCards()), encode)
      == Ok("> [!note]" + "\n\n" + "> [!note] title" + "\n\n" + "> [!note]" + "\n\n"
        + "> [!summary]" + "\n\n" + "> [!quote]" + "\n\n" + "> [!question]" + "\n")
  {
    SixCardLines();
    CardsPrint(encode, SixCards());
    var ls := SixLines();
    JoinSix(ls[0], ls[1], ls[2], ls[3], ls[4], ls[5], "\n\n");
    assert ls == [ls[0], ls[1], ls[2], ls[3], ls[4], ls[5]];
  }

  /** The body of test `convert_card`. */
  function SixCards(): seq<Block> {
    [Block.Card(Card.Card(NoteKinds.Default, None, [])),
     Block.Card(Card.Card(NoteKinds.Note, Some("title"), [])),
     Block.Card(Card.Card(NoteKinds.Note, None, [])),
     Block.Card(Card.Card(NoteKinds.Summary, None, [])),
     Block.Card(Card.Card(NoteKinds.Quote, None, [])),
     Block.Card(Card.Card(NoteKinds.Question, None, []))]
  }

  function SixLines(): seq<string> {
    ["> [!note]", "> [!note] title", "> [!note]", "> [!summary]", "> [!quote]", "> [!question]"]
  }

  lemma SixCardLines()
    ensures BareCards(SixCards()) && CardLines(SixCards()) == SixLines()
  {
    var bs := SixCards();
    VisibleAscii('e');
    assert OneLineTitle("title");
    assert BareCards(bs);
    NoteCardLines();
    OtherCardLines();
  }

  lemma NoteCardLines()
    ensures "> " + KindLine(Card.Card(NoteKinds.Note, None, [])) == "> [!note]"
    ensures "> " + KindLine(Card.Card(NoteKinds.Note, Some("title"), [])) == "> [!note] title"
  {
  }

  lemma OtherCardLines()
    ensures "> " + KindLine(Card.Card(NoteKinds.Summary, None, [])) == "> [!summary]"
    ensures "> " + KindLine(Card.Card(NoteKinds.Quote, None, [])) == "> [!quote]"
    ensures "> " + KindLine(Card.Card(NoteKinds.Question, None, [])) == "> [!question]"
  {
  }

  lemma JoinSix(a: string, b: string, c: string, d: string, e: string, f: string, sep: string)
    ensures Join([a, b, c, d, e, f], sep) + "\n"
      == a + sep + b + sep + c + sep + d + sep + e + sep + f + "\n"
  {
    var ls := [a, b, c, d, e, f];
    assert ls[5..] == [f];
    JoinTail(ls[4..], sep);
    assert ls[4..][1..] == ls[5..];
    JoinTail(ls[3..], sep);
    assert ls[3..][1..] == ls[4..];
    JoinTail(ls[2..], sep);
    assert ls[2..][1..] == ls[3..];
    JoinTail(ls[1..], sep);
    assert ls[1..][1..] == ls[2..];
    JoinTail(ls, sep);
  }

  /** A body holding one outline prints the outline's text: the
      `[!toc]` line, then one quoted list item per entry. */
  lemma TocPrints(encode: Meta -> Result<string>, es: seq<Toc.FlattenNode>)
    requires es != [] && forall k :: 0 <= k < |es| ==> es[k].indent >= 1
    requires var v := es[|es| - 1].value; v != [] && !IsWhitespace(v[|v| - 1])
    ensures AllPrintable([Block.Toc(es)])
    ensures NotePrint(Note(None, [Block.Toc(es)]), encode) == Ok(TocText(es) + "\n")
  {
    var x := TocText(es);
    TocTextEnds(es);
    OneBlockBody(Block.Toc(es), 1);
    OneChunkPrints(Chunk.Double(x), x, "");
    NoFrontMatterPrintsBody(Note(None, [Block.Toc(es)]), encode);
  }

  /** The printed outline opens with `>` and closes with the last entry's
      last character. */
  lemma TocTextEnds(es: seq<Toc.FlattenNode>)
    requires es != [] && forall k :: 0 <= k < |es| ==> es[k].indent >= 1
    requires var v := es[|es| - 1].value; v != [] && !IsWhitespace(v[|v| - 1])
    ensures var x := TocText(es); x != [] && !IsWhitespace(x[0]) && !IsWhitespace(x[|x| - 1])
  {
    var lines := seq(|es|, k requires 0 <= k < |es| => TocLine(es[k]));
    var e := es[|es| - 1];
    var last := TocLine(e);
    assert lines[|lines| - 1] == last;
    LastOfAppend("> " + Repeat(Indent, e.indent - 1) + "- ", e.value);
    var j := Join(lines, "\n");
    JoinEnds(lines, "\n");
    assert j[|j| - 1] == j[|j| - |last|..][|last| - 1];
    LastOfAppend("> [!toc]\n", j);
    VisibleAscii('>');
  }

  /** Test `convert_toc`: front matter whose only content is a bookmark
      with the outline `# aaa` / `## bbb` normalises into no front matter
      and an outline block, which prints as a quoted, indented list. */
  lemma ConvertToc(encode: Meta -> Result<string>, a: string, b: string)
    requires a != [] && '\n' !in a && !IsWhitespace(a[|a| - 1])
    requires b != [] && '\n' !in b && !IsWhitespace(b[|b| - 1])
    ensures var n := Note(Some(Metadata.Meta(EmptyMeta.(bookmark := Some(BookmarkWithToc("# " + a + "\n## " + b + "\n"))))), []);
      AllPrintable(Normalize(n).body)
      && NotePrint(Normalize(n), encode) == Ok("> [!toc]\n> - " + a + "\n>     - " + b + "\n")
  {
    var toc := "# " + a + "\n## " + b + "\n";
    var n := Note(Some(Metadata.Meta(EmptyMeta.(bookmark := Some(BookmarkWithToc(toc))))), []);
    TocOnlyBookmarkDisappears(toc);
    var es := [Toc.FlattenNode(1, a), Toc.FlattenNode(2, b)];
    TwoHeadingsOutline(a, b);
    assert Normalize(n) == Note(None, [Block.Toc(es)]);
    TocPrints(encode, es);
    TwoEntriesText(a, b);
  }

  /** The outline `# a` / `## b` is one entry with one sub-entry. */
  lemma TwoHeadingsOutline(a: string, b: string)
    requires a != [] && '\n' !in a && !IsWhitespace(a[|a| - 1])
    requires b != [] && '\n' !in b && !IsWhitespace(b[|b| - 1])
    ensures Toc.FlattenRef(Toc.Parse("# " + a + "\n## " + b + "\n")) == [Toc.FlattenNode(1, a), Toc.FlattenNode(2, b)]
  {
    TwoHeadingLines(a, b);
    Toc.HeadingUnderHeading(a, b);
  }

  /** Split and classified, the outline `# a` / `## b` is a level-2 and a
      level-3 heading line. */
  lemma TwoHeadingLines(a: string, b: string)
    requires a != [] && '\n' !in a && !IsWhitespace(a[|a| - 1])
    requires b != [] && '\n' !in b && !IsWhitespace(b[|b| - 1])
    ensures var lines := Lines("# " + a + "\n## " + b + "\n");
      seq(|lines|, k requires 0 <= k < |lines| => Toc.Line.Parse(lines[k])) == [Toc.Block(2, a), Toc.Block(3, b)]
  {
    var x, y := "# " + a, "## " + b;
    assert x[|x| - 1] == a[|a| - 1] && y[|y| - 1] == b[|b| - 1];
    LinesTwo(x, y);
    assert "# " + a + "\n## " + b + "\n" == x + "\n" + y + "\n";
    HeadingLevels(a);
    HeadingLevels(b);
    B.HeadingIsOutlineHeading(1, a);
    B.HeadingIsOutlineHeading(2, b);
  }

  /** The printed outline of an entry and its sub-entry. */
  lemma TwoEntriesText(a: string, b: string)
    ensures TocText([Toc.FlattenNode(1, a), Toc.FlattenNode(2, b)]) + "\n" == "> [!toc]\n> - " + a + "\n>     - " + b + "\n"
  {
    var es := [Toc.FlattenNode(1, a), Toc.FlattenNode(2, b)];
    var lines := seq(|es|, k requires 0 <= k < |es| => TocLine(es[k]));
    assert Repeat(Indent, 0) == "";
    assert Repeat(Indent, 1) == Indent + "";
    assert lines[0] == "> " + "" + "- " + a;
    assert lines[1] == "> " + Indent + "- " + b;
    JoinTail(lines, "\n");
    assert lines[1..] == [lines[1]];
  }

  /** A run of one block has that block's chunks. */
  lemma OneBlockBody(b: Block, depth: nat)
    requires Printable(b)
    ensures AllPrintable([b])
    ensures ChildrenChunks([b], depth) == VisitChunks(b, depth)
  {
    assert [b][1..] == [];
    assert AllPrintable([b][1..]);
    assert VisitChunks(b, depth) + [] == VisitChunks(b, depth);
  }
}
