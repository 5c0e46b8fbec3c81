/** The note's block tree and how a block is printed through a visitor
    context (crates/mdfmt-core/src/note/block.rs, section.rs, card.rs). */
module Blocks {
  import opened Wrappers
  import Str = Text
  import T = Toc
  import B = Builder
  import opened Chunks
  import opened NoteKinds
  import opened Visitor

  datatype Section = Section(title: string, children: seq<Block>)

  datatype Card = Card(kind: NoteKind, title: Option<string>, children: seq<Block>)

  datatype Block =
    | Empty
    | AnonymousSection(children: seq<Block>)
    | Section(section: Section)
    | Card(card: Card)
    | Text(text: string)
    | Single(text: string)
    | Toc(entries: seq<T.FlattenNode>)

  /** One nesting level of a table of contents, four spaces. */
  const Indent: string := "    "

  /** The first line of a printed card: `[!kind]` and the title, if any. */
  function KindLine(c: Card): string {
    match c.title
    case Some(t) => "[!" + Name(c.kind) + "] " + t
    case None => "[!" + Name(c.kind) + "]"
  }

  /** One entry of a printed table of contents. The source subtracts one
      from the entry's depth as an unsigned number, so a depth of 0 is a
      caller error. */
  function TocLine(e: T.FlattenNode): string
    requires e.indent >= 1
  {
    "> " + Str.Repeat(Indent, e.indent - 1) + "- " + e.value
  }

  function TocText(entries: seq<T.FlattenNode>): string
    requires forall k :: 0 <= k < |entries| ==> entries[k].indent >= 1
  {
    "> [!toc]\n" + Str.Join(seq(|entries|, k requires 0 <= k < |entries| => TocLine(entries[k])), "\n")
  }

  /** Every table of contents in the tree has entries at depth >= 1. */
  predicate Printable(b: Block)
    decreases b, 1
  {
    match b
    case AnonymousSection(cs) => AllPrintable(cs)
    case Section(s) => AllPrintable(s.children)
    case Card(c) => AllPrintable(c.children)
    case Toc(es) => forall k :: 0 <= k < |es| ==> es[k].indent >= 1
    case _ => true
  }

  predicate AllPrintable(bs: seq<Block>)
    decreases bs, 0
  {
    bs != [] ==> Printable(bs[0]) && AllPrintable(bs[1..])
  }

  /** The chunks `Block::visit` emits for `b` at heading depth `depth`. */
  function VisitChunks(b: Block, depth: nat): seq<Chunk>
    requires Printable(b)
    decreases b, 1
  {
    match b
    case Empty => []
    case AnonymousSection(cs) => ChildrenChunks(cs, depth + 1)
    case Section(s) => [Chunk.Single(B.Heading(depth, s.title))] + ChildrenChunks(s.children, depth + 1)
    case Card(c) =>
      var inner := [Chunk.Single(KindLine(c))] + ChildrenChunks(c.children, depth + 1);
      [Chunk.Single(B.BlockQuote(PrintChunks(inner)))]
    case Text(t) => [Chunk.Double(t)]
    case Single(t) => [Chunk.Single(t)]
    case Toc(es) => [Chunk.Double(TocText(es))]
  }

  /** The chunks of the children of one block, one level deeper. */
  function ChildrenChunks(bs: seq<Block>, depth: nat): seq<Chunk>
    requires AllPrintable(bs)
    decreases bs, 0
  {
    if bs == [] then [] else VisitChunks(bs[0], depth) + ChildrenChunks(bs[1..], depth)
  }

  /** `Block::visit`. */
  method Visit(b: Block, ctx: VisitorContext)
    requires Printable(b)
    modifies ctx, ctx.chunks
    ensures ctx.depth == old(ctx.depth)
    ensures ctx.chunks.chunks == old(ctx.chunks.chunks) + VisitChunks(b, old(ctx.depth))
    decreases b, 1
  {
    match b
    case Empty =>
      assert old(ctx.chunks.chunks) + [] == old(ctx.chunks.chunks);
    case AnonymousSection(cs) =>
      Dive(cs, ctx);
    case Section(s) =>
      ctx.Push(Chunk.Single(B.Heading(ctx.GetDepth(), s.title)));
      Dive(s.children, ctx);
    case Card(c) =>
      VisitCard(c, ctx);
    case Text(t) =>
      ctx.Push(Chunk.Double(t));
    case Single(t) =>
      ctx.Push(Chunk.Single(t));
    case Toc(es) =>
      ctx.Push(Chunk.Double(TocText(es)));
  }

  /** The card arm of `Block::visit`: the kind line and the children are
      printed in a separate context, and the result goes into the current
      one as a single block quote. */
  method VisitCard(c: Card, ctx: VisitorContext)
    requires AllPrintable(c.children)
    modifies ctx.chunks
    ensures ctx.chunks.chunks == old(ctx.chunks.chunks)
      + [Chunk.Single(B.BlockQuote(PrintChunks([Chunk.Single(KindLine(c))] + ChildrenChunks(c.children, old(ctx.depth) + 1))))]
    decreases c, 2
  {
    ghost var inner := [Chunk.Single(KindLine(c))] + ChildrenChunks(c.children, ctx.depth + 1);
    var sub := ctx.Sub();
    sub.Push(Chunk.Single(KindLine(c)));
    Dive(c.children, sub);
    assert sub.chunks.chunks == inner;
    var text := sub.Print();
    ctx.Push(Chunk.Single(B.BlockQuote(text)));
  }

  /** `VisitorContext::dive` with the closure every caller passes: visit the
      children one level deeper, then come back to the current level. */
  method Dive(children: seq<Block>, ctx: VisitorContext)
    requires AllPrintable(children)
    modifies ctx, ctx.chunks
    ensures ctx.depth == old(ctx.depth)
    ensures ctx.chunks.chunks == old(ctx.chunks.chunks) + ChildrenChunks(children, old(ctx.depth) + 1)
    decreases children, 0
  {
    ctx.Descend();
    var i := 0;
    while i < |children|
      invariant 0 <= i <= |children|
      invariant ctx.depth == old(ctx.depth) + 1
      invariant AllPrintable(children[i..])
      invariant ctx.chunks.chunks + ChildrenChunks(children[i..], ctx.depth)
        == old(ctx.chunks.chunks) + ChildrenChunks(children, old(ctx.depth) + 1)
      decreases |children| - i
    {
      ghost var before := ctx.chunks.chunks;
      assert children[i..][1..] == children[i + 1..];
      Visit(children[i], ctx);
      i := i + 1;
    }
    ctx.Ascend();
  }

  /** `Block::print`: the block's chunks, printed, in a fresh context. */
  method Print(b: Block, depth: nat) returns (s: string)
    requires Printable(b)
    ensures s == PrintChunks(VisitChunks(b, depth))
  {
    var ctx := new VisitorContext(depth);
    Visit(b, ctx);
    assert ctx.chunks.chunks == VisitChunks(b, depth);
    s := ctx.Print();
  }

  /** A card title that stays on the card's first line. */
  predicate OneLineTitle(t: string) {
    t != [] && '\n' !in t && !Str.IsWhitespace(t[|t| - 1])
  }

  /** A card prints as exactly one chunk, a block quote whose first line is
      `> [!kind]` or `> [!kind] title`, whatever the children print. */
  lemma CardFirstLine(c: Card, depth: nat)
    requires AllPrintable(c.children)
    requires c.title.Some? ==> OneLineTitle(c.title.value)
    ensures var out := VisitChunks(Block.Card(c), depth);
      && |out| == 1 && out[0].Single?
      && var q := out[0].text;
         q != [] && Str.Split(q[..|q| - 1], '\n')[0] == "> " + KindLine(c)
  {
    var kl := KindLine(c);
    var inner := [Chunk.Single(kl)] + ChildrenChunks(c.children, depth + 1);
    KindLineShape(c);
    FirstLineSurvives(kl, ChildrenChunks(c.children, depth + 1));
    B.BlockQuoteShape(PrintChunks(inner));
    assert VisitChunks(Block.Card(c), depth) == [Chunk.Single(B.BlockQuote(PrintChunks(inner)))];
  }

  lemma KindLineShape(c: Card)
    requires c.title.Some? ==> OneLineTitle(c.title.value)
    ensures var kl := KindLine(c);
      kl != [] && kl[0] == '[' && '\n' !in kl && !Str.IsWhitespace(kl[|kl| - 1])
  {
    var n := Name(c.kind);
    assert '\n' !in n by {
      match c.kind
      case Note => case Summary => case Quote => case Question => case Toc => case Todo =>
    }
    match c.title
    case Some(t) =>
      assert KindLine(c) == "[!" + n + "] " + t;
    case None =>
      assert KindLine(c) == "[!" + n + "]";
  }

  /** The chunks of consecutive runs of blocks are consecutive. */
  lemma {:induction false} ChildrenChunksAppend(a: seq<Block>, b: seq<Block>, depth: nat)
    requires AllPrintable(a) && AllPrintable(b)
    ensures AllPrintable(a + b)
    ensures ChildrenChunks(a + b, depth) == ChildrenChunks(a, depth) + ChildrenChunks(b, depth)
  {
    if a != [] {
      assert (a + b)[1..] == a[1..] + b;
      ChildrenChunksAppend(a[1..], b, depth);
    } else {
      assert a + b == b;
    }
  }

  /** A section visited at context depth `depth` >= 1 opens with a heading
      that the outline parser reads back at level `depth` + 1 with the
      section's title, and its children follow one level deeper. */
  lemma SectionOpensWithHeading(s: Section, depth: nat)
    requires depth >= 1 && Printable(Block.Section(s))
    ensures var out := VisitChunks(Block.Section(s), depth);
      out != [] && out[0].Single?
      && T.Line.Parse(out[0].text) == T.Block(depth + 1, s.title)
      && out[1..] == ChildrenChunks(s.children, depth + 1)
  {
    B.HeadingIsOutlineHeading(depth, s.title);
  }

  /** Each printed table-of-contents entry, without its quote marker, is
      read back by the outline parser as a list item at four spaces per
      level below the first, carrying exactly the entry's text. */
  lemma TocLineIsOutlineItem(e: T.FlattenNode)
    requires e.indent >= 1
    ensures T.Line.Parse(B.Unquote(TocLine(e)))
      == T.Line.List(4 * (e.indent - 1) + 1, e.value)
  {
    var pad := Str.Repeat(Indent, e.indent - 1);
    var s := pad + "- " + e.value;
    assert TocLine(e) == "> " + s;
    assert ("> " + s)[..2] == "> " && ("> " + s)[2..] == s;
    PadIsSpaces(e.indent - 1);
    SpacesCount(pad, "- " + e.value);
    assert s == pad + ("- " + e.value);
    assert s[|pad|] == '-' && s[|pad| + 1] == ' ';
    assert s[0] == ' ' || s[0] == '-';
    assert T.LeadingCount(s, '#') == 0;
    T.LineParseShape(s);
    assert s[|pad| + 2..] == e.value;
  }

  /** The indentation of `n` levels is spaces only. */
  lemma PadIsSpaces(n: nat)
    ensures forall i :: 0 <= i < |Str.Repeat(Indent, n)| ==> Str.Repeat(Indent, n)[i] == ' '
  {
    var pad := Str.Repeat(Indent, n);
    Str.RepeatChars(Indent, n);
    assert forall i :: 0 <= i < |pad| ==> pad[i] in pad;
  }

  lemma {:induction false} SpacesCount(pad: string, t: string)
    requires forall i :: 0 <= i < |pad| ==> pad[i] == ' '
    requires t != [] && t[0] != ' '
    ensures T.LeadingCount(pad + t, ' ') == |pad|
  {
    if pad != [] {
      assert (pad + t)[1..] == pad[1..] + t;
      SpacesCount(pad[1..], t);
    } else {
      assert pad + t == t;
    }
  }
}
