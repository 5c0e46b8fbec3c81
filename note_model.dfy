/** The note shape the markdown parser builds: front matter, the blocks
    before the first top-level heading, and one section per top-level
    heading (crates/mdfmt-core/src/note/model.rs). Blocks and sections are
    the ones of `Blocks`; a card built here has no title. */
module NoteModel {
  import opened Wrappers
  import Toc
  import opened NoteMetadata
  import Blocks
  import ModelKinds
  import NoteKinds
  import NoteData

  datatype Note = Note(metadata: Option<Metadata>, head: seq<Blocks.Block>, body: seq<Blocks.Section>)

  /** `Block::default`. */
  const DefaultBlock: Blocks.Block := Blocks.Block.Empty

  /** The card kind with the same name: the parser's five kinds are five of
      the six kinds a card can have. */
  function CardKind(k: ModelKinds.NoteKind): (r: NoteKinds.NoteKind)
    ensures NoteKinds.Name(r) == ModelKinds.Name(k)
    ensures r != NoteKinds.Todo
  {
    match k
    case Note => NoteKinds.Note
    case Summary => NoteKinds.Summary
    case Quote => NoteKinds.Quote
    case Question => NoteKinds.Question
    case Toc => NoteKinds.Toc
  }

  /** `Block::card`: a card of kind `k` with no title. */
  function CardBlock(k: ModelKinds.NoteKind, children: seq<Blocks.Block>): (r: Blocks.Block)
    ensures r.Card? && r.card.title.None? && r.card.children == children
    ensures NoteKinds.Name(r.card.kind) == ModelKinds.Name(k)
  {
    Blocks.Block.Card(Blocks.Card.Card(CardKind(k), None, children))
  }

  /** `Note::get_toc`: one outline block when the front matter has a
      bookmark with an outline, otherwise none. */
  function GetToc(n: Note): (r: seq<Blocks.Block>)
    ensures |r| <= 1
  {
    if n.metadata.Some? && n.metadata.value.Meta? && n.metadata.value.meta.bookmark.Some? then
      match ParseToc(n.metadata.value.meta.bookmark.value.toc)
      case Some(toc) => [Blocks.Block.Toc(Toc.FlattenRef(toc))]
      case None => []
    else []
  }

  /** `Note::normalize`: the outline block before the head, the front
      matter normalised, the sections untouched. The outline parser does
      not fail, so neither does this. */
  function Normalize(n: Note): Note {
    Note(if n.metadata.Some? then MetadataNormalize(n.metadata.value) else None,
         GetToc(n) + n.head,
         n.body)
  }

  /** The bookmark's outline, if the front matter has a bookmark. */
  function BookmarkToc(metadata: Option<Metadata>): Option<string> {
    if metadata.Some? && metadata.value.Meta? && metadata.value.meta.bookmark.Some? then
      metadata.value.meta.bookmark.value.toc
    else None
  }

  /** Only the bookmark's outline is consulted: it gives exactly one
      outline block, its absence none. */
  lemma GetTocFromBookmark(n: Note)
    ensures GetToc(n) == if BookmarkToc(n.metadata).Some? then [NoteData.TocBlock(BookmarkToc(n.metadata).value)] else []
  {
  }

  /** The front matter's own outline never gives a block here, unlike in
      the printer-side note, which reads it when there is no bookmark. */
  lemma OwnTocIgnored(n: Note, m: Meta)
    requires n.metadata == Some(Metadata.Meta(m)) && m.bookmark.None? && m.toc.Some?
    ensures GetToc(n) == []
    ensures NoteData.GetToc(NoteData.Note(n.metadata, n.head)) == [NoteData.TocBlock(m.toc.value)]
  {
    NoteData.GetTocSource(NoteData.Note(n.metadata, n.head));
  }

  /** The head keeps every block in order after at most one outline
      block, and the sections are unchanged. */
  lemma NormalizeKeepsBlocks(n: Note)
    ensures Normalize(n).head[|Normalize(n).head| - |n.head|..] == n.head
    ensures |n.head| <= |Normalize(n).head| <= |n.head| + 1
    ensures Normalize(n).body == n.body
  {
  }

  /** Normalising twice is normalising once: normalised front matter has
      no bookmark outline left. */
  lemma NormalizeIdempotent(n: Note)
    ensures Normalize(Normalize(n)) == Normalize(n)
  {
    var once := Normalize(n);
    if n.metadata.Some? && MetadataNormalize(n.metadata.value).Some? {
      MetadataNormalizeIdempotent(n.metadata.value);
      var md := MetadataNormalize(n.metadata.value).value;
      if md.Meta? {
        MetaNormalizeDropsToc(n.metadata.value.meta);
      }
    }
    assert GetToc(once) == [];
    assert [] + once.head == once.head;
  }
}
