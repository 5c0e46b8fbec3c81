/** A note as front matter plus a sequence of blocks, and its
    normalisation (crates/mdfmt-core/src/note/note_data.rs). */
module NoteData {
  import opened Wrappers
  import Toc
  import opened NoteMetadata
  import Blocks

  datatype Note = Note(metadata: Option<Metadata>, body: seq<Blocks.Block>)

  /** The outline block for an outline text. */
  function TocBlock(text: string): Blocks.Block {
    Blocks.Block.Toc(Toc.FlattenRef(Toc.Parse(text)))
  }

  /** The outline text `Note::get_toc` reads: a bookmark's outline when the
      front matter has a bookmark, even an empty one, otherwise the front
      matter's own outline. */
  function TocSource(metadata: Option<Metadata>): Option<string> {
    if metadata.Some? && metadata.value.Meta? then
      var m := metadata.value.meta;
      if m.bookmark.Some? then m.bookmark.value.toc else m.toc
    else None
  }

  /** `Note::get_toc`: one outline block, or none. */
  function GetToc(n: Note): (r: seq<Blocks.Block>)
    ensures |r| <= 1
  {
    if n.metadata.Some? && n.metadata.value.Meta? then
      var m := n.metadata.value.meta;
      if m.bookmark.Some? then
        match ParseToc(m.bookmark.value.toc)
        case Some(toc) => [Blocks.Block.Toc(Toc.FlattenRef(toc))]
        case None => []
      else
        match ParseToc(m.toc)
        case Some(toc) => [Blocks.Block.Toc(Toc.FlattenRef(toc))]
        case None => []
    else []
  }

  /** `Note::normalize`: the outline block first, then the body; the front
      matter normalised. The outline parser does not fail, so neither does
      this. */
  function Normalize(n: Note): Note {
    Note(if n.metadata.Some? then MetadataNormalize(n.metadata.value) else None,
         GetToc(n) + n.body)
  }

  /** The outline block comes from the bookmark's outline if there is a
      bookmark, else from the front matter's own; the other one is ignored. */
  lemma GetTocSource(n: Note)
    ensures GetToc(n) == if TocSource(n.metadata).Some? then [TocBlock(TocSource(n.metadata).value)] else []
  {
  }

  /** The body keeps every block in order after at most one outline block. */
  lemma NormalizeBody(n: Note)
    ensures Normalize(n).body[|Normalize(n).body| - |n.body|..] == n.body
    ensures |Normalize(n).body| <= |n.body| + 1
  {
  }

  /** Normalising twice is normalising once: the outline is not added a
      second time, because normalised front matter has no outline left. */
  lemma NormalizeIdempotent(n: Note)
    ensures Normalize(Normalize(n)) == Normalize(n)
  {
    var once := Normalize(n);
    if n.metadata.Some? && MetadataNormalize(n.metadata.value).Some? {
      MetadataNormalizeIdempotent(n.metadata.value);
      var md := MetadataNormalize(n.metadata.value).value;
      if md.Meta? {
        MetaNormalizeDropsToc(n.metadata.value.meta);
      }
    }
    assert GetToc(once) == [];
    assert [] + once.body == once.body;
  }

  /** The outline block's entries all sit at depth >= 1, so normalisation
      keeps a printable body printable. */
  lemma NormalizePrintable(n: Note)
    requires Blocks.AllPrintable(n.body)
    ensures Blocks.AllPrintable(Normalize(n).body)
  {
    var toc := GetToc(n);
    if toc != [] {
      var entries := toc[0].entries;
      Toc.FlattenRefIsOutline(Toc.Parse(TocSource(n.metadata).value));
      assert Blocks.Printable(toc[0]);
      assert Blocks.AllPrintable(toc);
    }
    Blocks.ChildrenChunksAppend(toc, n.body, 0);
  }
}
