/** The state threaded through block printing: the chunks emitted so far
    and the current heading depth (the `visitor` module of
    crates/mdfmt-core/src/note.rs). */
module Visitor {
  import opened Chunks

  class VisitorContext {
    const chunks: ChunkPrinter
    var depth: nat

    /** `VisitorContext::new`: no chunks yet, at the given depth. */
    constructor(depth: nat)
      ensures this.depth == depth
      ensures fresh(chunks) && chunks.chunks == []
    {
      this.depth := depth;
      chunks := new ChunkPrinter();
    }

    /** `VisitorContext::get_depth`. */
    function GetDepth(): (d: nat)
      reads this
      ensures d == depth
    {
      depth
    }

    /** `VisitorContext::sub`: a separate, empty context at the same depth. */
    method Sub() returns (c: VisitorContext)
      ensures fresh(c) && fresh(c.chunks)
      ensures c.depth == depth && c.chunks.chunks == []
    {
      c := new VisitorContext(depth);
    }

    /** `VisitorContext::push`. */
    method Push(c: Chunk)
      modifies chunks
      ensures chunks.chunks == old(chunks.chunks) + [c]
    {
      chunks.Push(c);
    }

    /** The first half of `VisitorContext::dive`: one level deeper. */
    method Descend()
      modifies this
      ensures depth == old(depth) + 1
    {
      depth := depth + 1;
    }

    /** The second half of `VisitorContext::dive`, reached only when the
        visit in between succeeded: back to the level before. */
    method Ascend()
      requires depth >= 1
      modifies this
      ensures depth == old(depth) - 1
    {
      depth := depth - 1;
    }

    /** `VisitorContext::print`. */
    method Print() returns (s: string)
      ensures s == PrintChunks(chunks.chunks)
    {
      s := chunks.Print();
    }
  }
}
