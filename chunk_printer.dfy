/** Output assembled from chunks, each followed by one line break (a
    `Single` chunk) or by a blank line (a `Double` chunk); the whole text is
    trimmed (crates/mdfmt-core/src/chunk/printer.rs, and the identical
    private copy in crates/mdfmt-core/src/note/printer.rs). */
module Chunks {
  import opened Text

  datatype Chunk = Single(text: string) | Double(text: string)

  /** The line breaks that follow a chunk. */
  function Separator(c: Chunk): (r: string)
    ensures r == "\n" || r == "\n\n"
    ensures forall i :: 0 <= i < |r| ==> IsWhitespace(r[i])
  {
    match c
    case Single(_) => "\n"
    case Double(_) => "\n\n"
  }

  /** The untrimmed text of a chunk sequence, built left to right. */
  function ChunksText(cs: seq<Chunk>): string {
    if cs == [] then "" else ChunksText(cs[..|cs| - 1]) + cs[|cs| - 1].text + Separator(cs[|cs| - 1])
  }

  /** `ChunkPrinter::print`. */
  function PrintChunks(cs: seq<Chunk>): string {
    Trim(ChunksText(cs))
  }

  /** The text of a concatenation is the concatenation of the texts. */
  lemma {:induction false} ChunksTextAppend(a: seq<Chunk>, b: seq<Chunk>)
    ensures ChunksText(a + b) == ChunksText(a) + ChunksText(b)
  {
    if b == [] {
      assert a + b == a;
    } else {
      var init, c := b[..|b| - 1], b[|b| - 1];
      var ab := a + b;
      assert ab[..|ab| - 1] == a + init && ab[|ab| - 1] == c;
      var tail := c.text + Separator(c);
      ChunksTextLast(ab);
      ChunksTextLast(b);
      ChunksTextAppend(a, init);
      AppendAssoc(ChunksText(a), ChunksText(init), tail);
    }
  }

  /** The text of chunks is the text of all but the last, then the last
      chunk with its line breaks. */
  lemma ChunksTextLast(cs: seq<Chunk>)
    requires cs != []
    ensures var c := cs[|cs| - 1]; ChunksText(cs) == ChunksText(cs[..|cs| - 1]) + (c.text + Separator(c))
  {
    var c := cs[|cs| - 1];
    AppendAssoc(ChunksText(cs[..|cs| - 1]), c.text, Separator(c));
  }

  lemma AppendAssoc(x: string, y: string, z: string)
    ensures (x + y) + z == x + (y + z)
  {
  }

  /** A lone chunk's text is followed by its own line breaks. */
  lemma ChunksTextOne(c: Chunk)
    ensures ChunksText([c]) == c.text + Separator(c)
  {
    assert [c][..0] == [];
  }

  /** When the first chunk does not start and the last chunk does not end
      with whitespace, printing drops exactly the last chunk's line breaks:
      every other chunk keeps its own one or two. */
  lemma PrintChunksDropsLastSeparator(cs: seq<Chunk>)
    requires cs != []
    requires cs[0].text != [] && !IsWhitespace(cs[0].text[0])
    requires cs[|cs| - 1].text != [] && !IsWhitespace(cs[|cs| - 1].text[|cs[|cs| - 1].text| - 1])
    ensures PrintChunks(cs) == ChunksText(cs[..|cs| - 1]) + cs[|cs| - 1].text
  {
    var last := cs[|cs| - 1];
    var body := ChunksText(cs[..|cs| - 1]) + last.text;
    assert ChunksText(cs) == body + Separator(last);
    ChunksTextFirstChar(cs);
    assert body[0] == ChunksText(cs)[0];
    TrimPadded(body, Separator(last));
  }

  /** The printed chunks open with the first chunk's first character. */
  lemma ChunksTextFirstChar(cs: seq<Chunk>)
    requires cs != [] && cs[0].text != []
    ensures ChunksText(cs) != [] && ChunksText(cs)[0] == cs[0].text[0]
  {
    ChunksTextAppend([cs[0]], cs[1..]);
    assert [cs[0]] + cs[1..] == cs;
    ChunksTextOne(cs[0]);
  }

  /** A first chunk that starts and ends with a visible character opens the
      printed text, whatever follows it. */
  lemma PrintStartsWith(first: Chunk, rest: seq<Chunk>)
    requires first.text != [] && !IsWhitespace(first.text[0])
    requires !IsWhitespace(first.text[|first.text| - 1])
    ensures var p := PrintChunks([first] + rest);
      |p| >= |first.text| && p[..|first.text|] == first.text
      && (|p| == |first.text| || p[|first.text|] == '\n')
  {
    var x := first.text;
    var y := Separator(first) + ChunksText(rest);
    ChunksTextAppend([first], rest);
    ChunksTextOne(first);
    assert ChunksText([first] + rest) == x + y;
    TrimOpensWith(x, y);
  }

  /** A one-line first chunk that starts and ends with a visible character
      is the first line of the printed text, whatever follows it. */
  lemma FirstLineSurvives(first: string, rest: seq<Chunk>)
    requires first != [] && '\n' !in first
    requires !IsWhitespace(first[0]) && !IsWhitespace(first[|first| - 1])
    ensures var p := PrintChunks([Single(first)] + rest);
      TrimEnd(p) == p && Lines(p) != [] && Lines(p)[0] == first
  {
    PrintStartsWith(Single(first), rest);
    var p := PrintChunks([Single(first)] + rest);
    TrimEndKeeps(p);
    LinesFirst(first, p);
  }

  /** A lone chunk whose text is visible text padded with whitespace at its
      end prints as the visible text. */
  lemma OneChunkPrints(c: Chunk, x: string, ws: string)
    requires x != [] && !IsWhitespace(x[0]) && !IsWhitespace(x[|x| - 1])
    requires forall i :: 0 <= i < |ws| ==> IsWhitespace(ws[i])
    requires c.text == x + ws
    ensures PrintChunks([c]) == x
  {
    var sep := Separator(c);
    assert [c][..0] == [];
    assert ChunksText([c]) == x + (ws + sep) by {
      assert ChunksText([c]) == "" + c.text + sep;
    }
    TrimPadded(x, ws + sep);
  }

  /** Lines pushed as single chunks, each with a line break of its own. */
  function Singles(xs: seq<string>): seq<Chunk> {
    seq(|xs|, i requires 0 <= i < |xs| => Single(xs[i] + "\n"))
  }

  lemma SinglesCons(xs: seq<string>)
    requires xs != []
    ensures Singles(xs) == [Single(xs[0] + "\n")] + Singles(xs[1..])
  {
  }

  /** Lines that end in a line break of their own, pushed as single
      chunks, stand one blank line apart. */
  lemma {:induction false} SinglesText(xs: seq<string>)
    requires xs != []
    ensures ChunksText(Singles(xs)) == Join(xs, "\n\n") + "\n\n"
  {
    var init, x := xs[..|xs| - 1], xs[|xs| - 1];
    var cs := Singles(xs);
    assert cs[..|cs| - 1] == Singles(init) && cs[|cs| - 1] == Single(x + "\n");
    assert ChunksText(cs) == ChunksText(Singles(init)) + (x + "\n") + "\n";
    if init == [] {
      assert Singles(init) == [] && xs == [x];
      assert "" + (x + "\n") + "\n" == x + "\n\n";
    } else {
      SinglesText(init);
      JoinAppend(init, x, "\n\n");
      assert init + [x] == xs;
      assert Join(init, "\n\n") + "\n\n" + (x + "\n") + "\n" == Join(init, "\n\n") + "\n\n" + x + "\n\n";
    }
  }

  /** Printed, they are joined by blank lines when the first opens and the
      last closes with a visible character. */
  lemma SinglesPrint(xs: seq<string>)
    requires xs != [] && xs[0] != [] && !IsWhitespace(xs[0][0])
    requires xs[|xs| - 1] != [] && !IsWhitespace(xs[|xs| - 1][|xs[|xs| - 1]| - 1])
    ensures PrintChunks(Singles(xs)) == Join(xs, "\n\n")
  {
    SinglesText(xs);
    JoinEnds(xs, "\n\n");
    var j := Join(xs, "\n\n");
    assert j[0] == j[..|xs[0]|][0];
    var last := xs[|xs| - 1];
    assert j[|j| - 1] == j[|j| - |last|..][|last| - 1];
    TrimPadded(j, "\n\n");
  }

  /** The printer: the chunks pushed so far, in order. */
  class ChunkPrinter {
    var chunks: seq<Chunk>

    /** `ChunkPrinter::new`. */
    constructor()
      ensures chunks == []
    {
      chunks := [];
    }

    /** `ChunkPrinter::push`. */
    method Push(c: Chunk)
      modifies this
      ensures chunks == old(chunks) + [c]
    {
      chunks := chunks + [c];
    }

    /** `ChunkPrinter::print`: append each chunk and its line breaks, then trim. */
    method Print() returns (s: string)
      ensures s == PrintChunks(chunks)
    {
      var res := "";
      for i := 0 to |chunks|
        invariant res == ChunksText(chunks[..i])
      {
        assert chunks[..i + 1][..i] == chunks[..i];
        match chunks[i]
        case Single(t) =>
          res := res + t + "\n";
        case Double(t) =>
          res := res + t + "\n\n";
      }
      assert chunks[..|chunks|] == chunks;
      s := Trim(res);
    }
  }

  /** Unit test `sigle_and_double` of chunk/printer.rs. */
  lemma PrintExample()
    ensures PrintChunks([Single("a"), Double("b"), Single("c"), Double("d")]) == "a\nb\n\nc\nd"
  {
    var cs := [Single("a"), Double("b"), Single("c"), Double("d")];
    VisibleAscii('a');
    VisibleAscii('d');
    PrintChunksDropsLastSeparator(cs);
    assert cs[..3][..2] == cs[..2] && cs[..2][..1] == cs[..1] && cs[..1][..0] == [];
    assert ChunksText(cs[..1]) == "a\n";
    assert ChunksText(cs[..2]) == "a\nb\n\n";
    assert ChunksText(cs[..3]) == "a\nb\n\nc\n";
  }
}
