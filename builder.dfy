/** Markdown snippets shared by the block and note printers
    (crates/mdfmt-core/src/note/builder.rs). */
module Builder {
  import opened Text
  import Toc

  /** `heading`: `depth` hashes, a space, the title. */
  function Heading(depth: nat, value: string): string {
    Repeat("#", depth) + " " + value
  }

  /** One line of a block quote: an empty line becomes a bare `>`. */
  function QuoteLine(line: string): (r: string)
    ensures r != [] && r[0] == '>'
    ensures '\n' !in line ==> '\n' !in r
  {
    if line == "" then ">" else "> " + line
  }

  /** The inverse of `QuoteLine`. */
  function Unquote(q: string): string {
    if |q| >= 2 && q[..2] == "> " then q[2..]
    else if q == ">" then ""
    else q
  }

  function QuoteLines(lines: seq<string>): (r: seq<string>)
    ensures |r| == |lines|
  {
    seq(|lines|, i requires 0 <= i < |lines| => QuoteLine(lines[i]))
  }

  /** `block_quote`: the lines of the text without its trailing whitespace,
      each quoted, joined by line breaks, with a final line break. */
  function BlockQuote(text: string): string {
    Join(QuoteLines(Lines(TrimEnd(text))), "\n") + "\n"
  }

  lemma UnquoteQuoteLine(line: string)
    ensures Unquote(QuoteLine(line)) == line
  {
    if line != "" {
      assert ("> " + line)[..2] == "> ";
      assert ("> " + line)[2..] == line;
    }
  }

  /** A block quote is a sequence of quoted lines, one per line of the
      trimmed text, each starting with `>` and giving the original line back
      when unquoted; a text of only whitespace gives a single line break. */
  lemma BlockQuoteShape(text: string)
    ensures var r := BlockQuote(text);
      var ls := Lines(TrimEnd(text));
      && r != [] && r[|r| - 1] == '\n'
      && (ls == [] ==> r == "\n")
      && (ls != [] ==>
            var q := Split(r[..|r| - 1], '\n');
            && q == QuoteLines(ls)
            && (forall i :: 0 <= i < |q| ==> q[i] != [] && q[i][0] == '>' && Unquote(q[i]) == ls[i]))
  {
    var ls := Lines(TrimEnd(text));
    var qs := QuoteLines(ls);
    var r := BlockQuote(text);
    assert r[..|r| - 1] == Join(qs, "\n");
    if ls != [] {
      forall i | 0 <= i < |qs| ensures '\n' !in qs[i] {
        assert qs[i] == QuoteLine(ls[i]);
      }
      SplitJoin(qs, '\n');
      forall i | 0 <= i < |qs| ensures Unquote(qs[i]) == ls[i] {
        UnquoteQuoteLine(ls[i]);
      }
    }
  }

  /** A single visible line is quoted as one `> ` line. */
  lemma BlockQuoteOneLine(x: string)
    requires x != [] && '\n' !in x && !IsWhitespace(x[|x| - 1])
    ensures BlockQuote(x) == "> " + x + "\n"
  {
    TrimEndKeeps(x);
    SplitNoSeparator(x, '\n');
    assert Lines(x) == [x];
    var q := QuoteLines([x]);
    assert q == ["> " + x];
  }

  /** `block_quote("")` is a lone line break. */
  lemma BlockQuoteOfEmpty()
    ensures BlockQuote("") == "\n"
  {
    assert Lines(TrimEnd("")) == [];
  }

  /** A heading printed at depth d >= 1 is read back by the outline parser
      as a heading entry of level d + 1 carrying exactly the title. */
  lemma HeadingIsOutlineHeading(depth: nat, value: string)
    requires depth >= 1
    ensures Toc.Line.Parse(Heading(depth, value)) == Toc.Block(depth + 1, value)
  {
    var s := Heading(depth, value);
    HashesCount(depth, " " + value);
    assert s == Repeat("#", depth) + (" " + value);
    Toc.LineParseShape(s);
    assert s[depth] == ' ';
    assert s[depth + 1..] == value;
  }

  lemma {:induction false} HashesCount(depth: nat, t: string)
    requires t == [] || t[0] != '#'
    ensures Toc.LeadingCount(Repeat("#", depth) + t, '#') == depth
  {
    if depth > 0 {
      HashesCount(depth - 1, t);
      var s := Repeat("#", depth) + t;
      assert s[1..] == Repeat("#", depth - 1) + t;
    } else {
      assert Repeat("#", depth) + t == t;
    }
  }
}
