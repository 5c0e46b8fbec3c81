/** Printing a markdown syntax tree back to markdown
    (crates/mdfmt-core/src/ast/printer.rs). `Render` says what a node prints
    as at a list depth and list-item number; the class `AstPrinter` is the
    printer that walks the tree, changing its depth and number as it enters
    and leaves lists, and is proved to print what `Render` says. */
module AstPrint {
  import opened Wrappers
  import Str = Text
  import B = Builder
  import Toc
  import opened Mdast

  /** One level of list indentation, four spaces. */
  const Indent: string := "    "

  /** The characters before which a paragraph does not insert a space. */
  const TrailingSeparators: set<char> := {',', '.', ';', ':', '\n'}

  const Unsupported: string := " not supported syntax"

  /** The indentation of list depth `n`: four spaces per level. */
  function IndentOf(n: nat): (r: string)
    ensures |r| == 4 * n
    ensures forall i :: 0 <= i < |r| ==> r[i] == ' '
  {
    var r := Str.Repeat(Indent, n);
    Str.RepeatChars(Indent, n);
    assert forall i :: 0 <= i < |r| ==> r[i] in r;
    r
  }

  predicate StartsWithTrailingSeparator(s: string) {
    s != [] && s[0] in TrailingSeparators
  }

  /** `ends_with(&['\n', ' '])`. */
  predicate EndsWithBreak(s: string) {
    s != [] && (s[|s| - 1] == '\n' || s[|s| - 1] == ' ')
  }

  // ---------------------------------------------------------------------
  // Pieces of the output

  /** `quote`: the text without trailing whitespace, cut at every line
      feed, each piece quoted, joined again, with a final line feed. Unlike
      the note builder's block quote, an empty text gives one bare `>`. */
  function Quote(text: string): string {
    Str.Join(B.QuoteLines(Str.Split(Str.TrimEnd(text), '\n')), "\n") + "\n"
  }

  /** The list-item marker: the item's number inside an ordered list,
      else a task box, else a dash. */
  function Marker(order: Option<nat>, checked: Option<bool>): string {
    if order.Some? then Str.NatToString(order.value) + "."
    else if checked.Some? then (if checked.value then "- [x]" else "- [ ]")
    else "-"
  }

  function AlignMarker(k: AlignKind): string {
    match k
    case Left => ":--"
    case Right => "--:"
    case Center => ":-:"
    case NoAlign => "---"
  }

  /** A table row of cells. */
  function Row(cells: seq<string>): string {
    "| " + Str.Join(cells, " | ") + " |"
  }

  /** The row under a table's header that carries the alignments. */
  function SeparatorRow(align: seq<AlignKind>): string {
    Row(seq(|align|, i requires 0 <= i < |align| => AlignMarker(align[i])))
  }

  /** The space a paragraph puts before its next piece `v`: only after a
      first piece, only before a non-empty piece, not after a piece ending
      in a line break or space, not before a punctuation mark. */
  function Glue(before: seq<string>, v: string): string {
    if before != [] && v != [] && !EndsWithBreak(before[|before| - 1])
       && !StartsWithTrailingSeparator(v)
    then " " else ""
  }

  /** The pieces of a paragraph, one after the other, glued. */
  function Spaced(vs: seq<string>): string {
    if vs == [] then ""
    else
      var before := vs[..|vs| - 1];
      Spaced(before) + Glue(before, vs[|vs| - 1]) + vs[|vs| - 1]
  }

  /** Every piece stripped of the spaces around it. */
  function TrimEachSpaces(vs: seq<string>): (r: seq<string>)
    ensures |r| == |vs|
    ensures forall i :: 0 <= i < |r| ==> r[i] == Str.TrimSpaces(vs[i])
  {
    if vs == [] then [] else TrimEachSpaces(vs[..|vs| - 1]) + [Str.TrimSpaces(vs[|vs| - 1])]
  }

  /** The number an item gets inside a list: its position from 1 when the
      list is ordered. */
  function ItemOrder(ordered: bool, i: nat): Option<nat> {
    if ordered then Some(i + 1) else None
  }

  /** What a node without children prints as; a node kind the printer
      does not know is an error naming it. */
  function Leaf(n: Node): (r: Result<string>)
    requires !HasChildren(n)
    ensures r.Err? <==> n.Other?
    ensures n.Other? ==> r == Err(n.kind + Unsupported)
  {
    match n
    case Html(v) => Ok(v)
    case Text(v) => Ok(v)
    case Math(v) => Ok("$$\n" + v + "\n$$")
    case InlineMath(v) => Ok("$" + v + "$")
    case Yaml(v) => Ok("---\n" + v + "---\n")
    case FootnoteReference(id) => Ok("[^" + id + "]")
    case InlineCode(v) => Ok("`" + v + "`")
    case ThematicBreak => Ok("---\n")
    case Image(alt, url) => Ok("![" + alt + "](" + url + ")")
    case Break => Ok("\n")
    case Code(lang, meta, v) =>
      Ok("```" + lang.GetOr("") + (if meta.Some? then " " + meta.value else "") + "\n" + v + "\n```\n")
    case Other(kind) => Err(kind + Unsupported)
  }

  // ---------------------------------------------------------------------
  // What a node prints as

  /** A paragraph of printed pieces: each stripped of spaces, glued, the
      whole trimmed and ended by a line feed. */
  function ParagraphText(vs: seq<string>): string {
    Str.Trim(Spaced(TrimEachSpaces(vs))) + "\n"
  }

  /** What a node that prints its children one after the other makes of
      their printed texts `vs`. */
  function Compose(n: Node, depth: nat, order: Option<nat>, vs: seq<string>): string
    requires HasChildren(n) && !n.List? && !n.Table?
    requires n.ListItem? ==> depth >= 1
  {
    if n.Paragraph? then ParagraphText(vs)
    else match n
    case Root(_) => Str.Join(vs, "\n")
    case BlockQuote(_) => Quote(Str.Join(vs, "\n"))
    case Heading(d, _) => Str.Repeat("#", d) + " " + Str.Join(vs, "")
    case ListItem(checked, _) => IndentOf(depth - 1) + Marker(order, checked) + " " + Str.Join(vs, "")
    case Emphasis(_) => "*" + Str.Join(vs, "") + "*"
    case Strong(_) => "**" + Str.Join(vs, "") + "**"
    case Delete(_) => "~~" + Str.Join(vs, "") + "~~"
    case FootnoteDefinition(id, _) => "[^" + id + "]: " + Str.Join(vs, "")
    case Link(url, _) =>
      var text := Str.Join(vs, "");
      if text == url then url else "[" + text + "](" + url + ")"
    case TableRow(_) => Row(vs) + "\n"
    case TableCell(_) => Str.Join(vs, "")
    case _ => ""
  }

  /** `print_root` at list depth `depth` with item number `order`. */
  function Render(n: Node, depth: nat, order: Option<nat>): Result<string>
    requires ItemsNested(n, depth)
    decreases n, 0
  {
    if !HasChildren(n) then Leaf(n)
    else if n.List? then RenderItems(n.children, n.ordered, depth)
    else if n.Table? then
      var rows :- TableRows(n.children, SeparatorRow(n.align), depth, order);
      Ok(Str.Join(rows, "\n"))
    else
      var vs :- RenderAll(n.children, depth, order);
      Ok(Compose(n, depth, order, vs))
  }

  /** A node that composes its children prints them all, and fails with
      the first child that fails. */
  lemma RenderComposed(n: Node, depth: nat, order: Option<nat>)
    requires ItemsNested(n, depth) && HasChildren(n) && !n.List? && !n.Table?
    ensures n.ListItem? ==> depth >= 1
    ensures forall i :: 0 <= i < |n.children| ==> ItemsNested(n.children[i], depth)
    ensures var all := RenderAll(n.children, depth, order);
      Render(n, depth, order) == if all.Ok? then Ok(Compose(n, depth, order, all.value)) else Err(all.error)
  {
  }

  /** Every node of `cs`, in order; the first failure is the result. */
  function RenderAll(cs: seq<Node>, depth: nat, order: Option<nat>): (r: Result<seq<string>>)
    requires forall i :: 0 <= i < |cs| ==> ItemsNested(cs[i], depth)
    ensures r.Ok? ==> |r.value| == |cs|
    decreases cs, 1
  {
    if cs == [] then Ok([])
    else
      var init :- RenderAll(cs[..|cs| - 1], depth, order);
      var v :- Render(cs[|cs| - 1], depth, order);
      Ok(init + [v])
  }

  /** The items of a list, each one level deeper and numbered from 1 when
      the list is ordered, concatenated. */
  function RenderItems(cs: seq<Node>, ordered: bool, depth: nat): Result<string>
    requires forall i :: 0 <= i < |cs| ==> ItemsNested(cs[i], depth + 1)
    decreases cs, 1
  {
    if cs == [] then Ok("")
    else
      var init :- RenderItems(cs[..|cs| - 1], ordered, depth);
      var v :- Render(cs[|cs| - 1], depth + 1, ItemOrder(ordered, |cs| - 1));
      Ok(init + v)
  }

  /** The rows a child of a table contributes: one if it is a row, none
      otherwise. */
  function RowPart(c: Node, depth: nat, order: Option<nat>): (r: Result<seq<string>>)
    requires ItemsNested(c, depth)
    ensures r.Ok? ==> |r.value| == (if c.TableRow? then 1 else 0)
    decreases c, 2
  {
    if c.TableRow? then
      var vs :- RenderAll(c.children, depth, order);
      Ok([Row(vs)])
    else Ok([])
  }

  /** The rows of a table: each row child in order, and the separator row
      right after whatever the first child contributes. */
  function TableRows(cs: seq<Node>, sep: string, depth: nat, order: Option<nat>): Result<seq<string>>
    requires forall i :: 0 <= i < |cs| ==> ItemsNested(cs[i], depth)
    decreases cs, 3
  {
    if cs == [] then Ok([])
    else
      var init :- TableRows(cs[..|cs| - 1], sep, depth, order);
      var part :- RowPart(cs[|cs| - 1], depth, order);
      Ok(if |cs| == 1 then init + part + [sep] else init + part)
  }

  /** `AstPrinter::print`: the tree printed from depth 0, trimmed. */
  function PrintedTree(n: Node): Result<string>
    requires ItemsNested(n, 0)
  {
    var s :- Render(n, 0, None);
    Ok(Str.Trim(s))
  }

  // ---------------------------------------------------------------------
  // A failure in a prefix is the failure of the whole

  lemma {:induction false} RenderAllPrefixErr(cs: seq<Node>, k: nat, depth: nat, order: Option<nat>)
    requires k <= |cs| && forall i :: 0 <= i < |cs| ==> ItemsNested(cs[i], depth)
    requires RenderAll(cs[..k], depth, order).Err?
    ensures RenderAll(cs, depth, order) == RenderAll(cs[..k], depth, order)
    decreases |cs|
  {
    if k < |cs| {
      var init := cs[..|cs| - 1];
      assert init[..k] == cs[..k];
      RenderAllPrefixErr(init, k, depth, order);
    } else {
      assert cs[..k] == cs;
    }
  }

  lemma {:induction false} RenderItemsPrefixErr(cs: seq<Node>, k: nat, ordered: bool, depth: nat)
    requires k <= |cs| && forall i :: 0 <= i < |cs| ==> ItemsNested(cs[i], depth + 1)
    requires RenderItems(cs[..k], ordered, depth).Err?
    ensures RenderItems(cs, ordered, depth) == RenderItems(cs[..k], ordered, depth)
    decreases |cs|
  {
    if k < |cs| {
      var init := cs[..|cs| - 1];
      assert init[..k] == cs[..k];
      RenderItemsPrefixErr(init, k, ordered, depth);
    } else {
      assert cs[..k] == cs;
    }
  }

  lemma {:induction false} TableRowsPrefixErr(cs: seq<Node>, k: nat, sep: string, depth: nat, order: Option<nat>)
    requires k <= |cs| && forall i :: 0 <= i < |cs| ==> ItemsNested(cs[i], depth)
    requires TableRows(cs[..k], sep, depth, order).Err?
    ensures TableRows(cs, sep, depth, order) == TableRows(cs[..k], sep, depth, order)
    decreases |cs|
  {
    if k < |cs| {
      var init := cs[..|cs| - 1];
      assert init[..k] == cs[..k];
      TableRowsPrefixErr(init, k, sep, depth, order);
    } else {
      assert cs[..k] == cs;
    }
  }

  /** One more node printed without failure. */
  lemma RenderAllStepOk(cs: seq<Node>, i: nat, depth: nat, order: Option<nat>, vs: seq<string>, v: string)
    requires i < |cs| && forall k :: 0 <= k < |cs| ==> ItemsNested(cs[k], depth)
    requires RenderAll(cs[..i], depth, order) == Ok(vs)
    requires Render(cs[i], depth, order) == Ok(v)
    ensures RenderAll(cs[..i + 1], depth, order) == Ok(vs + [v])
  {
    assert cs[..i + 1][..i] == cs[..i];
  }

  /** A node that fails after a printed prefix fails the whole sequence. */
  lemma RenderAllStepErr(cs: seq<Node>, i: nat, depth: nat, order: Option<nat>, vs: seq<string>)
    requires i < |cs| && forall k :: 0 <= k < |cs| ==> ItemsNested(cs[k], depth)
    requires RenderAll(cs[..i], depth, order) == Ok(vs)
    requires Render(cs[i], depth, order).Err?
    ensures RenderAll(cs, depth, order) == Err(Render(cs[i], depth, order).error)
  {
    assert cs[..i + 1][..i] == cs[..i];
    RenderAllPrefixErr(cs, i + 1, depth, order);
  }

  /** One more list item printed without failure. */
  lemma RenderItemsStepOk(cs: seq<Node>, i: nat, ordered: bool, depth: nat, acc: string, v: string)
    requires i < |cs| && forall k :: 0 <= k < |cs| ==> ItemsNested(cs[k], depth + 1)
    requires RenderItems(cs[..i], ordered, depth) == Ok(acc)
    requires Render(cs[i], depth + 1, ItemOrder(ordered, i)) == Ok(v)
    ensures RenderItems(cs[..i + 1], ordered, depth) == Ok(acc + v)
  {
    assert cs[..i + 1][..i] == cs[..i];
  }

  /** A failing item fails the whole list. */
  lemma RenderItemsStepErr(cs: seq<Node>, i: nat, ordered: bool, depth: nat, acc: string)
    requires i < |cs| && forall k :: 0 <= k < |cs| ==> ItemsNested(cs[k], depth + 1)
    requires RenderItems(cs[..i], ordered, depth) == Ok(acc)
    requires Render(cs[i], depth + 1, ItemOrder(ordered, i)).Err?
    ensures RenderItems(cs, ordered, depth) == Err(Render(cs[i], depth + 1, ItemOrder(ordered, i)).error)
  {
    assert cs[..i + 1][..i] == cs[..i];
    RenderItemsPrefixErr(cs, i + 1, ordered, depth);
  }

  lemma TableRowsStep(cs: seq<Node>, i: nat, sep: string, depth: nat, order: Option<nat>)
    requires i < |cs| && forall k :: 0 <= k < |cs| ==> ItemsNested(cs[k], depth)
    ensures TableRows(cs[..i + 1], sep, depth, order) ==
      (var init :- TableRows(cs[..i], sep, depth, order);
       var part :- RowPart(cs[i], depth, order);
       Ok(if i == 0 then init + part + [sep] else init + part))
  {
    assert cs[..i + 1][..i] == cs[..i];
  }

  /** One more piece of a paragraph: its stripped text, after the glue. */
  lemma SpacedStep(vs: seq<string>, x: string)
    ensures TrimEachSpaces(vs + [x]) == TrimEachSpaces(vs) + [Str.TrimSpaces(x)]
  {
    assert (vs + [x])[..|vs|] == vs;
  }

  /** The paragraph loop's step: the space test on the flag kept from the
      previous piece is `Glue`. */
  lemma ParagraphStep(ts: seq<string>, v: string, s: string, ends: bool)
    requires s == Spaced(ts)
    requires ends == (ts != [] && EndsWithBreak(ts[|ts| - 1]))
    ensures var glue := ts != [] && v != "" && !ends && !StartsWithTrailingSeparator(v);
      && (glue ==> s + " " + v == Spaced(ts + [v]))
      && (!glue ==> s + v == Spaced(ts + [v]))
  {
    assert (ts + [v])[..|ts|] == ts;
    assert s + "" == s;
  }

  // ---------------------------------------------------------------------
  // Which trees fail to print

  /** The tree holds a node kind the printer does not know, somewhere the
      printer looks: a table's children other than rows are never printed. */
  predicate HasUnsupported(n: Node)
    decreases n
  {
    if n.Other? then true
    else if n.Table? then
      exists i, j :: 0 <= i < |n.children| && n.children[i].TableRow? && 0 <= j < |n.children[i].children|
        && HasUnsupported(n.children[i].children[j])
    else HasChildren(n) && exists i :: 0 <= i < |n.children| && HasUnsupported(n.children[i])
  }

  /** Printing fails exactly on a tree holding an unsupported node. */
  lemma {:induction false} RenderErrIff(n: Node, depth: nat, order: Option<nat>)
    requires ItemsNested(n, depth)
    ensures Render(n, depth, order).Err? <==> HasUnsupported(n)
    decreases n, 0
  {
    if !HasChildren(n) {
    } else if n.List? {
      RenderItemsErrIff(n.children, n.ordered, depth);
    } else if n.Table? {
      TableRowsErrIff(n.children, SeparatorRow(n.align), depth, order);
    } else {
      RenderAllErrIff(n.children, depth, order);
    }
  }

  lemma {:induction false} RenderAllErrIff(cs: seq<Node>, depth: nat, order: Option<nat>)
    requires forall i :: 0 <= i < |cs| ==> ItemsNested(cs[i], depth)
    ensures RenderAll(cs, depth, order).Err? <==> exists i :: 0 <= i < |cs| && HasUnsupported(cs[i])
    decreases cs, 1
  {
    if cs != [] {
      var k := |cs| - 1;
      var init := cs[..k];
      RenderAllErrIff(init, depth, order);
      RenderErrIff(cs[k], depth, order);
      assert forall i :: 0 <= i < k ==> init[i] == cs[i];
    }
  }

  lemma {:induction false} RenderItemsErrIff(cs: seq<Node>, ordered: bool, depth: nat)
    requires forall i :: 0 <= i < |cs| ==> ItemsNested(cs[i], depth + 1)
    ensures RenderItems(cs, ordered, depth).Err? <==> exists i :: 0 <= i < |cs| && HasUnsupported(cs[i])
    decreases cs, 1
  {
    if cs != [] {
      var k := |cs| - 1;
      var init := cs[..k];
      RenderItemsErrIff(init, ordered, depth);
      RenderErrIff(cs[k], depth + 1, ItemOrder(ordered, k));
      assert forall i :: 0 <= i < k ==> init[i] == cs[i];
    }
  }

  lemma {:induction false} RowPartErrIff(c: Node, depth: nat, order: Option<nat>)
    requires ItemsNested(c, depth)
    ensures RowPart(c, depth, order).Err? <==>
      c.TableRow? && exists j :: 0 <= j < |c.children| && HasUnsupported(c.children[j])
    decreases c, 2
  {
    if c.TableRow? {
      RenderAllErrIff(c.children, depth, order);
    }
  }

  lemma {:induction false} TableRowsErrIff(cs: seq<Node>, sep: string, depth: nat, order: Option<nat>)
    requires forall i :: 0 <= i < |cs| ==> ItemsNested(cs[i], depth)
    ensures TableRows(cs, sep, depth, order).Err? <==>
      exists i, j :: 0 <= i < |cs| && cs[i].TableRow? && 0 <= j < |cs[i].children| && HasUnsupported(cs[i].children[j])
    decreases cs, 3
  {
    if cs != [] {
      var k := |cs| - 1;
      var init := cs[..k];
      TableRowsErrIff(init, sep, depth, order);
      RowPartErrIff(cs[k], depth, order);
      assert forall i :: 0 <= i < k ==> init[i] == cs[i];
    }
  }

  /** `AstPrinter::print` fails exactly on a tree holding an unsupported
      node. */
  lemma PrintedTreeErrIff(n: Node)
    requires ItemsNested(n, 0)
    ensures PrintedTree(n).Err? <==> HasUnsupported(n)
  {
    RenderErrIff(n, 0, None);
  }

  /** The printed children are the children printed one by one. */
  lemma {:induction false} RenderAllOkElements(cs: seq<Node>, depth: nat, order: Option<nat>)
    requires forall i :: 0 <= i < |cs| ==> ItemsNested(cs[i], depth)
    requires RenderAll(cs, depth, order).Ok?
    ensures forall i :: 0 <= i < |cs| ==> Render(cs[i], depth, order) == Ok(RenderAll(cs, depth, order).value[i])
  {
    if cs != [] {
      var k := |cs| - 1;
      var init := cs[..k];
      RenderAllOkElements(init, depth, order);
      assert forall i :: 0 <= i < k ==> init[i] == cs[i];
    }
  }

  /** A failure is the failure of the first child that fails. */
  lemma {:induction false} RenderAllFirstErr(cs: seq<Node>, depth: nat, order: Option<nat>)
    requires forall i :: 0 <= i < |cs| ==> ItemsNested(cs[i], depth)
    requires RenderAll(cs, depth, order).Err?
    ensures exists i :: (0 <= i < |cs| && Render(cs[i], depth, order) == Err(RenderAll(cs, depth, order).error)
                         && forall j :: 0 <= j < i ==> Render(cs[j], depth, order).Ok?)
  {
    var k := |cs| - 1;
    var init := cs[..k];
    assert forall i :: 0 <= i < k ==> init[i] == cs[i];
    var ri := RenderAll(init, depth, order);
    if ri.Ok? {
      RenderAllErrIff(init, depth, order);
      assert Render(cs[k], depth, order) == Err(RenderAll(cs, depth, order).error);
      forall j | 0 <= j < k ensures Render(cs[j], depth, order).Ok? {
        RenderErrIff(cs[j], depth, order);
      }
    } else {
      RenderAllFirstErr(init, depth, order);
      var i :| 0 <= i < k && Render(init[i], depth, order) == Err(ri.error)
               && forall j :: 0 <= j < i ==> Render(init[j], depth, order).Ok?;
      assert Render(cs[i], depth, order) == Err(RenderAll(cs, depth, order).error);
    }
  }

  /** A text prints as its value, trimmed. */
  lemma TextPrint(v: string)
    ensures ItemsNested(Text(v), 0) && PrintedTree(Text(v)) == Ok(Str.Trim(v))
  {
    assert !HasChildren(Text(v)) && Leaf(Text(v)) == Ok(v);
    assert Render(Text(v), 0, None) == Ok(v);
  }

  /** A paragraph of one text with visible ends prints as that text. */
  lemma ParagraphOfText(v: string)
    requires v != [] && !Str.IsWhitespace(v[0]) && !Str.IsWhitespace(v[|v| - 1])
    ensures ItemsNested(Paragraph([Text(v)]), 0) && PrintedTree(Paragraph([Text(v)])) == Ok(v)
  {
    var p := Paragraph([Text(v)]);
    RenderParagraphOfText(v);
    ParagraphTextOne(v);
    assert Render(p, 0, None) == Ok(v + "\n");
    Str.TrimPadded(v, "\n");
  }

  lemma RenderParagraphOfText(v: string)
    ensures ItemsNested(Paragraph([Text(v)]), 0)
    ensures Render(Paragraph([Text(v)]), 0, None) == Ok(ParagraphText([v]))
  {
    var p := Paragraph([Text(v)]);
    assert ItemsNested(Text(v), 0);
    assert [Text(v)][..0] == [];
    assert Render(Text(v), 0, None) == Ok(v);
    assert RenderAll([Text(v)], 0, None) == Ok([] + [v]);
    assert [] + [v] == [v];
    RenderComposed(p, 0, None);
  }

  lemma ParagraphTextOne(v: string)
    requires v != [] && !Str.IsWhitespace(v[0]) && !Str.IsWhitespace(v[|v| - 1])
    ensures ParagraphText([v]) == v + "\n"
  {
    SpacedOne(v);
    Str.TrimPadded(v, "");
    assert v + "" == v;
  }

  /** One piece with no space at either end is glued as it is. */
  lemma SpacedOne(v: string)
    requires v != [] && v[0] != ' ' && v[|v| - 1] != ' '
    ensures Spaced(TrimEachSpaces([v])) == v
  {
    assert Str.TrimSpaces(v) == v;
    assert [v][..0] == [];
    assert TrimEachSpaces([v]) == [v];
    assert Spaced([v]) == "" + "" + v;
  }

  // ---------------------------------------------------------------------
  // Block quotes

  /** A quoted text ends in a line feed; cut there, its lines are the lines
      of the text without trailing whitespace, each starting with `>`, and
      unquoting and joining them gives that text back. */
  lemma QuoteShape(text: string)
    ensures var q := Quote(text);
      var ls := Str.Split(Str.TrimEnd(text), '\n');
      && q != [] && q[|q| - 1] == '\n'
      && var lines := Str.Split(q[..|q| - 1], '\n');
      && lines == B.QuoteLines(ls)
      && (forall i :: 0 <= i < |lines| ==> lines[i] != [] && lines[i][0] == '>')
      && Str.Join(seq(|lines|, i requires 0 <= i < |lines| => B.Unquote(lines[i])), "\n") == Str.TrimEnd(text)
  {
    var ls := Str.Split(Str.TrimEnd(text), '\n');
    Str.SplitPieces(Str.TrimEnd(text), '\n');
    var qs := B.QuoteLines(ls);
    var q := Quote(text);
    assert q[..|q| - 1] == Str.Join(qs, "\n");
    forall i | 0 <= i < |qs| ensures '\n' !in qs[i] && qs[i] != [] && qs[i][0] == '>' {
      assert qs[i] == B.QuoteLine(ls[i]);
    }
    Str.SplitJoin(qs, '\n');
    var un := seq(|qs|, i requires 0 <= i < |qs| => B.Unquote(qs[i]));
    forall i | 0 <= i < |qs| ensures un[i] == ls[i] {
      B.UnquoteQuoteLine(ls[i]);
    }
    assert un == ls;
  }

  /** An empty quote is one bare `>` line, where the note builder's block
      quote gives only a line feed. */
  lemma QuoteOfEmpty()
    ensures Quote("") == ">\n"
    ensures B.BlockQuote("") == "\n"
  {
    assert Str.TrimEnd("") == "";
    assert Str.Split("", '\n') == [""];
    assert B.QuoteLines([""]) == [">"];
    B.BlockQuoteOfEmpty();
  }

  // ---------------------------------------------------------------------
  // Headings, links and list items

  /** A heading prints as the note builder's heading: its depth in hashes,
      a space, its text; the number of leading hashes gives the depth back. */
  lemma HeadingShape(d: nat, cs: seq<Node>, depth: nat, order: Option<nat>)
    requires ItemsNested(Heading(d, cs), depth) && RenderAll(cs, depth, order).Ok?
    ensures var text := Str.Join(RenderAll(cs, depth, order).value, "");
      var r := Render(Heading(d, cs), depth, order).value;
      && r == B.Heading(d, text)
      && Toc.LeadingCount(r, '#') == d && r[d] == ' ' && r[d + 1..] == text
  {
    var text := Str.Join(RenderAll(cs, depth, order).value, "");
    B.HashesCount(d, " " + text);
    var r := Render(Heading(d, cs), depth, order).value;
    assert r == Str.Repeat("#", d) + (" " + text);
  }

  /** A link whose text is its address prints as the bare address, and
      only then. */
  lemma LinkCollapses(url: string, cs: seq<Node>, depth: nat, order: Option<nat>)
    requires ItemsNested(Link(url, cs), depth) && RenderAll(cs, depth, order).Ok?
    ensures var text := Str.Join(RenderAll(cs, depth, order).value, "");
      var r := Render(Link(url, cs), depth, order).value;
      && (r == url <==> text == url)
      && (text != url ==> r == "[" + text + "](" + url + ")")
  {
    var text := Str.Join(RenderAll(cs, depth, order).value, "");
    var r := Render(Link(url, cs), depth, order).value;
    if text != url {
      assert |r| == |text| + |url| + 4;
    }
  }

  /** The k-th item of a list prints after the items before it, indented
      by the list's depth, and starts with its marker: the number k + 1 in
      an ordered list, else its task box or a dash. */
  lemma ItemMarker(cs: seq<Node>, ordered: bool, depth: nat, k: nat)
    requires k < |cs| && cs[k].ListItem?
    requires forall i :: 0 <= i < |cs| ==> ItemsNested(cs[i], depth + 1)
    requires RenderItems(cs[..k + 1], ordered, depth).Ok?
    ensures var before := RenderItems(cs[..k], ordered, depth);
      var all := RenderItems(cs[..k + 1], ordered, depth).value;
      var head := IndentOf(depth) + Marker(ItemOrder(ordered, k), cs[k].checked) + " ";
      && before.Ok? && |before.value| + |head| <= |all|
      && all[..|before.value|] == before.value
      && all[|before.value|..|before.value| + |head|] == head
      && (ordered ==> Marker(ItemOrder(ordered, k), cs[k].checked) == Str.NatToString(k + 1) + ".")
  {
    assert cs[..k + 1][..k] == cs[..k];
    assert cs[..k + 1][k] == cs[k];
    var before := RenderItems(cs[..k], ordered, depth).value;
    var item := Render(cs[k], depth + 1, ItemOrder(ordered, k)).value;
    var all := RenderItems(cs[..k + 1], ordered, depth).value;
    assert all == before + item;
    ItemHead(cs[k], depth, ItemOrder(ordered, k));
  }

  /** A list item printed one level below `depth` starts with the
      indentation of `depth`, its marker and a space. */
  lemma ItemHead(n: Node, depth: nat, order: Option<nat>)
    requires n.ListItem? && ItemsNested(n, depth + 1) && Render(n, depth + 1, order).Ok?
    ensures var head := IndentOf(depth) + Marker(order, n.checked) + " ";
      |head| <= |Render(n, depth + 1, order).value|
      && Render(n, depth + 1, order).value[..|head|] == head
  {
    RenderComposed(n, depth + 1, order);
    var vs := RenderAll(n.children, depth + 1, order).value;
    var head := IndentOf(depth) + Marker(order, n.checked) + " ";
    assert Compose(n, depth + 1, order, vs) == head + Str.Join(vs, "");
  }

  // ---------------------------------------------------------------------
  // Paragraphs

  /** Words that neither start with punctuation nor end in a space or line
      break are glued with one space each: the pieces joined by spaces. */
  lemma {:induction false} SpacedWords(vs: seq<string>)
    requires forall i :: 0 <= i < |vs| ==>
      vs[i] != [] && !StartsWithTrailingSeparator(vs[i]) && !EndsWithBreak(vs[i])
    ensures Spaced(vs) == Str.Join(vs, " ")
  {
    if |vs| > 1 {
      var init := vs[..|vs| - 1];
      SpacedWords(init);
      Str.JoinAppend(init, vs[|vs| - 1], " ");
      assert init + [vs[|vs| - 1]] == vs;
    } else if |vs| == 1 {
      assert vs[..0] == [];
    }
  }

  /** Gluing adds at most one space between two pieces and drops nothing. */
  lemma {:induction false} SpacedLength(vs: seq<string>)
    requires vs != []
    ensures |Str.Concat(vs)| <= |Spaced(vs)| <= |Str.Concat(vs)| + |vs| - 1
  {
    if |vs| > 1 {
      SpacedLength(vs[..|vs| - 1]);
    } else {
      assert vs[..0] == [];
    }
  }

  // ---------------------------------------------------------------------
  // Tables

  /** The number of row children, as a reference count. */
  function RowCount(cs: seq<Node>): nat {
    if cs == [] then 0 else RowCount(cs[..|cs| - 1]) + (if cs[|cs| - 1].TableRow? then 1 else 0)
  }

  /** A table prints one line per row child plus the separator, and the
      separator comes right after the first child's row (first, when the
      first child is not a row). */
  lemma {:induction false} TableShape(cs: seq<Node>, sep: string, depth: nat, order: Option<nat>)
    requires forall i :: 0 <= i < |cs| ==> ItemsNested(cs[i], depth)
    requires TableRows(cs, sep, depth, order).Ok?
    ensures var rows := TableRows(cs, sep, depth, order).value;
      && |rows| == RowCount(cs) + (if cs == [] then 0 else 1)
      && (cs != [] ==> var h := if cs[0].TableRow? then 1 else 0; h < |rows| && rows[h] == sep)
  {
    if cs != [] {
      var k := |cs| - 1;
      var init := cs[..k];
      TableShape(init, sep, depth, order);
      var part := RowPart(cs[k], depth, order).value;
      if k == 0 {
        assert init == [];
        assert TableRows(cs, sep, depth, order).value == part + [sep];
      } else {
        assert init[0] == cs[0];
      }
    }
  }

  // ---------------------------------------------------------------------
  // The printer

  class AstPrinter {
    /** How many lists enclose the node being printed. */
    var depth: nat
    /** The number of the list item being printed, inside an ordered list. */
    var order: Option<nat>

    constructor()
      ensures depth == 0 && order == None
    {
      depth := 0;
      order := None;
    }

    /** `AstPrinter::print`. */
    static method Print(n: Node) returns (r: Result<string>)
      requires ItemsNested(n, 0)
      ensures r == PrintedTree(n)
    {
      var printer := new AstPrinter();
      var s := printer.PrintRoot(n);
      if s.Err? {
        return Err(s.error);
      }
      r := Ok(Str.Trim(s.value));
    }

    /** `print_root`: prints what `Render` says and leaves the depth and
        the item number as it found them, whether it fails or not. */
    method PrintRoot(n: Node) returns (r: Result<string>)
      requires ItemsNested(n, depth)
      modifies this
      ensures depth == old(depth) && order == old(order)
      ensures r == Render(n, old(depth), old(order))
      decreases n, 2
    {
      if !HasChildren(n) {
        r := Leaf(n);
      } else if n.List? {
        r := PrintList(n.ordered, n.children);
      } else if n.Table? {
        r := PrintTable(n.align, n.children);
      } else {
        r := PrintParent(n);
      }
    }

    /** A node that prints its children and composes their texts; the
        children of a paragraph are glued by `PrintParagraph`. */
    method PrintParent(n: Node) returns (r: Result<string>)
      requires ItemsNested(n, depth) && HasChildren(n) && !n.List? && !n.Table?
      modifies this
      ensures depth == old(depth) && order == old(order)
      ensures r == Render(n, old(depth), old(order))
      decreases n, 1
    {
      RenderComposed(n, depth, order);
      if n.Paragraph? {
        r := PrintParagraph(n.children);
      } else {
        var vs := PrintAll(n.children);
        r := if vs.Ok? then Ok(Compose(n, depth, order, vs.value)) else Err(vs.error);
      }
    }

    /** The children printed in order, the first failure being the
        result: `map_children` before its join, and the cells of a row. */
    method PrintAll(cs: seq<Node>) returns (r: Result<seq<string>>)
      requires forall i :: 0 <= i < |cs| ==> ItemsNested(cs[i], depth)
      modifies this
      ensures depth == old(depth) && order == old(order)
      ensures r == RenderAll(cs, old(depth), old(order))
      decreases cs, 1
    {
      ghost var d0, o0 := depth, order;
      var acc: seq<string> := [];
      var i := 0;
      while i < |cs|
        invariant 0 <= i <= |cs|
        invariant depth == d0 && order == o0
        invariant RenderAll(cs[..i], d0, o0) == Ok(acc)
      {
        var v := PrintRoot(cs[i]);
        if v.Err? {
          RenderAllStepErr(cs, i, d0, o0, acc);
          return Err(v.error);
        }
        RenderAllStepOk(cs, i, d0, o0, acc, v.value);
        acc := acc + [v.value];
        i := i + 1;
      }
      assert cs[..i] == cs;
      r := Ok(acc);
    }

    /** A list: each item one level deeper, numbered from 1 when the list
        is ordered; the depth and the number are put back after each item. */
    method PrintList(ordered: bool, cs: seq<Node>) returns (r: Result<string>)
      requires forall i :: 0 <= i < |cs| ==> ItemsNested(cs[i], depth + 1)
      modifies this
      ensures depth == old(depth) && order == old(order)
      ensures r == RenderItems(cs, ordered, old(depth))
      decreases cs, 1
    {
      ghost var d0, o0 := depth, order;
      var acc := "";
      var i := 0;
      while i < |cs|
        invariant 0 <= i <= |cs|
        invariant depth == d0 && order == o0
        invariant RenderItems(cs[..i], ordered, d0) == Ok(acc)
      {
        depth := depth + 1;
        var saved := order;
        order := if ordered then Some(i + 1) else None;
        var v := PrintRoot(cs[i]);
        order := saved;
        depth := depth - 1;
        if v.Err? {
          RenderItemsStepErr(cs, i, ordered, d0, acc);
          return Err(v.error);
        }
        RenderItemsStepOk(cs, i, ordered, d0, acc, v.value);
        acc := acc + v.value;
        i := i + 1;
      }
      assert cs[..i] == cs;
      r := Ok(acc);
    }

    /** A paragraph: each child printed and stripped of spaces, a space put
        between two pieces where `Glue` says so, the whole trimmed. */
    method PrintParagraph(cs: seq<Node>) returns (r: Result<string>)
      requires forall i :: 0 <= i < |cs| ==> ItemsNested(cs[i], depth)
      modifies this
      ensures depth == old(depth) && order == old(order)
      ensures var all := RenderAll(cs, old(depth), old(order));
        r == if all.Ok? then Ok(ParagraphText(all.value)) else Err(all.error)
      decreases cs, 1
    {
      ghost var d0, o0 := depth, order;
      var endsWithSeparators := false;
      var s := "";
      ghost var vs: seq<string> := [];
      ghost var ts: seq<string> := [];
      var i := 0;
      while i < |cs|
        invariant 0 <= i <= |cs|
        invariant depth == d0 && order == o0
        invariant RenderAll(cs[..i], d0, o0) == Ok(vs)
        invariant |ts| == i && ts == TrimEachSpaces(vs)
        invariant s == Spaced(ts)
        invariant endsWithSeparators == (ts != [] && EndsWithBreak(ts[|ts| - 1]))
      {
        var res := PrintRoot(cs[i]);
        if res.Err? {
          RenderAllStepErr(cs, i, d0, o0, vs);
          return Err(res.error);
        }
        RenderAllStepOk(cs, i, d0, o0, vs, res.value);
        SpacedStep(vs, res.value);
        var v := Str.TrimSpaces(res.value);
        ParagraphStep(ts, v, s, endsWithSeparators);
        if i > 0 && v != "" && !endsWithSeparators && !StartsWithTrailingSeparator(v) {
          s := s + " ";
        }
        s := s + v;
        endsWithSeparators := EndsWithBreak(v);
        vs := vs + [res.value];
        ts := ts + [v];
        i := i + 1;
      }
      assert cs[..i] == cs;
      r := Ok(Str.Trim(s) + "\n");
    }

    /** A table: the row children printed as rows, the separator row after
        the first child, all joined by line feeds. */
    method PrintTable(align: seq<AlignKind>, cs: seq<Node>) returns (r: Result<string>)
      requires forall i :: 0 <= i < |cs| ==> ItemsNested(cs[i], depth)
      modifies this
      ensures depth == old(depth) && order == old(order)
      ensures var rows := TableRows(cs, SeparatorRow(align), old(depth), old(order));
        r == if rows.Ok? then Ok(Str.Join(rows.value, "\n")) else Err(rows.error)
      decreases cs, 1
    {
      var sep := SeparatorRow(align);
      var rows: seq<string> := [];
      var i := 0;
      while i < |cs|
        invariant 0 <= i <= |cs|
        invariant depth == old(depth) && order == old(order)
        invariant TableRows(cs[..i], sep, depth, order) == Ok(rows)
      {
        var c := cs[i];
        TableRowsStep(cs, i, sep, depth, order);
        if c.TableRow? {
          var vs := PrintAll(c.children);
          if vs.Err? {
            assert RowPart(c, depth, order).Err?;
            TableRowsPrefixErr(cs, i + 1, sep, depth, order);
            return Err(vs.error);
          }
          assert RowPart(c, depth, order) == Ok([Row(vs.value)]);
          rows := rows + [Row(vs.value)];
        } else {
          assert RowPart(c, depth, order) == Ok([]);
          assert rows + [] == rows;
        }
        if i == 0 {
          rows := rows + [sep];
        }
        i := i + 1;
      }
      assert cs[..i] == cs;
      r := Ok(Str.Join(rows, "\n"));
    }
  }
}
