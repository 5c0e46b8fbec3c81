/** The part of the markdown syntax tree (the `markdown` crate's `mdast`)
    that the formatter reads. Positions and the node kinds the printer does
    not know are not modelled; the latter are kept as `Other`, named by
    their kind. */
module Mdast {
  import opened Wrappers

  /** `mdast::AlignKind`; `NoAlign` is the crate's `AlignKind::None`. */
  datatype AlignKind = Left | Right | Center | NoAlign

  datatype Node =
    | Root(children: seq<Node>)
    | BlockQuote(children: seq<Node>)
    | FootnoteDefinition(identifier: string, children: seq<Node>)
    | List(ordered: bool, children: seq<Node>)
    | Yaml(value: string)
    | Break
    | InlineCode(value: string)
    | InlineMath(value: string)
    | Delete(children: seq<Node>)
    | Emphasis(children: seq<Node>)
    | FootnoteReference(identifier: string)
    | Html(value: string)
    | Image(alt: string, url: string)
    | Link(url: string, children: seq<Node>)
    | Strong(children: seq<Node>)
    | Text(value: string)
    | Code(lang: Option<string>, meta: Option<string>, value: string)
    | Math(value: string)
    | Heading(depth: nat, children: seq<Node>)
    | Table(align: seq<AlignKind>, children: seq<Node>)
    | ThematicBreak
    | TableRow(children: seq<Node>)
    | TableCell(children: seq<Node>)
    | ListItem(checked: Option<bool>, children: seq<Node>)
    | Paragraph(children: seq<Node>)
    | Other(kind: string)

  /** The node kinds that carry children. */
  predicate HasChildren(n: Node) {
    || n.Root? || n.BlockQuote? || n.FootnoteDefinition? || n.List?
    || n.Delete? || n.Emphasis? || n.Link? || n.Strong? || n.Heading?
    || n.Table? || n.TableRow? || n.TableCell? || n.ListItem? || n.Paragraph?
  }

  /** Every list item sits inside a list: a tree the markdown parser
      produces. `depth` counts the lists around `n`. */
  predicate ItemsNested(n: Node, depth: nat)
    decreases n
  {
    if n.List? then forall i :: 0 <= i < |n.children| ==> ItemsNested(n.children[i], depth + 1)
    else if n.ListItem? then depth >= 1 && forall i :: 0 <= i < |n.children| ==> ItemsNested(n.children[i], depth)
    else if HasChildren(n) then forall i :: 0 <= i < |n.children| ==> ItemsNested(n.children[i], depth)
    else true
  }
}
