/** The outline (table of contents) recognizer: each line of an outline is
    classified as a heading line, a list line or neither, the recognized
    lines are nested into a forest, and the forest is flattened pre-order
    into (depth, label) entries. */
module Toc {
  import opened Wrappers
  import opened Text

  /** A node of the outline forest. */
  datatype Node = Node(value: string, children: seq<Node>)

  /** One flattened outline entry: its depth (the roots are at 1) and label. */
  datatype FlattenNode = FlattenNode(indent: nat, value: string)

  /** The state `(indent, skip, prev)` threaded through the classifiers'
      character folds. */
  datatype Scan = Scan(indent: nat, skip: nat, prev: char)

  /** `FoldWhile::Continue` / `FoldWhile::Done`. */
  datatype Step = Continue(next: Scan) | Done(last: Scan)

  /** `Iterator::fold_while(..).into_inner()` over the characters of `s`. */
  function FoldWhile(s: string, st: Scan, step: (Scan, char) -> Step): Scan {
    if s == [] then st
    else match step(st, s[0])
      case Continue(next) => FoldWhile(s[1..], next, step)
      case Done(last) => last
  }

  /** `s.chars().skip(n).collect()`. */
  function Skip(s: string, n: nat): string {
    if n <= |s| then s[n..] else ""
  }

  function BlockStep(st: Scan, c: char): Step {
    if st.prev == ' ' && c == '#' then Continue(Scan(st.indent + 1, st.skip + 1, c))
    else if st.prev == '#' && c == '#' then Continue(Scan(st.indent + 1, st.skip + 1, c))
    else if st.prev == '#' && c == ' ' then Done(Scan(st.indent, st.skip + 1, '#'))
    else Done(Scan(0, 0, ' '))
  }

  function BulletStep(st: Scan, c: char): Step {
    if st.prev == ' ' && c == ' ' then Continue(Scan(st.indent + 1, st.skip + 1, c))
    else if st.prev == ' ' && c == '-' then Continue(Scan(st.indent, st.skip + 1, c))
    else if st.prev == '-' && c == ' ' then Done(Scan(st.indent, st.skip + 1, '-'))
    else Done(Scan(0, 0, ' '))
  }

  predicate IsDigit(c: char) {
    '0' <= c <= '9'
  }

  function OrderStep(st: Scan, c: char): Step {
    if st.prev == ' ' && c == ' ' then Continue(Scan(st.indent + 1, st.skip + 1, c))
    else if st.prev == ' ' && IsDigit(c) then Continue(Scan(st.indent, st.skip + 1, 'n'))
    else if st.prev == 'n' && c == '.' then Continue(Scan(st.indent, st.skip + 1, '.'))
    else if st.prev == '.' && c == ' ' then Done(Scan(st.indent, st.skip + 1, '.'))
    else Done(Scan(0, 0, ' '))
  }

  /** A classified outline line. */
  datatype Line = Unknown | Block(indent: nat, value: string) | List(indent: nat, value: string) {

    /** `Line::parse`: heading first, then bullet, then ordered item. */
    static function Parse(s: string): Line {
      match ParseBlock(s)
      case Some(line) => line
      case None =>
        match ParseBulletList(s)
        case Some(line) => line
        case None =>
          match ParseOrderList(s)
          case Some(line) => line
          case None => Unknown
    }

    static function ParseBlock(s: string): Option<Line> {
      var st := FoldWhile(s, Scan(1, 0, ' '), BlockStep);
      if st.prev == '#' then Some(Block(st.indent, Skip(s, st.skip))) else None
    }

    static function ParseBulletList(s: string): Option<Line> {
      var st := FoldWhile(s, Scan(1, 0, ' '), BulletStep);
      if st.prev == '-' then Some(List(st.indent, Skip(s, st.skip))) else None
    }

    static function ParseOrderList(s: string): Option<Line> {
      var st := FoldWhile(s, Scan(1, 0, ' '), OrderStep);
      if st.prev == '.' then Some(List(st.indent, Skip(s, st.skip))) else None
    }
  }

  // ---------------------------------------------------------------------
  // Reference shapes of the three kinds of line

  /** Length of the run of `c` that starts `s`. */
  function LeadingCount(s: string, c: char): (n: nat)
    ensures n <= |s|
    ensures forall i :: 0 <= i < n ==> s[i] == c
    ensures n == |s| || s[n] != c
  {
    if s != [] && s[0] == c then 1 + LeadingCount(s[1..], c) else 0
  }

  /** k >= 1 `#`s, then a space or the end of the line. */
  predicate IsHeadingLine(s: string) {
    var h := LeadingCount(s, '#');
    1 <= h && (h == |s| || s[h] == ' ')
  }

  /** n spaces, `-`, then a space or the end of the line. */
  predicate IsBulletLine(s: string) {
    var n := LeadingCount(s, ' ');
    n < |s| && s[n] == '-' && (n + 1 == |s| || s[n + 1] == ' ')
  }

  /** n spaces, exactly one digit, `.`, then a space or the end of the line. */
  predicate IsOrderedLine(s: string) {
    var n := LeadingCount(s, ' ');
    n + 1 < |s| && IsDigit(s[n]) && s[n + 1] == '.' && (n + 2 == |s| || s[n + 2] == ' ')
  }

  lemma {:induction false} BlockAfterHash(t: string, i: nat, k: nat)
    ensures var h := LeadingCount(t, '#');
      FoldWhile(t, Scan(i, k, '#'), BlockStep) ==
        if h == |t| then Scan(i + h, k + h, '#')
        else if t[h] == ' ' then Scan(i + h, k + h + 1, '#')
        else Scan(0, 0, ' ')
  {
    if t != [] && t[0] == '#' {
      BlockAfterHash(t[1..], i + 1, k + 1);
    }
  }

  /** A heading line of k `#`s gives `Block(k + 1, text after the space)`;
      every other line is not a heading line. */
  lemma {:induction false} ParseBlockShape(s: string)
    ensures var h := LeadingCount(s, '#');
      Line.ParseBlock(s) == if IsHeadingLine(s) then Some(Block(h + 1, Skip(s, h + 1))) else None
  {
    if s != [] && s[0] == '#' {
      var h := LeadingCount(s, '#');
      assert FoldWhile(s, Scan(1, 0, ' '), BlockStep) == FoldWhile(s[1..], Scan(2, 1, '#'), BlockStep);
      BlockAfterHash(s[1..], 2, 1);
      assert h == 1 + LeadingCount(s[1..], '#');
      if h == |s| {
        assert Skip(s, h) == Skip(s, h + 1) == "";
      }
    }
  }

  lemma {:induction false} SpacesThen(t: string, i: nat, k: nat, step: (Scan, char) -> Step)
    requires step == BulletStep || step == OrderStep
    ensures var n := LeadingCount(t, ' ');
      FoldWhile(t, Scan(i, k, ' '), step) == FoldWhile(t[n..], Scan(i + n, k + n, ' '), step)
  {
    if t != [] && t[0] == ' ' {
      var m := LeadingCount(t[1..], ' ');
      assert LeadingCount(t, ' ') == m + 1;
      SpaceStep(i, k, step);
      assert FoldWhile(t, Scan(i, k, ' '), step) == FoldWhile(t[1..], Scan(i + 1, k + 1, ' '), step);
      SpacesThen(t[1..], i + 1, k + 1, step);
      assert t[1..][m..] == t[m + 1..];
    }
  }

  /** A space after a space is one more column of indent. */
  lemma SpaceStep(i: nat, k: nat, step: (Scan, char) -> Step)
    requires step == BulletStep || step == OrderStep
    ensures step(Scan(i, k, ' '), ' ') == Continue(Scan(i + 1, k + 1, ' '))
  {
  }

  /** n spaces, `-` and a space give `List(n + 1, text after the space)`. */
  lemma {:induction false} ParseBulletShape(s: string)
    ensures var n := LeadingCount(s, ' ');
      Line.ParseBulletList(s) == if IsBulletLine(s) then Some(List(n + 1, Skip(s, n + 2))) else None
  {
    var n := LeadingCount(s, ' ');
    SpacesThen(s, 1, 0, BulletStep);
    var t := s[n..];
    if t != [] && t[0] == '-' {
      assert FoldWhile(t, Scan(1 + n, n, ' '), BulletStep) == FoldWhile(t[1..], Scan(1 + n, n + 1, '-'), BulletStep);
    }
  }

  /** n spaces, one digit, `.` and a space give `List(n + 1, text after the space)`;
      a marker of two or more digits is not a list line. */
  lemma {:induction false} ParseOrderShape(s: string)
    ensures var n := LeadingCount(s, ' ');
      Line.ParseOrderList(s) == if IsOrderedLine(s) then Some(List(n + 1, Skip(s, n + 3))) else None
  {
    var n := LeadingCount(s, ' ');
    SpacesThen(s, 1, 0, OrderStep);
    var t := s[n..];
    if t != [] && IsDigit(t[0]) {
      var st1 := Scan(1 + n, n + 1, 'n');
      assert FoldWhile(t, Scan(1 + n, n, ' '), OrderStep) == FoldWhile(t[1..], st1, OrderStep);
      if |t| > 1 && t[1] == '.' {
        assert FoldWhile(t[1..], st1, OrderStep) == FoldWhile(t[2..], Scan(1 + n, n + 2, '.'), OrderStep);
      }
    }
  }

  /** Classification tries heading, then bullet, then ordered item; a line of
      none of these shapes is `Unknown`. Recognized lines have depth >= 1. */
  lemma LineParseShape(s: string)
    ensures IsHeadingLine(s) ==> Line.Parse(s) == Block(LeadingCount(s, '#') + 1, Skip(s, LeadingCount(s, '#') + 1))
    ensures !IsHeadingLine(s) && IsBulletLine(s) ==>
      Line.Parse(s) == List(LeadingCount(s, ' ') + 1, Skip(s, LeadingCount(s, ' ') + 2))
    ensures !IsHeadingLine(s) && !IsBulletLine(s) && IsOrderedLine(s) ==>
      Line.Parse(s) == List(LeadingCount(s, ' ') + 1, Skip(s, LeadingCount(s, ' ') + 3))
    ensures Line.Parse(s).Unknown? <==> !IsHeadingLine(s) && !IsBulletLine(s) && !IsOrderedLine(s)
    ensures Line.Parse(s).Block? ==> Line.Parse(s).indent >= 2
    ensures Line.Parse(s).List? ==> Line.Parse(s).indent >= 1
  {
    ParseBlockShape(s);
    ParseBulletShape(s);
    ParseOrderShape(s);
  }

  // ---------------------------------------------------------------------
  // Nesting

  /** What `Toc::parse_line(base, parent, lines, i)` returns: the index where
      it stopped and the nodes it built. A heading line nests under the
      current parent only if its level is deeper, and its children use its
      level as both base and parent; a list line measures `base + indent`
      against the parent and hands the current parent down as the new base. */
  function ParseForest(base: nat, parent: nat, lines: seq<Line>, i: nat): (r: (nat, seq<Node>))
    requires i <= |lines|
    ensures i <= r.0 <= |lines|
    decreases |lines| - i
  {
    if i == |lines| then (i, [])
    else match lines[i]
      case Unknown => ParseForest(base, parent, lines, i + 1)
      case Block(indent, value) =>
        if indent <= parent then (i, [])
        else
          var (j, children) := ParseForest(indent, indent, lines, i + 1);
          var (k, rest) := ParseForest(base, parent, lines, j);
          (k, [Node(value, children)] + rest)
      case List(indent, value) =>
        if base + indent <= parent then (i, [])
        else
          var (j, children) := ParseForest(parent, base + indent, lines, i + 1);
          var (k, rest) := ParseForest(base, parent, lines, j);
          (k, [Node(value, children)] + rest)
  }

  lemma StepAppend(res: seq<Node>, n: Node, rest: seq<Node>)
    ensures res + ([n] + rest) == (res + [n]) + rest
  {
  }

  /** `Toc::parse_line`: the while loop over the index `i`, pushing into `res`. */
  method ParseLine(base: nat, parent: nat, lines: seq<Line>, index: nat) returns (next: nat, res: seq<Node>)
    requires index <= |lines|
    ensures next == ParseForest(base, parent, lines, index).0
    ensures res == ParseForest(base, parent, lines, index).1
    decreases |lines| - index, 1
  {
    res := [];
    var i := index;
    while i < |lines|
      invariant index <= i <= |lines|
      invariant ParseForest(base, parent, lines, index).0 == ParseForest(base, parent, lines, i).0
      invariant ParseForest(base, parent, lines, index).1 == res + ParseForest(base, parent, lines, i).1
      decreases |lines| - i
    {
      var j, node;
      match lines[i] {
        case Block(indent, _) =>
          if indent <= parent {
            break;
          }
          j, node := ParseNode(base, parent, lines, i, indent, indent);
        case List(indent, _) =>
          if base + indent <= parent {
            break;
          }
          j, node := ParseNode(base, parent, lines, i, parent, base + indent);
        case Unknown =>
          i := i + 1;
          continue;
      }
      StepAppend(res, node, ParseForest(base, parent, lines, j).1);
      i := j;
      res := res + [node];
    }
    next := i;
  }

  /** A line of `parse_line`'s loop that opens a node: the recursive call
      with the child frame `(cb, cp)` reads the node's children. */
  method ParseNode(base: nat, parent: nat, lines: seq<Line>, i: nat, cb: nat, cp: nat) returns (j: nat, node: Node)
    requires i < |lines| && Opens(base, parent, lines[i], cb, cp)
    ensures i < j <= |lines|
    ensures ParseForest(base, parent, lines, i)
      == (ParseForest(base, parent, lines, j).0, [node] + ParseForest(base, parent, lines, j).1)
    decreases |lines| - i, 0
  {
    ParseForestNode(base, parent, lines, i, cb, cp);
    var children;
    j, children := ParseLine(cb, cp, lines, i + 1);
    node := Node(lines[i].value, children);
  }

  /** `Toc::parse` over an outline already split into lines (the crate's
      `Toc::parse_lines`). It never fails. */
  function ParseLines(lines: seq<string>): seq<Node> {
    var classified := seq(|lines|, k requires 0 <= k < |lines| => Line.Parse(lines[k]));
    ParseForest(0, 0, classified, 0).1
  }

  /** `Toc::parse`: the outline text is split with `str::lines`. */
  function Parse(s: string): seq<Node> {
    ParseLines(Lines(s))
  }

  // ---------------------------------------------------------------------
  // Flattening

  /** `Node::flatten_inner`: the node at `indent`, then its children's
      entries one level deeper, depth-first. */
  function Flatten(n: Node, indent: nat): (r: seq<FlattenNode>)
    ensures r != [] && r[0] == FlattenNode(indent, n.value)
    decreases n, 1
  {
    [FlattenNode(indent, n.value)] + FlattenAll(n.children, indent + 1)
  }

  /** The entries of a sequence of sibling trees, in order. */
  function FlattenAll(ns: seq<Node>, indent: nat): seq<FlattenNode>
    decreases ns, 0
  {
    if ns == [] then [] else Flatten(ns[0], indent) + FlattenAll(ns[1..], indent)
  }

  /** `Node::flatten`: the root is at depth 1. */
  function NodeFlatten(n: Node): seq<FlattenNode> {
    Flatten(n, 1)
  }

  /** `Toc::flatten_ref`: the roots' entries, concatenated. */
  function FlattenRef(toc: seq<Node>): seq<FlattenNode> {
    FlattenAll(toc, 1)
  }

  lemma {:induction false} FlattenAllAppend(ns: seq<Node>, n: Node, indent: nat)
    ensures FlattenAll(ns + [n], indent) == FlattenAll(ns, indent) + Flatten(n, indent)
  {
    if ns == [] {
      assert [n][1..] == [];
    } else {
      assert (ns + [n])[1..] == ns[1..] + [n];
      FlattenAllAppend(ns[1..], n, indent);
    }
  }

  /** `Node::flatten_inner`: pushes the entries of `n` onto `values`. */
  method FlattenInner(n: Node, indent: nat, values: seq<FlattenNode>) returns (out: seq<FlattenNode>)
    ensures out == values + Flatten(n, indent)
    decreases n
  {
    out := values + [FlattenNode(indent, n.value)];
    for k := 0 to |n.children|
      invariant out == values + [FlattenNode(indent, n.value)] + FlattenAll(n.children[..k], indent + 1)
    {
      out := FlattenInner(n.children[k], indent + 1, out);
      FlattenAllAppend(n.children[..k], n.children[k], indent + 1);
      assert n.children[..k + 1] == n.children[..k] + [n.children[k]];
    }
    assert n.children[..|n.children|] == n.children;
  }

  /** The outline shape of a flattened forest whose roots are at `d`: every
      entry is at depth >= d, the first is at d, and no entry is more than
      one level deeper than its predecessor. */
  predicate OutlineFrom(fs: seq<FlattenNode>, d: nat) {
    && (fs != [] ==> fs[0].indent == d)
    && (forall k :: 0 <= k < |fs| ==> fs[k].indent >= d)
    && (forall k :: 0 < k < |fs| ==> fs[k].indent <= fs[k - 1].indent + 1)
  }

  lemma {:induction false} FlattenIsOutline(n: Node, d: nat)
    ensures OutlineFrom(Flatten(n, d), d)
    decreases n, 1
  {
    FlattenAllIsOutline(n.children, d + 1);
  }

  lemma {:induction false} FlattenAllIsOutline(ns: seq<Node>, d: nat)
    ensures OutlineFrom(FlattenAll(ns, d), d)
    decreases ns, 0
  {
    if ns != [] {
      FlattenIsOutline(ns[0], d);
      FlattenAllIsOutline(ns[1..], d);
      var a: seq<FlattenNode>, b: seq<FlattenNode> := Flatten(ns[0], d), FlattenAll(ns[1..], d);
      assert FlattenAll(ns, d) == a + b;
      forall k | 0 < k < |a + b|
        ensures (a + b)[k].indent <= (a + b)[k - 1].indent + 1
      {
        if k > |a| {
          assert (a + b)[k] == b[k - |a|] && (a + b)[k - 1] == b[k - 1 - |a|];
        } else if k < |a| {
          assert (a + b)[k] == a[k] && (a + b)[k - 1] == a[k - 1];
        }
      }
    }
  }

  /** The flattened outline of any forest is a valid outline rooted at depth 1. */
  lemma FlattenRefIsOutline(toc: seq<Node>)
    ensures OutlineFrom(FlattenRef(toc), 1)
  {
    FlattenAllIsOutline(toc, 1);
  }

  // ---------------------------------------------------------------------
  // Every recognized line becomes exactly one entry, in input order

  function Labels(fs: seq<FlattenNode>): seq<string> {
    if fs == [] then [] else [fs[0].value] + Labels(fs[1..])
  }

  /** The labels of the recognized lines, in order; unknown lines are skipped. */
  function LineLabels(lines: seq<Line>): seq<string> {
    if lines == [] then []
    else (if lines[0].Unknown? then [] else [lines[0].value]) + LineLabels(lines[1..])
  }

  lemma {:induction false} LabelsAppend(a: seq<FlattenNode>, b: seq<FlattenNode>)
    ensures Labels(a + b) == Labels(a) + Labels(b)
  {
    if a != [] {
      assert (a + b)[1..] == a[1..] + b;
      LabelsAppend(a[1..], b);
    } else {
      assert a + b == b;
    }
  }

  lemma {:induction false} LineLabelsAppend(a: seq<Line>, b: seq<Line>)
    ensures LineLabels(a + b) == LineLabels(a) + LineLabels(b)
  {
    if a != [] {
      assert (a + b)[1..] == a[1..] + b;
      LineLabelsAppend(a[1..], b);
    } else {
      assert a + b == b;
    }
  }

  /** Line `l` opens a node under base `base` and parent `parent`, whose
      children are parsed with base `cb` and parent `cp`. */
  predicate Opens(base: nat, parent: nat, l: Line, cb: nat, cp: nat) {
    (l.Block? && l.indent > parent && cb == l.indent && cp == l.indent)
    || (l.List? && base + l.indent > parent && cb == parent && cp == base + l.indent)
  }

  /** A line that opens a node: the node holds the lines parsed after it
      with the child frame, and its siblings follow from where they stop. */
  lemma ParseForestNode(base: nat, parent: nat, lines: seq<Line>, i: nat, cb: nat, cp: nat)
    requires i < |lines| && Opens(base, parent, lines[i], cb, cp)
    ensures var (j, children) := ParseForest(cb, cp, lines, i + 1);
      var (k, rest) := ParseForest(base, parent, lines, j);
      ParseForest(base, parent, lines, i) == (k, [Node(lines[i].value, children)] + rest)
  {
  }

  /** A line that does not open a node stops the parse, or is skipped. */
  lemma ParseForestOther(base: nat, parent: nat, lines: seq<Line>, i: nat)
    requires i < |lines| && forall cb, cp :: !Opens(base, parent, lines[i], cb, cp)
    ensures lines[i].Unknown? ==> ParseForest(base, parent, lines, i) == ParseForest(base, parent, lines, i + 1)
    ensures !lines[i].Unknown? ==> ParseForest(base, parent, lines, i) == (i, [])
  {
    match lines[i]
    case Unknown =>
    case Block(indent, _) => assert !Opens(base, parent, lines[i], indent, indent);
    case List(indent, _) => assert !Opens(base, parent, lines[i], parent, base + indent);
  }

  /** The child frame of a line that opens a node. */
  function ChildFrame(base: nat, parent: nat, l: Line): (r: (nat, nat))
    ensures (l.Block? && l.indent > parent) || (l.List? && base + l.indent > parent)
      ==> Opens(base, parent, l, r.0, r.1)
  {
    if l.Block? then (l.indent, l.indent) else if l.List? then (parent, base + l.indent) else (base, parent)
  }

  /** The nodes built from `lines[i..j]` carry, pre-order, exactly the labels
      of the recognized lines among `lines[i..j]`, in the same order. */
  lemma {:induction false} ParseKeepsLineOrder(base: nat, parent: nat, lines: seq<Line>, i: nat, d: nat)
    requires i <= |lines|
    ensures Labels(FlattenAll(ParseForest(base, parent, lines, i).1, d))
      == LineLabels(lines[i..ParseForest(base, parent, lines, i).0])
    decreases |lines| - i, 1
  {
    if i < |lines| {
      var (cb, cp) := ChildFrame(base, parent, lines[i]);
      if Opens(base, parent, lines[i], cb, cp) {
        NodeKeepsLineOrder(base, parent, lines, i, cb, cp, d);
      } else {
        assert forall cb, cp :: !Opens(base, parent, lines[i], cb, cp);
        ParseForestOther(base, parent, lines, i);
        if lines[i].Unknown? {
          var k := ParseForest(base, parent, lines, i + 1).0;
          ParseKeepsLineOrder(base, parent, lines, i + 1, d);
          UnknownLabel(lines, i, k);
        }
      }
    }
  }

  /** An unknown line adds no label. */
  lemma UnknownLabel(lines: seq<Line>, i: nat, k: nat)
    requires i < k <= |lines| && lines[i].Unknown?
    ensures LineLabels(lines[i..k]) == LineLabels(lines[i + 1..k])
  {
    assert lines[i..k][0] == lines[i] && lines[i..k][1..] == lines[i + 1..k];
  }

  /** `ParseKeepsLineOrder` at a line that opens a node. */
  lemma {:induction false} NodeKeepsLineOrder(base: nat, parent: nat, lines: seq<Line>, i: nat, cb: nat, cp: nat, d: nat)
    requires i < |lines| && Opens(base, parent, lines[i], cb, cp)
    ensures Labels(FlattenAll(ParseForest(base, parent, lines, i).1, d))
      == LineLabels(lines[i..ParseForest(base, parent, lines, i).0])
    decreases |lines| - i, 0
  {
    var (j, children) := ParseForest(cb, cp, lines, i + 1);
    ParseForestNode(base, parent, lines, i, cb, cp);
    ParseKeepsLineOrder(cb, cp, lines, i + 1, d + 1);
    ParseKeepsLineOrder(base, parent, lines, j, d);
    var (k, rest) := ParseForest(base, parent, lines, j);
    NodeThenRest(lines, i, j, k, lines[i].value, children, rest, d);
  }

  /** The label bookkeeping for one node built from `lines[i]` (children from
      `lines[i + 1..j]`) followed by siblings `rest` built from `lines[j..k]`. */
  lemma NodeThenRest(lines: seq<Line>, i: nat, j: nat, k: nat,
                     value: string, children: seq<Node>, rest: seq<Node>, d: nat)
    requires i < j <= k <= |lines| && !lines[i].Unknown? && lines[i].value == value
    requires Labels(FlattenAll(children, d + 1)) == LineLabels(lines[i + 1..j])
    requires Labels(FlattenAll(rest, d)) == LineLabels(lines[j..k])
    ensures Labels(FlattenAll([Node(value, children)] + rest, d)) == LineLabels(lines[i..k])
  {
    var ns := [Node(value, children)] + rest;
    assert ns[0] == Node(value, children) && ns[1..] == rest;
    var head := [FlattenNode(d, value)];
    assert FlattenAll(ns, d) == head + FlattenAll(children, d + 1) + FlattenAll(rest, d);
    LabelsAppend(head + FlattenAll(children, d + 1), FlattenAll(rest, d));
    LabelsAppend(head, FlattenAll(children, d + 1));
    NodeLines(lines, i, j, k);
  }

  /** The labels of `lines[i..k]`: the node's own, its children's, then its
      siblings'. */
  lemma NodeLines(lines: seq<Line>, i: nat, j: nat, k: nat)
    requires i < j <= k <= |lines| && !lines[i].Unknown?
    ensures LineLabels(lines[i..k]) == [lines[i].value] + LineLabels(lines[i + 1..j]) + LineLabels(lines[j..k])
  {
    assert lines[i..k] == [lines[i]] + lines[i + 1..j] + lines[j..k];
    LineLabelsAppend([lines[i]] + lines[i + 1..j], lines[j..k]);
    LineLabelsAppend([lines[i]], lines[i + 1..j]);
    assert [lines[i]][1..] == [];
  }

  predicate PositiveIndents(lines: seq<Line>) {
    forall k :: 0 <= k < |lines| ==> lines[k].Unknown? || lines[k].indent >= 1
  }

  /** At the top level (base 0, parent 0) no recognized line can break the
      loop, so the whole input is consumed. */
  lemma {:induction false} TopLevelConsumesAll(lines: seq<Line>, i: nat)
    requires i <= |lines| && PositiveIndents(lines)
    ensures ParseForest(0, 0, lines, i).0 == |lines|
    decreases |lines| - i
  {
    if i < |lines| {
      match lines[i]
      case Unknown =>
        TopLevelConsumesAll(lines, i + 1);
      case Block(indent, _) =>
        TopLevelConsumesAll(lines, ParseForest(indent, indent, lines, i + 1).0);
      case List(indent, _) =>
        TopLevelConsumesAll(lines, ParseForest(0, indent, lines, i + 1).0);
    }
  }

  /** Parsing never fails and loses nothing: every recognized line becomes
      exactly one flattened entry, in input line order, and unknown lines
      produce none. */
  lemma ParseLinesKeepsEveryLine(lines: seq<string>)
    ensures Labels(FlattenRef(ParseLines(lines)))
      == LineLabels(seq(|lines|, k requires 0 <= k < |lines| => Line.Parse(lines[k])))
  {
    var classified := seq(|lines|, k requires 0 <= k < |lines| => Line.Parse(lines[k]));
    forall k | 0 <= k < |classified|
      ensures classified[k].Unknown? || classified[k].indent >= 1
    {
      LineParseShape(lines[k]);
    }
    TopLevelConsumesAll(classified, 0);
    ParseKeepsLineOrder(0, 0, classified, 0, 1);
    assert classified[0..|classified|] == classified;
  }

  // ---------------------------------------------------------------------
  // Unit tests of src/note/toc.rs

  lemma NodeFlattenExample()
    ensures NodeFlatten(Node("aaa", [Node("bbb", [Node("ccc", [])]), Node("ddd", [])]))
      == [FlattenNode(1, "aaa"), FlattenNode(2, "bbb"), FlattenNode(3, "ccc"), FlattenNode(2, "ddd")]
  {
    var ccc := Node("ccc", []);
    var bbb := Node("bbb", [ccc]);
    var ddd := Node("ddd", []);
    assert Flatten(ccc, 3) == [FlattenNode(3, "ccc")];
    assert FlattenAll([ccc], 3) == Flatten(ccc, 3) + FlattenAll([], 3);
    assert Flatten(bbb, 2) == [FlattenNode(2, "bbb"), FlattenNode(3, "ccc")];
    assert FlattenAll([ddd], 2) == [FlattenNode(2, "ddd")];
    assert FlattenAll([bbb, ddd], 2) == Flatten(bbb, 2) + FlattenAll([ddd], 2);
  }

  /** Test `sharp_style_heading` of toc.rs, on its classified lines
      `# aaa`, `## bbb`, `### ccc`, `# ddd`. */
  lemma SharpStyleExample()
    ensures var lines := [Block(2, "aaa"), Block(3, "bbb"), Block(4, "ccc"), Block(2, "ddd")];
      ParseForest(0, 0, lines, 0).1
        == [Node("aaa", [Node("bbb", [Node("ccc", [])])]), Node("ddd", [])]
  {
    var lines := [Block(2, "aaa"), Block(3, "bbb"), Block(4, "ccc"), Block(2, "ddd")];
    assert ParseForest(4, 4, lines, 3) == (3, []);
    assert ParseForest(3, 3, lines, 3) == (3, []);
    assert ParseForest(2, 2, lines, 3) == (3, []);
    assert [Node("ccc", [])] + [] == [Node("ccc", [])];
    assert ParseForest(3, 3, lines, 2) == (3, [Node("ccc", [])]);
    assert [Node("bbb", [Node("ccc", [])])] + [] == [Node("bbb", [Node("ccc", [])])];
    assert ParseForest(2, 2, lines, 1) == (3, [Node("bbb", [Node("ccc", [])])]);
    assert ParseForest(2, 2, lines, 4) == (4, []);
    assert ParseForest(0, 0, lines, 4) == (4, []);
    assert [Node("ddd", [])] + [] == [Node("ddd", [])];
    assert ParseForest(0, 0, lines, 3) == (4, [Node("ddd", [])]);
  }

  /** Test `bullet_style_heading` of toc.rs, on its classified lines
      `- aaa`, `  - bbb`, `    - ccc`, `- ddd`: nesting follows the
      indentation relative to the enclosing item. */
  lemma BulletStyleExample()
    ensures var lines := [List(1, "aaa"), List(3, "bbb"), List(5, "ccc"), List(1, "ddd")];
      ParseForest(0, 0, lines, 0).1
        == [Node("aaa", [Node("bbb", [Node("ccc", [])])]), Node("ddd", [])]
  {
    var lines := [List(1, "aaa"), List(3, "bbb"), List(5, "ccc"), List(1, "ddd")];
    assert ParseForest(3, 6, lines, 3) == (3, []);
    assert ParseForest(1, 3, lines, 3) == (3, []);
    assert [Node("ccc", [])] + [] == [Node("ccc", [])];
    assert ParseForest(1, 3, lines, 2) == (3, [Node("ccc", [])]);
    assert ParseForest(0, 1, lines, 3) == (3, []);
    assert [Node("bbb", [Node("ccc", [])])] + [] == [Node("bbb", [Node("ccc", [])])];
    assert ParseForest(0, 1, lines, 1) == (3, [Node("bbb", [Node("ccc", [])])]);
    assert ParseForest(0, 1, lines, 4) == (4, []);
    assert ParseForest(0, 0, lines, 4) == (4, []);
    assert [Node("ddd", [])] + [] == [Node("ddd", [])];
    assert ParseForest(0, 0, lines, 3) == (4, [Node("ddd", [])]);
  }

  /** Test `mixed_list_style_heading` of toc.rs, on its classified lines
      `# aaa`, `## bbb`, `- ccc`, `  - ddd`, `# eee`: a list under a heading
      nests below it. */
  lemma MixedStyleExample()
    ensures var lines := [Block(2, "aaa"), Block(3, "bbb"), List(1, "ccc"), List(3, "ddd"), Block(2, "eee")];
      ParseForest(0, 0, lines, 0).1
        == [Node("aaa", [Node("bbb", [Node("ccc", [Node("ddd", [])])])]), Node("eee", [])]
  {
    var lines := [Block(2, "aaa"), Block(3, "bbb"), List(1, "ccc"), List(3, "ddd"), Block(2, "eee")];
    assert ParseForest(4, 6, lines, 4) == (4, []);
    assert ParseForest(3, 4, lines, 4) == (4, []);
    assert [Node("ddd", [])] + [] == [Node("ddd", [])];
    assert ParseForest(3, 4, lines, 3) == (4, [Node("ddd", [])]);
    assert ParseForest(3, 3, lines, 4) == (4, []);
    assert [Node("ccc", [Node("ddd", [])])] + [] == [Node("ccc", [Node("ddd", [])])];
    assert ParseForest(3, 3, lines, 2) == (4, [Node("ccc", [Node("ddd", [])])]);
    assert ParseForest(2, 2, lines, 4) == (4, []);
    assert [Node("bbb", [Node("ccc", [Node("ddd", [])])])] + [] == [Node("bbb", [Node("ccc", [Node("ddd", [])])])];
    assert ParseForest(2, 2, lines, 1) == (4, [Node("bbb", [Node("ccc", [Node("ddd", [])])])]);
    assert ParseForest(2, 2, lines, 5) == (5, []);
    assert ParseForest(0, 0, lines, 5) == (5, []);
    assert [Node("eee", [])] + [] == [Node("eee", [])];
    assert ParseForest(0, 0, lines, 4) == (5, [Node("eee", [])]);
  }

  /** A level-2 heading followed by a level-3 heading: the second nests
      under the first, and flattening puts it one level deeper. */
  lemma HeadingUnderHeading(a: string, b: string)
    ensures var lines := [Block(2, a), Block(3, b)];
      && ParseForest(0, 0, lines, 0).1 == [Node(a, [Node(b, [])])]
      && FlattenRef(ParseForest(0, 0, lines, 0).1) == [FlattenNode(1, a), FlattenNode(2, b)]
  {
    var lines := [Block(2, a), Block(3, b)];
    assert ParseForest(3, 3, lines, 2) == (2, []);
    assert ParseForest(2, 2, lines, 2) == (2, []);
    assert [Node(b, [])] + [] == [Node(b, [])];
    assert ParseForest(2, 2, lines, 1) == (2, [Node(b, [])]);
    assert ParseForest(0, 0, lines, 2) == (2, []);
    assert [Node(a, [Node(b, [])])] + [] == [Node(a, [Node(b, [])])];
    var nb := Node(b, []);
    assert FlattenAll([nb], 2) == Flatten(nb, 2) + FlattenAll([], 2);
    assert Flatten(Node(a, [nb]), 1) == [FlattenNode(1, a), FlattenNode(2, b)];
    assert FlattenAll([Node(a, [nb])], 1) == Flatten(Node(a, [nb]), 1) + FlattenAll([], 1);
  }

  /** A lone bullet line `- w` is one outline entry at depth 1. */
  lemma LoneBullet(w: string)
    ensures FlattenRef(ParseLines(["- " + w])) == [FlattenNode(1, w)]
  {
    var s := "- " + w;
    LineParseShape(s);
    assert LeadingCount(s, '#') == 0 && LeadingCount(s, ' ') == 0;
    assert Skip(s, 2) == w;
    var cl := [List(1, w)];
    assert seq(1, k requires 0 <= k < 1 => Line.Parse(["- " + w][k])) == cl;
    assert ParseForest(0, 1, cl, 1) == (1, []);
    assert ParseForest(0, 0, cl, 1) == (1, []);
    assert [Node(w, [])] + [] == [Node(w, [])];
    assert ParseForest(0, 0, cl, 0) == (1, [Node(w, [])]);
    assert FlattenAll([Node(w, [])], 1) == Flatten(Node(w, []), 1) + FlattenAll([], 1);
  }
}
