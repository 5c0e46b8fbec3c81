/** Turning a character diff into editor patches for the Obsidian plugin
    (packages/mdfmt-obsidian/src/utils/getPatches.ts). The diff, what
    `diff_match_patch.diff_main(oldText, newText)` returns, is an input. A
    `char` here is a Unicode scalar value; lengths and columns are counted
    in them, where JavaScript counts UTF-16 code units, so the two agree
    only on text without characters outside the Basic Multilingual Plane. */
module Patches {
  import opened Wrappers
  import Str = Text

  /** `DIFF_DELETE`, `DIFF_INSERT` and `DIFF_EQUAL`. */
  datatype Op = Delete | Insert | Equal

  /** One diff entry: what happens to the text `value`. */
  datatype Change = Change(op: Op, value: string)

  /** `EditorPosition`: a line index and a column, both counted from 0. */
  datatype Position = Position(line: nat, ch: nat)

  /** `Patch`: replace the text from `start` to `end` (or insert at `start`
      when there is no end) with `text`. */
  datatype Patch = Patch(text: string, start: Position, end: Option<Position>)

  /** `endOfDocument`: the position just past the last character. */
  function EndOfDocument(doc: string): Position {
    var lines := Str.Split(doc, '\n');
    Position(|lines| - 1, |lines[|lines| - 1]|)
  }

  /** Position `p` is not after position `q`. */
  predicate NotAfter(p: Position, q: Position) {
    p.line < q.line || (p.line == q.line && p.ch <= q.ch)
  }

  // ---------------------------------------------------------------------
  // The end of a document

  lemma EndOfEmpty()
    ensures EndOfDocument("") == Position(0, 0)
  {
    assert Str.Split("", '\n') == [""];
  }

  /** The end of a document, read from its first character on: a line
      break opens a new line, another character widens the first line only
      while no line break follows it. */
  lemma EndOfFront(s: string)
    requires s != []
    ensures var t := EndOfDocument(s[1..]);
      EndOfDocument(s) == if s[0] == '\n' then Position(t.line + 1, t.ch)
        else if t.line == 0 then Position(0, t.ch + 1)
        else t
  {
    var rest := Str.Split(s[1..], '\n');
    if s[0] != '\n' && |rest| > 1 {
      var r := [[s[0]] + rest[0]] + rest[1..];
      assert r[|r| - 1] == rest[|rest| - 1];
    }
  }

  /** The line of the end is the number of line breaks, and its column is
      the length of the text after the last line break (the whole text when
      there is none). */
  lemma EndOfDocumentCounts(s: string)
    ensures var e := EndOfDocument(s);
      && e.line == Str.Count(s, '\n')
      && e.ch <= |s| && '\n' !in s[|s| - e.ch..]
      && (e.ch == |s| || s[|s| - e.ch - 1] == '\n')
  {
    EndLineCounts(s);
    EndColumn(s);
  }

  lemma {:induction false} EndLineCounts(s: string)
    ensures EndOfDocument(s).line == Str.Count(s, '\n')
  {
    if s == [] {
      EndOfEmpty();
    } else {
      EndLineCounts(s[1..]);
      EndOfFront(s);
      CountZeroIff(s[1..]);
    }
  }

  lemma {:induction false} EndColumn(s: string)
    ensures var e := EndOfDocument(s);
      && e.ch <= |s| && '\n' !in s[|s| - e.ch..]
      && (e.ch == |s| || s[|s| - e.ch - 1] == '\n')
  {
    if s == [] {
      EndOfEmpty();
    } else {
      var t := s[1..];
      EndColumn(t);
      EndOfFront(s);
      var f := EndOfDocument(t);
      if s[0] != '\n' && f.line == 0 {
        EndLineCounts(t);
        CountZeroIff(t);
        assert t[|t| - f.ch..] == t;
        assert s == [s[0]] + t;
      } else {
        assert s[|s| - f.ch..] == t[|t| - f.ch..];
        if f.ch < |t| {
          assert s[|s| - f.ch - 1] == t[|t| - f.ch - 1];
        } else if s[0] == '\n' {
          assert s[|s| - f.ch - 1] == s[0];
        } else {
          EndLineCounts(t);
          CountZeroIff(t);
          assert false;
        }
      }
    }
  }

  /** A text has no line break exactly when it counts none. */
  lemma {:induction false} CountZeroIff(s: string)
    ensures Str.Count(s, '\n') == 0 <==> '\n' !in s
  {
    if s != [] {
      CountZeroIff(s[1..]);
      assert s == [s[0]] + s[1..];
    }
  }

  /** The end of `a + b`: the end of `b`, shifted by the end of `a` when `b`
      has no line break. */
  lemma {:induction false} EndOfAppend(a: string, b: string)
    ensures var ea, eb := EndOfDocument(a), EndOfDocument(b);
      EndOfDocument(a + b) == if eb.line == 0 then Position(ea.line, ea.ch + eb.ch)
        else Position(ea.line + eb.line, eb.ch)
  {
    if a == [] {
      EndOfEmpty();
      assert a + b == b;
    } else {
      assert (a + b)[1..] == a[1..] + b;
      EndOfAppend(a[1..], b);
      EndOfFront(a);
      EndOfFront(a + b);
    }
  }

  /** Appending text never moves the end backwards. */
  lemma EndGrows(a: string, b: string)
    ensures NotAfter(EndOfDocument(a), EndOfDocument(a + b))
  {
    EndOfAppend(a, b);
  }

  // ---------------------------------------------------------------------
  // Positions as offsets (the editor's `posToOffset`)

  /** The offset of position `p` in `doc`; a column past the end of its
      line stops at the line break, a line past the end at the end. */
  function Offset(doc: string, p: Position): (r: nat)
    ensures r <= |doc|
  {
    if doc == [] then 0
    else if p.line == 0 then
      if doc[0] == '\n' || p.ch == 0 then 0 else 1 + Offset(doc[1..], Position(0, p.ch - 1))
    else 1 + Offset(doc[1..], if doc[0] == '\n' then Position(p.line - 1, p.ch) else p)
  }

  /** The end of a prefix of the document is the offset just past it. */
  lemma {:induction false} OffsetOfEnd(a: string, b: string)
    ensures Offset(a + b, EndOfDocument(a)) == |a|
  {
    if a == [] {
      EndOfEmpty();
      assert a + b == b;
    } else {
      assert (a + b)[1..] == a[1..] + b;
      OffsetOfEnd(a[1..], b);
      EndOfFront(a);
    }
  }

  /** `editor.replaceRange(text, start, end)`, as `FormatAllCommand.run`
      applies each patch: the range becomes the text. */
  function ApplyPatch(doc: string, p: Patch): string {
    var s := Offset(doc, p.start);
    var e := if p.end.Some? then Offset(doc, p.end.value) else s;
    doc[..s] + p.text + doc[if e < s then s else e..]
  }

  /** The patches applied one after the other. */
  function ApplyPatches(doc: string, ps: seq<Patch>): string {
    if ps == [] then doc else ApplyPatch(ApplyPatches(doc, ps[..|ps| - 1]), ps[|ps| - 1])
  }

  // ---------------------------------------------------------------------
  // The patches of a diff

  /** The text an entry leaves in the old and in the new document. */
  function OldPart(c: Change): string {
    if c.op == Insert then "" else c.value
  }

  function NewPart(c: Change): string {
    if c.op == Delete then "" else c.value
  }

  /** The old document of a diff: its deleted and kept texts in order. */
  function OldText(cs: seq<Change>): string {
    if cs == [] then "" else OldPart(cs[0]) + OldText(cs[1..])
  }

  /** The new document of a diff, `currentText` once every entry is read:
      its inserted and kept texts in order. */
  function NewText(cs: seq<Change>): string {
    if cs == [] then "" else NewText(cs[..|cs| - 1]) + NewPart(cs[|cs| - 1])
  }

  /** The patch one entry pushes, with `currentText` at `current`. */
  function StepPatches(c: Change, current: string): seq<Patch> {
    if c.op == Equal then [] else [EditPatch(c, current)]
  }

  /** The patch of an inserting or deleting entry: an insertion at the end
      of `current`, or the removal of the deleted text put back after it. */
  function EditPatch(c: Change, current: string): Patch
    requires c.op != Equal
  {
    if c.op == Insert then Patch(c.value, EndOfDocument(current), None)
    else Patch("", EndOfDocument(current), Some(EndOfDocument(current + c.value)))
  }

  /** What `getPatches` returns for the diff `cs`. */
  function PatchList(cs: seq<Change>): seq<Patch> {
    if cs == [] then []
    else PatchList(cs[..|cs| - 1]) + StepPatches(cs[|cs| - 1], NewText(cs[..|cs| - 1]))
  }

  /** The number of inserting or deleting entries. */
  function EditCount(cs: seq<Change>): nat {
    if cs == [] then 0 else EditCount(cs[..|cs| - 1]) + (if cs[|cs| - 1].op == Equal then 0 else 1)
  }

  /** `getPatches`, over the diff: the `forEach` with its two captured
      variables. */
  method GetPatches(changes: seq<Change>) returns (patches: seq<Patch>)
    ensures patches == PatchList(changes)
  {
    patches := [];
    var currentText := "";
    var i := 0;
    while i < |changes|
      invariant 0 <= i <= |changes|
      invariant currentText == NewText(changes[..i])
      invariant patches == PatchList(changes[..i])
    {
      assert changes[..i + 1][..i] == changes[..i];
      var change := changes[i];
      if change.op == Insert {
        patches := patches + [Patch(change.value, EndOfDocument(currentText), None)];
        currentText := currentText + change.value;
      } else if change.op == Delete {
        var start := EndOfDocument(currentText);
        var end := EndOfDocument(currentText + change.value);
        patches := patches + [Patch("", start, Some(end))];
      } else {
        currentText := currentText + change.value;
      }
      i := i + 1;
    }
    assert changes[..i] == changes;
  }

  // ---------------------------------------------------------------------
  // Properties

  /** One patch per inserting or deleting entry, none per kept one, in the
      order of the entries: the patch of entry `i` comes after the patches
      of the entries before it, and is anchored at the new document read so
      far. */
  lemma PatchPerEdit(cs: seq<Change>)
    ensures |PatchList(cs)| == EditCount(cs)
    ensures forall i :: 0 <= i < |cs| && cs[i].op != Equal ==>
      EditCount(cs[..i]) < |PatchList(cs)|
      && PatchList(cs)[EditCount(cs[..i])] == EditPatch(cs[i], NewText(cs[..i]))
  {
    PatchCount(cs);
    forall i | 0 <= i < |cs| && cs[i].op != Equal
      ensures EditCount(cs[..i]) < |PatchList(cs)|
      ensures PatchList(cs)[EditCount(cs[..i])] == EditPatch(cs[i], NewText(cs[..i]))
    {
      PatchAt(cs, i);
    }
  }

  lemma {:induction false} PatchCount(cs: seq<Change>)
    ensures |PatchList(cs)| == EditCount(cs)
  {
    if cs != [] {
      PatchCount(cs[..|cs| - 1]);
    }
  }

  lemma {:induction false} PatchAt(cs: seq<Change>, i: nat)
    requires i < |cs| && cs[i].op != Equal
    ensures EditCount(cs[..i]) < |PatchList(cs)|
    ensures PatchList(cs)[EditCount(cs[..i])] == EditPatch(cs[i], NewText(cs[..i]))
  {
    var init, last := cs[..|cs| - 1], cs[|cs| - 1];
    var pre, step := PatchList(init), StepPatches(last, NewText(init));
    assert PatchList(cs) == pre + step;
    PatchCount(init);
    if i < |init| {
      assert cs[..i] == init[..i] && cs[i] == init[i];
      PatchAt(init, i);
      IndexLeft(pre, step, EditCount(init[..i]));
    } else {
      assert cs[..i] == init;
      assert |step| == 1;
      IndexRight(pre, step);
    }
  }

  lemma IndexLeft(xs: seq<Patch>, ys: seq<Patch>, k: nat)
    requires k < |xs|
    ensures k < |xs + ys| && (xs + ys)[k] == xs[k]
  {
  }

  lemma IndexRight(xs: seq<Patch>, ys: seq<Patch>)
    requires ys != []
    ensures |xs| < |xs + ys| && (xs + ys)[|xs|] == ys[0]
  {
  }

  /** A deleting patch never ends before it starts. */
  lemma {:induction false} DeletesOrdered(cs: seq<Change>)
    ensures forall k :: 0 <= k < |PatchList(cs)| && PatchList(cs)[k].end.Some? ==>
      NotAfter(PatchList(cs)[k].start, PatchList(cs)[k].end.value)
  {
    if cs != [] {
      var init := cs[..|cs| - 1];
      DeletesOrdered(init);
      var last := cs[|cs| - 1];
      EndGrows(NewText(init), last.value);
    }
  }

  /** Applied in order, the patches turn the diff's old document into its
      new document. */
  lemma PatchesRewrite(cs: seq<Change>)
    ensures ApplyPatches(OldText(cs), PatchList(cs)) == NewText(cs)
  {
    ApplyPrefix(cs, |cs|);
    assert cs[..|cs|] == cs;
    assert cs[|cs|..] == [];
  }

  /** After the patches of the first `i` entries, the document is the new
      text of those entries followed by the old text of the others. */
  lemma {:induction false} ApplyPrefix(cs: seq<Change>, i: nat)
    requires i <= |cs|
    ensures ApplyPatches(OldText(cs), PatchList(cs[..i])) == NewText(cs[..i]) + OldText(cs[i..])
  {
    if i == 0 {
      assert cs[..0] == [] && cs[0..] == cs;
    } else {
      ApplyPrefix(cs, i - 1);
      var c := cs[i - 1];
      var before := cs[..i - 1];
      assert cs[..i][..i - 1] == before && cs[..i][i - 1] == c;
      assert cs[i - 1..][1..] == cs[i..];
      var cur := NewText(before);
      var rest := OldText(cs[i..]);
      ApplyStep(cur, c, rest);
      ApplyAppend(OldText(cs), PatchList(before), StepPatches(c, cur));
    }
  }

  /** The patch of one entry, applied where the new text read so far ends
      and the entry's old text starts. */
  lemma ApplyStep(cur: string, c: Change, rest: string)
    ensures ApplyPatches(cur + (OldPart(c) + rest), StepPatches(c, cur)) == cur + NewPart(c) + rest
  {
    var doc := cur + (OldPart(c) + rest);
    match c.op
    case Insert =>
      OffsetOfEnd(cur, rest);
      assert doc == cur + rest;
      var ps := StepPatches(c, cur);
      assert ps[..0] == [];
      assert ApplyPatches(doc, ps) == ApplyPatch(doc, ps[0]);
      assert doc[..|cur|] == cur && doc[|cur|..] == rest;
    case Delete =>
      OffsetOfEnd(cur, c.value + rest);
      assert doc == (cur + c.value) + rest;
      OffsetOfEnd(cur + c.value, rest);
      var ps := StepPatches(c, cur);
      assert ps[..0] == [];
      assert ApplyPatches(doc, ps) == ApplyPatch(doc, ps[0]);
      assert doc[..|cur|] == cur && doc[|cur + c.value|..] == rest;
    case Equal =>
      assert cur + (c.value + rest) == cur + c.value + rest;
  }

  /** Applying two runs of patches is applying one after the other. */
  lemma {:induction false} ApplyAppend(doc: string, ps: seq<Patch>, qs: seq<Patch>)
    ensures ApplyPatches(doc, ps + qs) == ApplyPatches(ApplyPatches(doc, ps), qs)
  {
    if qs == [] {
      assert ps + qs == ps;
    } else {
      assert (ps + qs)[..|ps + qs| - 1] == ps + qs[..|qs| - 1];
      ApplyAppend(doc, ps, qs[..|qs| - 1]);
    }
  }

  /** An example: two lines, the second of two characters. */
  lemma EndOfTwoLines()
    ensures EndOfDocument("a\nbc") == Position(1, 2)
  {
    EndOfDocumentCounts("a\nbc");
    assert "a\nbc"[1] == '\n';
  }
}
