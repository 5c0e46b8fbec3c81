/** The index of notes written by `generate_index`: one record per note,
    printed as a JSON array (crates/mdfmt-core/src/index/indexes.rs,
    crates/mdfmt-core/src/index/item.rs). The JSON encoding of a whole
    record (`serde_json::to_string`) is a parameter. */
module Indexes {
  import opened Wrappers
  import Str = Text
  import opened NoteMetadata
  import NoteData
  import opened Mdast
  import NoteParser

  /** `Item`: the file name, the path and the front matter of one note. */
  datatype Item = Item(file: string, path: string, meta: Option<Meta>)

  /** `serde_json::to_string` on a record: its JSON text, or an error. */
  type Serializer = Item -> Result<string>

  /** `Item::new`: the record of the note at `path`, whose file name the
      caller reads off the path; only decoded front matter is kept. */
  function NewItem(path: string, file: string, note: NoteData.Note): (r: Item)
    ensures r.file == file && r.path == path
    ensures r.meta.Some? <==> note.metadata.Some? && note.metadata.value.Meta?
    ensures r.meta.Some? ==> r.meta.value == note.metadata.value.meta
  {
    Item(file, path, if note.metadata.Some? && note.metadata.value.Meta? then Some(note.metadata.value.meta) else None)
  }

  /** `Item::to_json`: a record without front matter is left out of the
      index (`None`); any other record is serialised whole. */
  function ToJson(it: Item, serialize: Serializer): (r: Result<Option<string>>)
    ensures it.meta.None? ==> r == Ok(None)
    ensures it.meta.Some? ==> (r.Ok? <==> serialize(it).Ok?)
    ensures r.Ok? && r.value.Some? ==> it.meta.Some? && r.value.value == serialize(it).value
  {
    if it.meta.None? then Ok(None)
    else
      var res :- serialize(it);
      Ok(Some(res))
  }

  /** The JSON texts the records give, in record order, leaving out the
      records without front matter; the first serialisation error is the
      result. */
  function Emitted(items: seq<Item>, serialize: Serializer): Result<seq<string>> {
    if items == [] then Ok([])
    else
      var init :- Emitted(items[..|items| - 1], serialize);
      var j :- ToJson(items[|items| - 1], serialize);
      Ok(if j.Some? then init + [j.value] else init)
  }

  /** What `Indexes::print` returns: the emitted texts between `[` and `]`,
      separated by commas. */
  function IndexText(items: seq<Item>, serialize: Serializer): Result<string> {
    var js :- Emitted(items, serialize);
    Ok("[" + Str.Join(js, ",") + "]")
  }

  /** `Indexes`: the records collected so far. */
  class Indexes {
    var data: seq<Item>

    /** `Indexes::new`: the records as given. */
    constructor(data: seq<Item>)
      ensures this.data == data
    {
      this.data := data;
    }

    /** `Indexes::push`: the note's record is appended; the others stay. */
    method Push(path: string, file: string, note: NoteData.Note)
      modifies this
      ensures data == old(data) + [NewItem(path, file, note)]
    {
      data := data + [NewItem(path, file, note)];
    }

    /** `Indexes::print`: a comma before every emitted text but the first. */
    method Print(serialize: Serializer) returns (r: Result<string>)
      ensures r == IndexText(data, serialize)
    {
      var res := "[";
      var first := true;
      ghost var js: seq<string> := [];
      var i := 0;
      while i < |data|
        invariant 0 <= i <= |data|
        invariant Emitted(data[..i], serialize) == Ok(js)
        invariant first <==> js == []
        invariant res == "[" + Str.Join(js, ",")
      {
        assert data[..i + 1][..i] == data[..i];
        var json := ToJson(data[i], serialize);
        if json.Err? {
          EmittedPrefixErr(data, i + 1, serialize);
          return Err(json.error);
        }
        if json.value.Some? {
          if first {
            first := false;
            assert Str.Join([json.value.value], ",") == json.value.value;
          } else {
            res := res + ",";
            Str.JoinAppend(js, json.value.value, ",");
          }
          res := res + json.value.value;
          js := js + [json.value.value];
        }
        i := i + 1;
      }
      assert data[..i] == data;
      res := res + "]";
      r := Ok(res);
    }
  }

  /** An error in a prefix of the records is the error of all of them. */
  lemma {:induction false} EmittedPrefixErr(items: seq<Item>, n: nat, serialize: Serializer)
    requires n <= |items| && Emitted(items[..n], serialize).Err?
    ensures Emitted(items, serialize) == Emitted(items[..n], serialize)
    decreases |items|
  {
    if n < |items| {
      assert items[..|items| - 1][..n] == items[..n];
      EmittedPrefixErr(items[..|items| - 1], n, serialize);
    } else {
      assert items[..n] == items;
    }
  }

  // ---------------------------------------------------------------------
  // Properties

  /** The printed index is a bracketed list. */
  lemma Bracketed(items: seq<Item>, serialize: Serializer)
    requires IndexText(items, serialize).Ok?
    ensures var s := IndexText(items, serialize).value;
      |s| >= 2 && s[0] == '[' && s[|s| - 1] == ']'
  {
  }

  /** An index whose records have no front matter prints as `[]`. */
  lemma EmptyIndex(items: seq<Item>, serialize: Serializer)
    requires forall k :: 0 <= k < |items| ==> items[k].meta.None?
    ensures IndexText(items, serialize) == Ok("[]")
  {
    NothingEmitted(items, serialize);
    assert Str.Join([], ",") == "";
    assert "[" + "" + "]" == "[]";
  }

  lemma {:induction false} NothingEmitted(items: seq<Item>, serialize: Serializer)
    requires forall k :: 0 <= k < |items| ==> items[k].meta.None?
    ensures Emitted(items, serialize) == Ok([])
  {
    if items != [] {
      var init := items[..|items| - 1];
      assert forall k :: 0 <= k < |init| ==> init[k] == items[k];
      NothingEmitted(init, serialize);
    }
  }

  /** A record without front matter changes nothing. */
  lemma SkippedRecord(items: seq<Item>, x: Item, serialize: Serializer)
    requires x.meta.None?
    ensures IndexText(items + [x], serialize) == IndexText(items, serialize)
  {
    assert (items + [x])[..|items|] == items;
  }

  /** The texts of two runs of records follow each other: emission keeps
      the records' order. */
  lemma {:induction false} EmittedAppend(a: seq<Item>, b: seq<Item>, serialize: Serializer)
    requires Emitted(a, serialize).Ok? && Emitted(b, serialize).Ok?
    ensures Emitted(a + b, serialize) == Ok(Emitted(a, serialize).value + Emitted(b, serialize).value)
    decreases |b|
  {
    if b == [] {
      assert a + b == a;
      assert Emitted(a, serialize).value + [] == Emitted(a, serialize).value;
    } else {
      var init := b[..|b| - 1];
      assert (a + b)[..|a + b| - 1] == a + init;
      assert Emitted(init, serialize).Ok?;
      EmittedAppend(a, init, serialize);
      var ea, ei := Emitted(a, serialize).value, Emitted(init, serialize).value;
      var j := ToJson(b[|b| - 1], serialize).value;
      if j.Some? {
        assert ea + ei + [j.value] == ea + (ei + [j.value]);
      }
    }
  }

  /** A record that cannot be printed: it has front matter and its
      serialisation fails. */
  predicate Unprintable(it: Item, serialize: Serializer) {
    it.meta.Some? && serialize(it).Err?
  }

  /** Printing fails exactly when some record with front matter fails to
      serialise, and then with the first such record's error. */
  lemma {:induction false} EmittedErrIff(items: seq<Item>, serialize: Serializer)
    ensures Emitted(items, serialize).Err? <==> exists k :: 0 <= k < |items| && Unprintable(items[k], serialize)
    ensures Emitted(items, serialize).Err? ==>
      exists k :: 0 <= k < |items| && Unprintable(items[k], serialize)
        && Emitted(items, serialize).error == serialize(items[k]).error
        && forall m :: 0 <= m < k ==> !Unprintable(items[m], serialize)
  {
    if items != [] {
      var init := items[..|items| - 1];
      var last := |items| - 1;
      EmittedErrIff(init, serialize);
      if Emitted(init, serialize).Err? {
        var k :| 0 <= k < |init| && Unprintable(init[k], serialize)
          && Emitted(init, serialize).error == serialize(init[k]).error
          && forall m :: 0 <= m < k ==> !Unprintable(init[m], serialize);
        assert items[k] == init[k];
        assert forall m :: 0 <= m < k ==> items[m] == init[m];
      } else if Unprintable(items[last], serialize) {
        assert forall m :: 0 <= m < last ==> items[m] == init[m];
      } else {
        forall k | 0 <= k < |items|
          ensures !Unprintable(items[k], serialize)
        {
          if k < last {
            assert items[k] == init[k];
          }
        }
      }
    }
  }

  /** A comma goes between every two emitted texts and nowhere else: one
      text prints bare, and each further text adds one comma and itself. */
  lemma CommasBetween(js: seq<string>, j: string)
    ensures Str.Join([j], ",") == j
    ensures js != [] ==> Str.Join(js + [j], ",") == Str.Join(js, ",") + "," + j
  {
    if js != [] {
      Str.JoinAppend(js, j, ",");
    }
  }

  /** Two records with front matter print as a two-element array of their
      serialisations. */
  lemma TwoRecords(x: Item, y: Item, serialize: Serializer, a: string, b: string)
    requires x.meta.Some? && y.meta.Some?
    requires serialize(x) == Ok(a) && serialize(y) == Ok(b)
    ensures IndexText([x, y], serialize) == Ok("[" + a + "," + b + "]")
  {
    TwoEmitted(x, y, serialize, a, b);
    assert Str.Join([a, b], ",") == a + "," + b by {
      assert [a, b][1..] == [b];
    }
    assert "[" + (a + "," + b) + "]" == "[" + a + "," + b + "]";
  }

  lemma TwoEmitted(x: Item, y: Item, serialize: Serializer, a: string, b: string)
    requires x.meta.Some? && y.meta.Some?
    requires serialize(x) == Ok(a) && serialize(y) == Ok(b)
    ensures Emitted([x, y], serialize) == Ok([a, b])
  {
    var xs := [x];
    assert xs[..0] == [] && xs[0] == x;
    assert Emitted(xs[..0], serialize) == Ok([]);
    assert Emitted(xs, serialize) == Ok([] + [a]);
    assert [] + [a] == [a];
    var xys := [x, y];
    assert xys[..1] == xs && xys[1] == y;
    assert Emitted(xys, serialize) == Ok([a] + [b]);
    assert [a] + [b] == [a, b];
  }

  /** The record of a parsed note carries front matter exactly when the
      note's YAML block decoded, and then the decoded value; so a note
      whose front matter is missing or kept raw is left out of the index. */
  lemma ParsedNoteRecord(path: string, file: string, cs: seq<Node>, body: seq<NoteData.Blocks.Block>,
                         decode: string -> Result<Meta>, serialize: Serializer)
    ensures var it := NewItem(path, file, NoteData.Note(NoteParser.MetadataAt(cs, decode).1, body));
      (it.meta.Some? <==> cs != [] && cs[0].Yaml? && decode(cs[0].value).Ok?)
      && (it.meta.Some? ==> it.meta.value == decode(cs[0].value).value)
      && (ToJson(it, serialize) == Ok(None) <==> it.meta.None?)
  {
  }
}
