/** Splitting a command-line style argument string into words, where a
    double-quoted stretch keeps its spaces and a backslash escapes the
    character after it (crates/mdfmt-core/src/cli/quoted_args.rs). */
module QuotedArgs {
  import opened Text

  /** The scanner state after a prefix of the input: the words finished so
      far, the word being built, and whether a quote is open. The
      specification is tail-recursive in the same order as the loop. */
  function Scan(s: string, chunks: seq<string>, chunk: string, quoted: bool): seq<string>
    decreases |s|
  {
    if s == [] then
      if chunk != "" then chunks + [chunk] else chunks
    else if s[0] == '"' then
      if quoted then Scan(s[1..], chunks + [chunk], "", false)
      else Scan(s[1..], chunks, chunk, true)
    else if s[0] == '\\' then
      if |s| >= 2 then Scan(s[2..], chunks, chunk + [s[1]], quoted)
      else Scan(s[1..], chunks, chunk, quoted)
    else if s[0] == ' ' then
      if quoted then Scan(s[1..], chunks, chunk + [' '], quoted)
      else if chunk != "" then Scan(s[1..], chunks + [chunk], "", quoted)
      else Scan(s[1..], chunks, chunk, quoted)
    else Scan(s[1..], chunks, chunk + [s[0]], quoted)
  }

  /** The words of `input`. */
  function Words(input: string): seq<string> {
    Scan(input, [], "", false)
  }

  /** `parse_quoted_args`: one pass over the characters. */
  method ParseQuotedArgs(input: string) returns (chunks: seq<string>)
    ensures chunks == Words(input)
  {
    chunks := [];
    var chunk := "";
    var quoted := false;
    var i := 0;
    while i < |input|
      invariant 0 <= i <= |input|
      invariant Words(input) == Scan(input[i..], chunks, chunk, quoted)
      decreases |input| - i
    {
      var c := input[i];
      assert input[i..][0] == c && input[i..][1..] == input[i + 1..];
      i := i + 1;
      if c == '"' {
        if quoted {
          chunks := chunks + [chunk];
          chunk := "";
        }
        quoted := !quoted;
      } else if c == '\\' {
        if i < |input| {
          assert input[i - 1..][1] == input[i] && input[i - 1..][2..] == input[i + 1..];
          chunk := chunk + [input[i]];
          i := i + 1;
        }
      } else if c == ' ' {
        if quoted {
          chunk := chunk + [c];
        } else if chunk != "" {
          chunks := chunks + [chunk];
          chunk := "";
        }
      } else {
        chunk := chunk + [c];
      }
    }
    if chunk != "" {
      chunks := chunks + [chunk];
    }
  }

  /** The escaped form of a word: a backslash before each quote and backslash. */
  function Escape(w: string): (r: string)
    ensures |r| >= |w|
  {
    if w == [] then ""
    else (if w[0] == '"' || w[0] == '\\' then ['\\', w[0]] else [w[0]]) + Escape(w[1..])
  }

  /** A word written as a quoted argument. */
  function QuoteWord(w: string): string {
    "\"" + Escape(w) + "\""
  }

  /** Words written as quoted arguments separated by single spaces. */
  function QuoteAll(words: seq<string>): string {
    Join(seq(|words|, i requires 0 <= i < |words| => QuoteWord(words[i])), " ")
  }

  /** Inside an open quote, an escaped word followed by the closing quote
      finishes exactly that word. */
  lemma {:induction false} ScanEscaped(w: string, rest: string, chunks: seq<string>, chunk: string)
    ensures Scan(Escape(w) + "\"" + rest, chunks, chunk, true)
         == Scan(rest, chunks + [chunk + w], "", false)
  {
    if w == [] {
      assert chunk + w == chunk;
      assert Escape(w) + "\"" + rest == ['"'] + rest;
      assert (['"'] + rest)[1..] == rest;
    } else {
      EscapedStep(w, rest, chunks, chunk);
      ScanEscaped(w[1..], rest, chunks, chunk + [w[0]]);
      assert chunk + [w[0]] + w[1..] == chunk + w;
    }
  }

  /** Inside an open quote, the escaped form of a word's first character
      adds that character to the word being built. */
  lemma EscapedStep(w: string, rest: string, chunks: seq<string>, chunk: string)
    requires w != []
    ensures Scan(Escape(w) + "\"" + rest, chunks, chunk, true)
         == Scan(Escape(w[1..]) + "\"" + rest, chunks, chunk + [w[0]], true)
  {
    var c := w[0];
    var tail := Escape(w[1..]) + "\"" + rest;
    if c == '"' || c == '\\' {
      var s := ['\\', c] + tail;
      assert Escape(w) + "\"" + rest == s;
      assert s[0] == '\\' && s[1] == c && s[2..] == tail;
    } else {
      var s := [c] + tail;
      assert Escape(w) + "\"" + rest == s;
      assert s[0] == c && s[1..] == tail;
    }
  }

  /** Round trip: quoting every word (the empty word included) and joining
      with spaces parses back to exactly those words. */
  lemma {:induction false} WordsOfQuoteAll(words: seq<string>)
    ensures Words(QuoteAll(words)) == words
  {
    if words == [] {
      assert QuoteAll(words) == "";
    } else {
      QuoteAllScan(words, []);
    }
  }

  lemma {:induction false} QuoteAllScan(words: seq<string>, chunks: seq<string>)
    requires words != []
    ensures Scan(QuoteAll(words), chunks, "", false) == chunks + words
  {
    var w := words[0];
    var rest := if |words| == 1 then "" else " " + QuoteAll(words[1..]);
    QuoteAllFirst(words);
    var body := Escape(w) + "\"" + rest;
    assert QuoteAll(words) == "\"" + body;
    ScanOpenQuote(body, chunks);
    ScanEscaped(w, rest, chunks, "");
    assert "" + w == w;
    if |words| > 1 {
      ScanSpace(QuoteAll(words[1..]), chunks + [w]);
      QuoteAllScan(words[1..], chunks + [w]);
      ConsAppend(chunks, words);
    } else {
      assert words == [w];
    }
  }

  lemma ConsAppend(chunks: seq<string>, words: seq<string>)
    requires words != []
    ensures chunks + [words[0]] + words[1..] == chunks + words
  {
  }

  /** An opening quote outside a quote only opens it. */
  lemma ScanOpenQuote(body: string, chunks: seq<string>)
    ensures Scan("\"" + body, chunks, "", false) == Scan(body, chunks, "", true)
  {
    assert ("\"" + body)[0] == '"' && ("\"" + body)[1..] == body;
  }

  /** A space outside a quote, with no word begun, is skipped. */
  lemma ScanSpace(t: string, chunks: seq<string>)
    ensures Scan(" " + t, chunks, "", false) == Scan(t, chunks, "", false)
  {
    assert (" " + t)[0] == ' ' && (" " + t)[1..] == t;
  }

  /** The first quoted word, then the others after a space. */
  lemma QuoteAllFirst(words: seq<string>)
    requires words != []
    ensures QuoteAll(words) == QuoteWord(words[0]) + (if |words| == 1 then "" else " " + QuoteAll(words[1..]))
  {
    var qs := seq(|words|, i requires 0 <= i < |words| => QuoteWord(words[i]));
    if |words| > 1 {
      var qs' := seq(|words[1..]|, i requires 0 <= i < |words[1..]| => QuoteWord(words[1..][i]));
      assert qs[1..] == qs';
    }
  }

  /** The pieces of `ps` that are not empty, in order. */
  function NonEmpty(ps: seq<string>): (r: seq<string>)
    ensures forall i :: 0 <= i < |r| ==> r[i] != ""
  {
    if ps == [] then [] else (if ps[0] != "" then [ps[0]] else []) + NonEmpty(ps[1..])
  }

  /** Without quotes or backslashes the scan is an ordinary split on spaces
      that drops the empty pieces (runs of spaces, leading and trailing ones). */
  lemma {:induction false} ScanPlain(s: string, chunks: seq<string>, chunk: string)
    requires '"' !in s && '\\' !in s
    ensures Scan(s, chunks, chunk, false)
         == chunks + NonEmpty([chunk + Split(s, ' ')[0]] + Split(s, ' ')[1..])
  {
    if s == [] {
      assert chunk + "" == chunk;
      assert [chunk + Split(s, ' ')[0]] + Split(s, ' ')[1..] == [chunk];
      assert NonEmpty([chunk]) == (if chunk != "" then [chunk] else []) + NonEmpty([]);
    } else if s[0] == ' ' {
      var done := if chunk != "" then chunks + [chunk] else chunks;
      assert Scan(s, chunks, chunk, false) == Scan(s[1..], done, "", false);
      ScanPlain(s[1..], done, "");
      SpacePieces(s, chunks, chunk);
    } else {
      assert Scan(s, chunks, chunk, false) == Scan(s[1..], chunks, chunk + [s[0]], false);
      ScanPlain(s[1..], chunks, chunk + [s[0]]);
      OtherPieces(s, chunk);
    }
  }

  /** At a space, the word being built is finished if it is not empty. */
  lemma SpacePieces(s: string, chunks: seq<string>, chunk: string)
    requires s != [] && s[0] == ' '
    ensures var rest := Split(s[1..], ' ');
      chunks + NonEmpty([chunk + Split(s, ' ')[0]] + Split(s, ' ')[1..])
      == (if chunk != "" then chunks + [chunk] else chunks) + NonEmpty(["" + rest[0]] + rest[1..])
  {
    var rest := Split(s[1..], ' ');
    assert "" + rest[0] == rest[0];
    assert ["" + rest[0]] + rest[1..] == rest;
    assert Split(s, ' ') == [""] + rest && chunk + "" == chunk;
    assert [chunk + Split(s, ' ')[0]] + Split(s, ' ')[1..] == [chunk] + rest;
    assert NonEmpty([chunk] + rest) == (if chunk != "" then [chunk] else []) + NonEmpty(rest) by {
      assert ([chunk] + rest)[1..] == rest;
    }
  }

  /** Any other character extends the first piece. */
  lemma OtherPieces(s: string, chunk: string)
    requires s != [] && s[0] != ' '
    ensures var rest := Split(s[1..], ' ');
      [chunk + Split(s, ' ')[0]] + Split(s, ' ')[1..] == [(chunk + [s[0]]) + rest[0]] + rest[1..]
  {
    var rest := Split(s[1..], ' ');
    assert Split(s, ' ') == [[s[0]] + rest[0]] + rest[1..];
    assert chunk + ([s[0]] + rest[0]) == (chunk + [s[0]]) + rest[0];
  }

  /** `parse_quoted_args` on plain text gives the space-separated words. */
  lemma WordsOfPlain(s: string)
    requires '"' !in s && '\\' !in s
    ensures Words(s) == NonEmpty(Split(s, ' '))
  {
    var ps := Split(s, ' ');
    ScanPlain(s, [], "");
    assert "" + ps[0] == ps[0];
    assert ["" + ps[0]] + ps[1..] == ps;
  }

  /** Characters other than a quote, a backslash and a space only extend
      the word being built, inside quotes or not. */
  lemma {:induction false} ScanWord(w: string, rest: string, chunks: seq<string>, chunk: string, quoted: bool)
    requires forall i :: 0 <= i < |w| ==> w[i] != '"' && w[i] != '\\' && w[i] != ' '
    ensures Scan(w + rest, chunks, chunk, quoted) == Scan(rest, chunks, chunk + w, quoted)
  {
    if w == [] {
      assert w + rest == rest && chunk + w == chunk;
    } else {
      assert (w + rest)[0] == w[0] && (w + rest)[1..] == w[1..] + rest;
      ScanWord(w[1..], rest, chunks, chunk + [w[0]], quoted);
      assert chunk + [w[0]] + w[1..] == chunk + w;
    }
  }

  /** Unit tests `empty`, `unquoted_string` of quoted_args.rs. */
  lemma ExampleUnquoted()
    ensures Words("") == []
    ensures Words("foo") == ["foo"]
  {
    ScanWord("foo", "", [], "", false);
    assert "foo" + "" == "foo" && "" + "foo" == "foo";
  }

  /** Unit test `multiple_unquoted_string` of quoted_args.rs. */
  lemma ExampleTwoWords()
    ensures Words("foo bar") == ["foo", "bar"]
  {
    ScanWord("foo", " bar", [], "", false);
    assert "foo" + " bar" == "foo bar" && "" + "foo" == "foo";
    assert " bar"[0] == ' ' && " bar"[1..] == "bar";
    assert Scan(" bar", [], "foo", false) == Scan("bar", ["foo"], "", false);
    ScanWord("bar", "", ["foo"], "", false);
    assert "bar" + "" == "bar" && "" + "bar" == "bar";
  }

  /** Unit test `escaped_string` of quoted_args.rs: the input is the
      quoted form of the word. */
  lemma ExampleEscaped()
    ensures Words("\"fo\\\"o\"") == ["fo\"o"]
  {
    var w := "fo\"o";
    assert Escape(w) == "fo\\\"o" by {
      assert w[1..] == "o\"o" && w[2..] == "\"o" && w[3..] == "o" && w[4..] == "";
    }
    var q := "\"fo\\\"o\"";
    assert q == "\"" + (Escape(w) + "\"" + "");
    assert q[1..] == Escape(w) + "\"" + "";
    ScanEscaped(w, "", [], "");
    assert "" + w == w;
  }

  /** A closing quote always finishes a word, even an empty one; outside
      quotes an empty word is never produced. */
  lemma ExampleEmptyWords()
    ensures Words("\"\"") == [""]
    ensures Words("  ") == []
  {
    assert "\"\""[1..] == "\"" && "\""[1..] == "";
    assert Words("\"\"") == Scan("\"", [], "", true) == Scan("", [""], "", false);
    assert "  "[1..] == " " && " "[1..] == "";
    assert Words("  ") == Scan(" ", [], "", false) == Scan("", [], "", false);
  }

  /** Without a double quote no word is empty: only a closing quote
      finishes a word that may be empty. */
  lemma {:induction false} ScanNoEmptyWord(s: string, chunks: seq<string>, chunk: string, quoted: bool)
    requires '"' !in s && "" !in chunks
    ensures "" !in Scan(s, chunks, chunk, quoted)
    decreases |s|
  {
    if s == [] {
    } else {
      assert s[0] in s;
      assert forall k :: 0 <= k < |s[1..]| ==> s[1..][k] == s[k + 1];
      assert '"' !in s[1..];
      if s[0] == '\\' && |s| >= 2 {
        assert forall k :: 0 <= k < |s[2..]| ==> s[2..][k] == s[k + 2];
        assert '"' !in s[2..];
        ScanNoEmptyWord(s[2..], chunks, chunk + [s[1]], quoted);
      } else if s[0] == '\\' {
        ScanNoEmptyWord(s[1..], chunks, chunk, quoted);
      } else if s[0] == ' ' && !quoted && chunk != "" {
        ScanNoEmptyWord(s[1..], chunks + [chunk], "", quoted);
      } else if s[0] == ' ' {
        ScanNoEmptyWord(s[1..], chunks, chunk + (if quoted then [' '] else []), quoted);
      } else {
        ScanNoEmptyWord(s[1..], chunks, chunk + [s[0]], quoted);
      }
    }
  }

  /** Text without double quotes never parses to an empty word. */
  lemma WordsNoEmptyWord(input: string)
    requires '"' !in input
    ensures "" !in Words(input)
  {
    ScanNoEmptyWord(input, [], "", false);
  }

  /** A backslash at the very end escapes nothing and is dropped. */
  lemma ExampleTrailingBackslash()
    ensures Words("a\\") == ["a"]
  {
    var s := "a\\";
    assert s[0] == 'a' && s[1..] == "\\" && "" + ['a'] == "a";
    assert s != [] && s[0] != '"' && s[0] != '\\' && s[0] != ' ';
    assert Words(s) == Scan(s[1..], [], "" + [s[0]], false);
    assert "\\"[0] == '\\' && "\\"[1..] == "";
    assert Scan("\\", [], "a", false) == Scan("", [], "a", false);
  }

  /** A quote left open at the end still gives the word built so far,
      spaces included. */
  lemma ExampleUnterminatedQuote()
    ensures Words("\"a b") == ["a b"]
  {
    var s := "\"a b";
    assert s[0] == '"' && s[1..] == "a b";
    assert "a b"[0] == 'a' && "a b"[1..] == " b" && "" + ['a'] == "a";
    assert " b"[0] == ' ' && " b"[1..] == "b" && "a" + [' '] == "a ";
    assert "b"[0] == 'b' && "b"[1..] == "" && "a " + ['b'] == "a b";
    assert Words(s) == Scan("a b", [], "", true);
    assert Scan("a b", [], "", true) == Scan(" b", [], "a", true);
    assert Scan(" b", [], "a", true) == Scan("b", [], "a ", true);
    assert Scan("b", [], "a ", true) == Scan("", [], "a b", true);
  }
}
