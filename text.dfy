/** The pieces of Rust's `str` API that the formatter relies on, over
    `string` (a sequence of Unicode scalar values, as a Rust `char`). */
module Text {

  /** Rust's `char::is_whitespace`: the Unicode White_Space property. */
  predicate IsWhitespace(c: char) {
    c in Whitespace
  }

  const Whitespace: set<char> := {
    ' ', '\t', '\n', '\U{000B}', '\U{000C}', '\r', '\U{0085}', '\U{00A0}', '\U{1680}',
    '\U{2000}', '\U{2001}', '\U{2002}', '\U{2003}', '\U{2004}', '\U{2005}', '\U{2006}',
    '\U{2007}', '\U{2008}', '\U{2009}', '\U{200A}',
    '\U{2028}', '\U{2029}', '\U{202F}', '\U{205F}', '\U{3000}'
  }

  /** The printable ASCII characters other than the space are not white
      space. */
  lemma VisibleAscii(c: char)
    requires ' ' < c <= '~'
    ensures !IsWhitespace(c)
  {
  }

  /** `str::trim_start`. */
  function TrimStart(s: string): (r: string)
    ensures |r| <= |s| && r == s[|s| - |r|..]
    ensures r == [] || !IsWhitespace(r[0])
  {
    if s != [] && IsWhitespace(s[0]) then TrimStart(s[1..]) else s
  }

  /** `trim_start` removes white space only. */
  lemma {:induction false} TrimStartRemovesWhitespace(s: string)
    ensures forall i :: 0 <= i < |s| - |TrimStart(s)| ==> IsWhitespace(s[i])
  {
    if s != [] && IsWhitespace(s[0]) {
      TrimStartRemovesWhitespace(s[1..]);
      forall i | 1 <= i < |s| - |TrimStart(s)|
        ensures IsWhitespace(s[i])
      {
        assert s[i] == s[1..][i - 1];
      }
    }
  }

  /** `str::trim_end`. */
  function TrimEnd(s: string): (r: string)
    ensures |r| <= |s| && r == s[..|r|]
    ensures r == [] || !IsWhitespace(r[|r| - 1])
  {
    if s != [] && IsWhitespace(s[|s| - 1]) then TrimEnd(s[..|s| - 1]) else s
  }

  /** `trim_end` removes white space only. */
  lemma {:induction false} TrimEndRemovesWhitespace(s: string)
    ensures forall i :: |TrimEnd(s)| <= i < |s| ==> IsWhitespace(s[i])
  {
    if s != [] && IsWhitespace(s[|s| - 1]) {
      TrimEndRemovesWhitespace(s[..|s| - 1]);
      forall i | |TrimEnd(s)| <= i < |s| - 1
        ensures IsWhitespace(s[i])
      {
        assert s[i] == s[..|s| - 1][i];
      }
    }
  }

  /** `str::trim`. */
  function Trim(s: string): (r: string)
    ensures r == [] || (!IsWhitespace(r[0]) && !IsWhitespace(r[|r| - 1]))
    ensures |r| <= |s|
  {
    TrimEnd(TrimStart(s))
  }

  /** `str::trim_matches(' ')`: only the space character is removed. */
  function TrimSpaces(s: string): (r: string)
    ensures r == [] || (r[0] != ' ' && r[|r| - 1] != ' ')
  {
    if s != [] && s[0] == ' ' then TrimSpaces(s[1..])
    else if s != [] && s[|s| - 1] == ' ' then TrimSpaces(s[..|s| - 1])
    else s
  }

  /** `s.repeat(n)`. */
  function Repeat(s: string, n: nat): (r: string)
    ensures |r| == |s| * n
  {
    if n == 0 then "" else s + Repeat(s, n - 1)
  }

  /** Every character of a repetition is a character of the piece. */
  lemma {:induction false} RepeatChars(s: string, n: nat)
    ensures forall c :: c in Repeat(s, n) ==> c in s
  {
    if n > 0 {
      RepeatChars(s, n - 1);
    }
  }

  /** The concatenation of all parts. */
  function Concat(parts: seq<string>): string {
    if parts == [] then "" else Concat(parts[..|parts| - 1]) + parts[|parts| - 1]
  }

  /** `[..].join(sep)`. */
  function Join(parts: seq<string>, sep: string): string {
    if parts == [] then ""
    else if |parts| == 1 then parts[0]
    else parts[0] + sep + Join(parts[1..], sep)
  }

  /** `str::split(c)`: always at least one piece, the separators removed. */
  function Split(s: string, c: char): (r: seq<string>)
    ensures |r| >= 1
  {
    if s == [] then [""]
    else
      var rest := Split(s[1..], c);
      if s[0] == c then [""] + rest
      else [[s[0]] + rest[0]] + rest[1..]
  }

  /** The pieces hold no separator, and joining them on it gives the
      string back. */
  lemma {:induction false} SplitPieces(s: string, c: char)
    ensures var r := Split(s, c);
      (forall i :: 0 <= i < |r| ==> c !in r[i]) && Join(r, [c]) == s
  {
    if s != [] {
      var rest := Split(s[1..], c);
      SplitPieces(s[1..], c);
      if s[0] == c {
        assert Join([""] + rest, [c]) == "" + [c] + Join(rest, [c]) by {
          assert ([""] + rest)[1..] == rest;
        }
        assert "" + [c] + s[1..] == s;
      } else {
        var r := Split(s, c);
        assert r[1..] == rest[1..];
        forall i | 0 <= i < |r|
          ensures c !in r[i]
        {
          if i > 0 {
            assert r[i] == rest[i];
          }
        }
        if |rest| == 1 {
          assert Join(r, [c]) == [s[0]] + rest[0];
        } else {
          assert Join(rest, [c]) == rest[0] + [c] + Join(rest[1..], [c]);
          assert Join(r, [c]) == [s[0]] + rest[0] + [c] + Join(rest[1..], [c]);
        }
      }
    }
  }

  /** Drops one trailing carriage return. */
  function StripCr(s: string): (r: string)
    ensures r == s || (s != [] && r == s[..|s| - 1])
  {
    if s != [] && s[|s| - 1] == '\r' then s[..|s| - 1] else s
  }

  /** `str::lines`: pieces between line feeds, where a final line feed does
      not open an empty line, and a carriage return is dropped from the end
      of each line that a line feed terminates. */
  function Lines(s: string): (r: seq<string>)
    ensures s == [] ==> r == []
    ensures forall i :: 0 <= i < |r| ==> '\n' !in r[i]
  {
    var pieces := Split(s, '\n');
    SplitPieces(s, '\n');
    var last := pieces[|pieces| - 1];
    var init := seq(|pieces| - 1, i requires 0 <= i < |pieces| - 1 => StripCr(pieces[i]));
    assert forall i :: 0 <= i < |init| ==> '\n' !in init[i] by {
      forall i | 0 <= i < |init| ensures '\n' !in init[i] {
        NotInPrefix(pieces[i], |init[i]|, '\n');
      }
    }
    init + (if last == "" then [] else [last])
  }

  lemma NotInPrefix(s: string, k: nat, c: char)
    requires k <= |s| && c !in s
    ensures c !in s[..k]
  {
  }

  /** Decimal notation of a natural number, as Rust's `{}` formats it. */
  function NatToString(n: nat): (r: string)
    ensures |r| >= 1
  {
    var d := ['0', '1', '2', '3', '4', '5', '6', '7', '8', '9'][n % 10];
    if n < 10 then [d] else NatToString(n / 10) + [d]
  }

  /** Number of occurrences of `c` in `s`. */
  function Count(s: string, c: char): nat {
    if s == [] then 0 else (if s[0] == c then 1 else 0) + Count(s[1..], c)
  }

  lemma JoinAppend(parts: seq<string>, p: string, sep: string)
    requires parts != []
    ensures Join(parts + [p], sep) == Join(parts, sep) + sep + p
  {
    if |parts| > 1 {
      assert (parts + [p])[1..] == parts[1..] + [p];
      JoinAppend(parts[1..], p, sep);
    } else {
      assert parts + [p] == [parts[0], p];
    }
  }

  lemma LastOfAppend(p: string, q: string)
    requires q != []
    ensures (p + q)[|p + q| - 1] == q[|q| - 1]
  {
  }

  /** One step of a join: the first part, the separator, the rest. */
  lemma JoinTail(parts: seq<string>, sep: string)
    requires |parts| >= 2
    ensures Join(parts, sep) == parts[0] + sep + Join(parts[1..], sep)
  {
  }

  /** A join opens with its first part and closes with its last. */
  lemma {:induction false} JoinEnds(parts: seq<string>, sep: string)
    requires parts != []
    ensures var j, first, last := Join(parts, sep), parts[0], parts[|parts| - 1];
      && |j| >= |first| && j[..|first|] == first
      && |j| >= |last| && j[|j| - |last|..] == last
  {
    if |parts| > 1 {
      var rest := Join(parts[1..], sep);
      JoinEnds(parts[1..], sep);
      assert Join(parts, sep) == parts[0] + sep + rest;
      assert parts[1..][|parts[1..]| - 1] == parts[|parts| - 1];
    }
  }

  lemma ConcatAppend(a: seq<string>, b: seq<string>)
    ensures Concat(a + b) == Concat(a) + Concat(b)
  {
    if b == [] {
      assert a + b == a;
    } else {
      assert (a + b)[..|a + b| - 1] == a + b[..|b| - 1];
      ConcatAppend(a, b[..|b| - 1]);
    }
  }

  /** Splitting a joined list of separator-free pieces gives the pieces back. */
  lemma {:induction false} SplitJoin(parts: seq<string>, c: char)
    requires |parts| >= 1
    requires forall i :: 0 <= i < |parts| ==> c !in parts[i]
    ensures Split(Join(parts, [c]), c) == parts
  {
    if |parts| == 1 {
      SplitNoSeparator(parts[0], c);
    } else {
      SplitJoin(parts[1..], c);
      SplitPrefix(parts[0], Join(parts[1..], [c]), c);
    }
  }

  lemma {:induction false} SplitNoSeparator(s: string, c: char)
    requires c !in s
    ensures Split(s, c) == [s]
  {
    if s != [] {
      SplitNoSeparator(s[1..], c);
      assert [s[0]] + s[1..] == s;
    }
  }

  lemma {:induction false} SplitPrefix(p: string, t: string, c: char)
    requires c !in p
    ensures Split(p + [c] + t, c) == [p] + Split(t, c)
  {
    if p == [] {
      assert (p + [c] + t)[1..] == t;
    } else {
      var s := p + [c] + t;
      assert s[0] == p[0] && s[1..] == p[1..] + [c] + t;
      SplitPrefix(p[1..], t, c);
      assert [p[0]] + p[1..] == p;
    }
  }

  /** Appending whitespace does not change what `trim_end` keeps. */
  lemma {:induction false} TrimEndWhitespaceSuffix(x: string, ws: string)
    requires forall i :: 0 <= i < |ws| ==> IsWhitespace(ws[i])
    ensures TrimEnd(x + ws) == TrimEnd(x)
  {
    if ws != [] {
      assert (x + ws)[..|x + ws| - 1] == x + ws[..|ws| - 1];
      TrimEndWhitespaceSuffix(x, ws[..|ws| - 1]);
    } else {
      assert x + ws == x;
    }
  }

  /** Text that does not start with whitespace keeps its start under
      `trim_start`, whatever follows it. */
  lemma TrimStartKeeps(x: string)
    requires x != [] && !IsWhitespace(x[0])
    ensures TrimStart(x) == x
  {
  }

  lemma TrimEndKeeps(x: string)
    requires x != [] && !IsWhitespace(x[|x| - 1])
    ensures TrimEnd(x) == x
  {
  }

  /** `trim_end` never cuts into a prefix that ends in a non-whitespace
      character. */
  lemma {:induction false} TrimEndKeepsPrefix(x: string, y: string)
    requires x != [] && !IsWhitespace(x[|x| - 1])
    ensures |TrimEnd(x + y)| >= |x|
    ensures TrimEnd(x + y)[..|x|] == x
  {
    if y != [] && IsWhitespace(y[|y| - 1]) {
      assert (x + y)[..|x + y| - 1] == x + y[..|y| - 1];
      TrimEndKeepsPrefix(x, y[..|y| - 1]);
    } else if y == [] {
      assert x + y == x;
    }
    var r := TrimEnd(x + y);
    assert r[..|x|] == (x + y)[..|x|];
  }

  /** Trimming text that opens with visible text `x` followed by a line
      break keeps `x` at its start, followed by that line break or by
      nothing. */
  lemma TrimOpensWith(x: string, y: string)
    requires x != [] && !IsWhitespace(x[0]) && !IsWhitespace(x[|x| - 1])
    requires y != [] && y[0] == '\n'
    ensures var p := Trim(x + y);
      |p| >= |x| && p[..|x|] == x && (|p| == |x| || p[|x|] == '\n')
  {
    var all := x + y;
    assert all[0] == x[0];
    TrimStartKeeps(all);
    TrimEndKeepsPrefix(x, y);
    var p := Trim(all);
    assert p == TrimEnd(all);
    if |p| > |x| {
      assert p[|x|] == all[|x|] == y[0];
    }
  }

  /** The first line of a text that starts with `x` (a line with no line
      break, not ending in a carriage return) followed by a line break or
      by nothing is `x`. */
  lemma LinesFirst(x: string, w: string)
    requires x != [] && '\n' !in x && x[|x| - 1] != '\r'
    requires |w| >= |x| && w[..|x|] == x && (|w| == |x| || w[|x|] == '\n')
    ensures Lines(w) != [] && Lines(w)[0] == x
  {
    if |w| == |x| {
      assert w == x;
      SplitNoSeparator(x, '\n');
    } else {
      var t := w[|x| + 1..];
      assert w == x + ['\n'] + t;
      SplitPrefix(x, t, '\n');
    }
  }

  /** Two lines, with or without a final line break. */
  lemma LinesTwo(x: string, y: string)
    requires '\n' !in x && (x == [] || x[|x| - 1] != '\r')
    requires y != [] && '\n' !in y && y[|y| - 1] != '\r'
    ensures Lines(x + "\n" + y) == [x, y]
    ensures Lines(x + "\n" + y + "\n") == [x, y]
  {
    SplitTwo(x, y);
    LinesOfPieces(x + "\n" + y, [x, y]);
    SplitTwoEnded(x, y);
    LinesOfPieces(x + "\n" + y + "\n", [x, y, ""]);
  }

  lemma SplitTwo(x: string, y: string)
    requires '\n' !in x && '\n' !in y
    ensures Split(x + "\n" + y, '\n') == [x, y]
  {
    SplitNoSeparator(y, '\n');
    SplitPrefix(x, y, '\n');
    assert x + "\n" + y == x + ['\n'] + y;
  }

  lemma SplitTwoEnded(x: string, y: string)
    requires '\n' !in x && '\n' !in y
    ensures Split(x + "\n" + y + "\n", '\n') == [x, y, ""]
  {
    SplitPrefix(y, "", '\n');
    assert Split("", '\n') == [""];
    assert y + ['\n'] + "" == y + "\n";
    SplitPrefix(x, y + "\n", '\n');
    assert x + "\n" + y + "\n" == x + ['\n'] + (y + "\n");
  }

  /** The lines of a text split into pieces none of which, but the last,
      ends in a carriage return: the pieces, without a last empty one. */
  lemma LinesOfPieces(s: string, ps: seq<string>)
    requires Split(s, '\n') == ps
    requires forall i :: 0 <= i < |ps| - 1 ==> ps[i] == [] || ps[i][|ps[i]| - 1] != '\r'
    ensures var last := ps[|ps| - 1]; Lines(s) == ps[..|ps| - 1] + (if last == "" then [] else [last])
  {
    var init := seq(|ps| - 1, i requires 0 <= i < |ps| - 1 => StripCr(ps[i]));
    assert init == ps[..|ps| - 1];
  }

  /** Trimmed text is left as it is by a second trim. */
  lemma TrimTrimmed(x: string)
    ensures Trim(Trim(x)) == Trim(x)
  {
    var t := Trim(x);
    if t != [] {
      TrimStartKeeps(t);
      TrimEndKeeps(t);
    }
  }

  /** Trimming text padded with whitespace at its end gives the text back
      when the text itself starts and ends with a visible character. */
  lemma TrimPadded(x: string, ws: string)
    requires x != [] && !IsWhitespace(x[0]) && !IsWhitespace(x[|x| - 1])
    requires forall i :: 0 <= i < |ws| ==> IsWhitespace(ws[i])
    ensures Trim(x + ws) == x
  {
    assert (x + ws)[0] == x[0];
    TrimStartKeeps(x + ws);
    TrimEndWhitespaceSuffix(x, ws);
    TrimEndKeeps(x);
  }
}
