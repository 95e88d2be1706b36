/** Line framing and dot-stuffing (section 3 of RFC 1939) on the inbound byte stream. */
module Wire {
  import opened Basics
  import opened Strings

  type Line = s: string | '\n' !in s

  /** What the buffered reader's `read_line` takes off the stream: everything through
      the first line feed, or whatever is left when the stream ends without one. */
  function TakeLine(s: string): Option<(string, string)> {
    if s == "" then None
    else
      var n := FindLf(s);
      if n == |s| then Some((s, "")) else Some((s[..n + 1], s[n + 1..]))
  }

  function TrimCrlf(s: string): string {
    if |s| >= 2 && s[|s| - 2..] == "\r\n" then TrimCrlf(s[..|s| - 2]) else s
  }

  function TrimLf(s: string): string {
    if s != "" && s[|s| - 1] == '\n' then TrimLf(s[..|s| - 1]) else s
  }

  function TrimEol(s: string): string { TrimLf(TrimCrlf(s)) }

  function Unstuff(s: string): string {
    if |s| >= 2 && s[..2] == ".." then s[1..] else s
  }

  /** One multi-line body: its text and the stream behind the terminator, or `None`
      when the stream ends first. */
  function Decode(s: string): Option<(string, string)>
    decreases |s|
  {
    match TakeLine(s)
    case None => None
    case Some((line, rest)) =>
      var t := TrimEol(line);
      if t == "." then Some(("", rest)) else Prefixed(Unstuff(t) + "\n", Decode(rest))
  }

  /** How many lines the reader takes for a body, terminator included. */
  function BodyLines(s: string): nat
    decreases |s|
  {
    match TakeLine(s)
    case None => 0
    case Some((line, rest)) => 1 + if TrimEol(line) == "." then 0 else BodyLines(rest)
  }

  /** The same body with more text in front. */
  function Prefixed(text: string, d: Option<(string, string)>): Option<(string, string)> {
    match d case None => None case Some((body, tail)) => Some((text + body, tail))
  }

  lemma PrefixedLaws(a: string, b: string, d: Option<(string, string)>)
    ensures Prefixed("", d) == d
    ensures Prefixed(a, Prefixed(b, d)) == Prefixed(a + b, d)
    ensures d.Some? && d.value.0 == "" ==> Prefixed(a, d) == Some((a, d.value.1))
  {
    match d
    case None =>
    case Some((body, tail)) => Associative(a, b, body); assert "" + body == body; assert body == "" ==> a + body == a;
  }

  // ---- the sending side, as section 3 of RFC 1939 asks of a server ----

  function Stuff(line: string): string {
    if line != "" && line[0] == '.' then "." + line else line
  }

  /** The stuffed lines, without the terminator. */
  function Body(lines: seq<string>): string {
    if lines == [] then "" else Stuff(lines[0]) + "\r\n" + Body(lines[1..])
  }

  function Encode(lines: seq<string>): string { Body(lines) + ".\r\n" }

  // ---- lemmas ----

  lemma TrimClean(t: string)
    requires '\n' !in t
    ensures TrimCrlf(t) == t && TrimLf(t) == t
  {
    if |t| >= 2 { assert t[|t| - 2..][1] == t[|t| - 1]; }
  }

  lemma TrimEolOf(t: string)
    requires '\n' !in t
    ensures TrimEol(t + "\r\n") == t
    ensures TrimEol(t) == t
  {
    var s := t + "\r\n";
    assert s[|s| - 2..] == "\r\n" && s[..|s| - 2] == t;
    TrimClean(t);
    assert TrimCrlf(s) == TrimCrlf(s[..|s| - 2]);
  }

  /** A line may also end in a bare line feed. */
  lemma TrimBareLf(t: string)
    requires '\n' !in t && (t == "" || t[|t| - 1] != '\r')
    ensures TrimEol(t + "\n") == t
  {
    var s := t + "\n";
    assert |s| >= 2 ==> s[|s| - 2..] == [s[|s| - 2], '\n'];
    assert s[..|s| - 1] == t;
    TrimClean(t);
    assert TrimCrlf(s) == s;
  }

  /** Only a line that opens with two dots is changed. */
  lemma UnstuffKeeps(s: string)
    requires !(|s| >= 2 && s[0] == '.' && s[1] == '.')
    ensures Unstuff(s) == s
  {
    if |s| >= 2 { assert s[..2][0] == s[0] && s[..2][1] == s[1]; }
  }

  lemma TakeLineOf(t: string, rest: string)
    requires '\n' !in t
    ensures TakeLine(t + "\r\n" + rest) == Some((t + "\r\n", rest))
    ensures t != "" ==> TakeLine(t) == Some((t, ""))
  {
    FindLfOf(t + "\r", "\n" + rest);
    var s := t + "\r\n" + rest;
    assert s == (t + "\r") + ("\n" + rest);
    assert s[..|t| + 2] == t + "\r\n";
    assert s[|t| + 2..] == rest;
    FindLfOf(t, "");
    assert t + "" == t;
  }

  lemma StuffInverse(l: Line)
    ensures '\n' !in Stuff(l) && Stuff(l) != "." && Unstuff(Stuff(l)) == l
  {
    assert ("." + l)[1..] == l;
    if l != "" && l[0] == '.' { assert ("." + l)[..2] == ".."; }
    else if |l| >= 2 { assert l[..2][0] == l[0]; }
  }

  lemma DecodeLine(l: Line, rest: string)
    ensures Decode(Stuff(l) + "\r\n" + rest) == Prefixed(l + "\n", Decode(rest))
  {
    StuffInverse(l);
    TakeLineOf(Stuff(l), rest);
    TrimEolOf(Stuff(l));
  }

  /** Lines that end in a bare line feed are read like the others. */
  lemma DecodeBareLf(t: Line, rest: string)
    requires t != "." && (t == "" || t[|t| - 1] != '\r')
    ensures Decode(t + "\n" + rest) == Prefixed(Unstuff(t) + "\n", Decode(rest))
  {
    BareLine(t, rest);
    TrimBareLf(t);
  }

  lemma DecodeBareDot(tail: string)
    ensures Decode(".\n" + tail) == Some(("", tail))
  {
    BareLine(".", tail);
    TrimBareLf(".");
    assert "." + "\n" == ".\n";
  }

  lemma BareLine(t: string, rest: string)
    requires '\n' !in t
    ensures TakeLine(t + "\n" + rest) == Some((t + "\n", rest))
  {
    FindLfOf(t, "\n" + rest);
    var s := t + "\n" + rest;
    assert s == t + ("\n" + rest);
    assert s[..|t| + 1] == t + "\n" && s[|t| + 1..] == rest;
  }

  lemma DecodeDot(tail: string)
    ensures Decode(".\r\n" + tail) == Some(("", tail))
  {
    TakeLineOf(".", tail);
    TrimEolOf(".");
    assert "." + "\r\n" == ".\r\n";
  }

  lemma DecodeCons(l: Line, lines: seq<string>, more: string, rest: string)
    requires Decode(more) == Prefixed(Unlines(lines), Decode(rest))
    ensures Decode(Stuff(l) + "\r\n" + more) == Prefixed(l + "\n" + Unlines(lines), Decode(rest))
  {
    DecodeLine(l, more);
    PrefixedLaws(l + "\n", Unlines(lines), Decode(rest));
  }

  /** Decoding a stream that starts with whole stuffed lines peels them off. */
  lemma {:induction false} DecodeBody(lines: seq<Line>, rest: string)
    ensures Decode(Body(lines) + rest) == Prefixed(Unlines(lines), Decode(rest))
  {
    if lines == [] {
      assert Body(lines) + rest == rest;
      PrefixedLaws("", "", Decode(rest));
    } else {
      var more := Body(lines[1..]) + rest;
      DecodeBody(lines[1..], rest);
      DecodeCons(lines[0], lines[1..], more, rest);
      assert Body(lines) + rest == Stuff(lines[0]) + "\r\n" + more by {
        Associative(Stuff(lines[0]) + "\r\n", Body(lines[1..]), rest);
      }
    }
  }

  /** Framing round trip: the decoder returns exactly the lines and leaves exactly the tail. */
  lemma RoundTrip(lines: seq<Line>, tail: string)
    ensures Decode(Encode(lines) + tail) == Some((Unlines(lines), tail))
  {
    var rest := ".\r\n" + tail;
    assert Decode(rest) == Some(("", tail)) by { DecodeDot(tail); }
    assert Encode(lines) + tail == Body(lines) + rest by { Associative(Body(lines), ".\r\n", tail); }
    assert Decode(Body(lines) + rest) == Prefixed(Unlines(lines), Some(("", tail))) by { DecodeBody(lines, rest); }
    PrefixedLaws(Unlines(lines), "", Some(("", tail)));
  }

  lemma {:induction false} BodyLinesOf(lines: seq<Line>)
    ensures BodyLines(Encode(lines)) == |lines| + 1
  {
    if lines == [] {
      TakeLineOf(".", "");
      TrimEolOf(".");
      assert Encode(lines) == "." + "\r\n" + "";
    } else {
      var rest := Encode(lines[1..]);
      StuffInverse(lines[0]);
      TakeLineOf(Stuff(lines[0]), rest);
      TrimEolOf(Stuff(lines[0]));
      assert Encode(lines) == Stuff(lines[0]) + "\r\n" + rest by {
        Associative(Stuff(lines[0]) + "\r\n", Body(lines[1..]), ".\r\n");
      }
      BodyLinesOf(lines[1..]);
    }
  }

  lemma {:induction false} UnlinesInjective(a: seq<Line>, b: seq<Line>)
    requires Unlines(a) == Unlines(b)
    ensures a == b
  {
    if a != [] && b != [] {
      var x, y := a[0], b[0];
      FindLfOf(x, "\n" + Unlines(a[1..]));
      FindLfOf(y, "\n" + Unlines(b[1..]));
      assert Unlines(a) == x + ("\n" + Unlines(a[1..]));
      assert Unlines(b) == y + ("\n" + Unlines(b[1..]));
      assert Unlines(a)[..|x|] == x && Unlines(b)[..|x|] == y;
      assert Unlines(a)[|x| + 1..] == Unlines(a[1..]);
      assert Unlines(b)[|x| + 1..] == Unlines(b[1..]);
      UnlinesInjective(a[1..], b[1..]);
    }
  }

  function EncodeAll(bodies: seq<seq<Line>>): string {
    if bodies == [] then "" else Encode(bodies[0]) + EncodeAll(bodies[1..])
  }

  lemma FirstBodyUnique(a: seq<Line>, b: seq<Line>, x: string, y: string)
    requires Encode(a) + x == Encode(b) + y
    ensures a == b && x == y
  {
    RoundTrip(a, x);
    RoundTrip(b, y);
    UnlinesInjective(a, b);
  }

  /** The framing is self-delimiting: a concatenation of multi-line bodies determines
      every one of them, whatever follows. */
  lemma {:induction false} UniqueDecoding(a: seq<seq<Line>>, b: seq<seq<Line>>, x: string, y: string)
    requires |a| == |b| && EncodeAll(a) + x == EncodeAll(b) + y
    ensures a == b && x == y
  {
    if a == [] {
      assert EncodeAll(a) + x == x && EncodeAll(b) + y == y;
    } else {
      var p, q := EncodeAll(a[1..]) + x, EncodeAll(b[1..]) + y;
      Associative(Encode(a[0]), EncodeAll(a[1..]), x);
      Associative(Encode(b[0]), EncodeAll(b[1..]), y);
      FirstBodyUnique(a[0], b[0], p, q);
      UniqueDecoding(a[1..], b[1..], x, y);
    }
  }

  /** The j-th physical line of an encoded body, the terminator counting as the last. */
  function PhysicalLine(lines: seq<string>, j: nat): string
    requires j <= |lines|
  {
    if j == |lines| then ".\r\n" else Stuff(lines[j]) + "\r\n"
  }

  lemma {:induction false} BodyAppend(a: seq<string>, b: seq<string>)
    ensures Body(a + b) == Body(a) + Body(b)
  {
    if a == [] {
      assert a + b == b;
      assert "" + Body(b) == Body(b);
    } else {
      var c := a + b;
      assert c[0] == a[0] && c[1..] == a[1..] + b;
      BodyAppend(a[1..], b);
      Associative(Stuff(a[0]) + "\r\n", Body(a[1..]), Body(b));
    }
  }

  lemma Associative(x: string, y: string, z: string)
    ensures (x + y) + z == x + (y + z)
  {}

  lemma PhysicalLineSplits(lines: seq<string>, j: nat)
    requires j <= |lines|
    ensures Body(lines[..j]) + PhysicalLine(lines, j) <= Encode(lines)
  {
    assert lines == lines[..j] + lines[j..];
    BodyAppend(lines[..j], lines[j..]);
    if j == |lines| {
      assert lines[..j] == lines;
    } else {
      assert Body(lines[j..]) == PhysicalLine(lines, j) + Body(lines[j + 1..]);
    }
  }

  /** What the reader makes of a body that is cut off inside its j-th physical line,
      after `o` characters. It reports the loss, except when the cut falls right after
      a leading dot: an unterminated "." at the end of the stream passes for the
      terminator, and a message cut there is returned as if it were complete. */
  lemma CutBody(lines: seq<Line>, j: nat, o: nat)
    requires j <= |lines| && o < |PhysicalLine(lines, j)|
    ensures Body(lines[..j]) + PhysicalLine(lines, j)[..o] <= Encode(lines)
    ensures Decode(Body(lines[..j]) + PhysicalLine(lines, j)[..o]) ==
            if o == 1 && PhysicalLine(lines, j)[0] == '.' then Some((Unlines(lines[..j]), "")) else None
  {
    var p := PhysicalLine(lines, j);
    var cut := p[..o];
    PhysicalLineSplits(lines, j);
    InnerCut(lines, j, o);
    assert Decode(Body(lines[..j]) + cut) == Prefixed(Unlines(lines[..j]), Decode(cut)) by {
      DecodeBody(lines[..j], cut);
    }
    CutFragment(cut);
    PrefixedLaws(Unlines(lines[..j]), "", Decode(cut));
  }

  lemma InnerCut(lines: seq<Line>, j: nat, o: nat)
    requires j <= |lines| && o < |PhysicalLine(lines, j)|
    ensures var p := PhysicalLine(lines, j); '\n' !in p[..o] && (p[..o] == "." <==> o == 1 && p[0] == '.')
  {
    var p := PhysicalLine(lines, j);
    if j < |lines| { StuffInverse(lines[j]); }
    assert '\n' !in p[..|p| - 1];
    assert forall i :: 0 <= i < o ==> p[..o][i] == p[..|p| - 1][i];
    assert o > 0 ==> p[..o][0] == p[0];
  }

  /** The end of the stream inside a line. */
  lemma CutFragment(cut: string)
    requires '\n' !in cut
    ensures Decode(cut) == if cut == "." then Some(("", "")) else None
  {
    TrimEolOf(cut);
    if cut != "" { TakeLineOf(cut, ""); }
    assert Decode("") == None;
  }

  /** Cut between lines, an incomplete body is always reported as incomplete. */
  lemma CutAtLineBoundary(lines: seq<Line>, j: nat)
    requires j <= |lines|
    ensures Decode(Body(lines[..j])) == None
  {
    CutBody(lines, j, 0);
    assert Body(lines[..j]) + PhysicalLine(lines, j)[..0] == Body(lines[..j]);
  }

  /** The smallest messages that a cut connection silently shortens, such as "a", ".b":
      two lines of which the second opens with a dot. */
  lemma SilentTruncation(first: Line, second: Line)
    requires second != "" && second[0] == '.'
    ensures Body([first]) + "." <= Encode([first, second])
    ensures Decode(Body([first]) + ".") == Some((Unlines([first]), ""))
  {
    var ls: seq<Line> := [first, second];
    CutBody(ls, 1, 1);
    assert ls[..1] == [first];
    var p := PhysicalLine(ls, 1);
    assert p[0] == '.' && p[..1] == ".";
  }
}
