/** Character-level operations that the parsers take from Rust's `str`. */
module Strings {
  import opened Basics

  const U32_MAX: nat := 0xFFFF_FFFF
  const U64_MAX: nat := 0xFFFF_FFFF_FFFF_FFFF

  /** `char::is_whitespace`: the Unicode White_Space property. */
  predicate IsWs(c: char) {
    var n := c as int;
    9 <= n <= 13 || n == 32 || n == 0x85 || n == 0xA0 || n == 0x1680 || 0x2000 <= n <= 0x200A
    || n == 0x2028 || n == 0x2029 || n == 0x202F || n == 0x205F || n == 0x3000
  }

  /** `u8::is_ascii_whitespace`; note that U+000B is not in it. */
  predicate IsAsciiWs(c: char) {
    c == ' ' || c == '\t' || c == '\n' || c == '\r' || c as int == 12
  }

  predicate Clean(s: string) { '\r' !in s && '\n' !in s }

  /** Non-empty and free of whitespace: unique-ids, capability names and arguments. */
  type Word = s: string | IsWord(s) witness "w"

  predicate IsWord(s: string) { s != "" && forall i :: 0 <= i < |s| ==> !IsWs(s[i]) }

  function TrimStart(s: string): (r: string)
    ensures r == "" || !IsWs(r[0])
    ensures s == "" || !IsWs(s[0]) ==> r == s
  {
    if s != "" && IsWs(s[0]) then TrimStart(s[1..]) else s
  }

  function TrimEnd(s: string): (r: string)
    ensures s == "" || !IsWs(s[|s| - 1]) ==> r == s
  {
    if s != "" && IsWs(s[|s| - 1]) then TrimEnd(s[..|s| - 1]) else s
  }

  function Trim(s: string): string { TrimEnd(TrimStart(s)) }

  function WordLen(s: string): (n: nat)
    ensures n <= |s|
    ensures forall i :: 0 <= i < n ==> !IsWs(s[i])
    ensures n < |s| ==> IsWs(s[n])
  {
    if s == "" || IsWs(s[0]) then 0 else 1 + WordLen(s[1..])
  }

  /** `split_whitespace`. */
  function SplitWs(s: string): seq<string>
    decreases |s|
  {
    TrimStartShrinks(s);
    var t := TrimStart(s);
    if t == "" then []
    else
      var n := WordLen(t);
      [t[..n]] + SplitWs(t[n..])
  }

  lemma TrimStartShrinks(s: string)
    ensures |TrimStart(s)| <= |s|
  {}

  function JoinWords(ws: seq<string>): string {
    if |ws| == 0 then ""
    else if |ws| == 1 then ws[0]
    else ws[0] + " " + JoinWords(ws[1..])
  }

  lemma {:induction false} JoinWordsEnds(ws: seq<Word>)
    requires |ws| > 0
    ensures var j := JoinWords(ws); j != "" && !IsWs(j[0]) && !IsWs(j[|j| - 1])
  {
    if |ws| > 1 { JoinWordsEnds(ws[1..]); }
  }

  /** A word followed by a blank splits off as the first field. */
  lemma SplitFirst(w: Word, rest: string)
    ensures SplitWs(w) == [w]
    ensures SplitWs(w + " " + rest) == [w] + SplitWs(rest)
  {
    WordLenOf(w, "");
    assert w + "" == w;
    assert SplitWs(w) == [w];
    var s := w + " " + rest;
    WordLenOf(w, " " + rest);
    assert s == w + (" " + rest);
    assert TrimStart(s) == s;
    assert s[..|w|] == w;
    assert s[|w|..] == " " + rest;
    SplitBlank(rest);
  }

  lemma SplitBlank(rest: string)
    ensures SplitWs(" " + rest) == SplitWs(rest)
  {
    assert (" " + rest)[1..] == rest;
    assert TrimStart(" " + rest) == TrimStart(rest);
  }

  /** Any run of white space separates like one blank, and in front it does not matter. */
  lemma {:induction false} SplitGap(gap: string, rest: string)
    requires forall i :: 0 <= i < |gap| ==> IsWs(gap[i])
    ensures SplitWs(gap + rest) == SplitWs(rest)
  {
    if gap == "" {
      assert gap + rest == rest;
    } else {
      assert (gap + rest)[0] == gap[0] && (gap + rest)[1..] == gap[1..] + rest;
      assert TrimStart(gap + rest) == TrimStart(gap[1..] + rest);
      SplitGap(gap[1..], rest);
    }
  }

  lemma SplitWord(w: Word, gap: string, rest: string)
    requires gap != "" && forall i :: 0 <= i < |gap| ==> IsWs(gap[i])
    ensures SplitWs(w + gap + rest) == [w] + SplitWs(rest)
  {
    var s := w + gap + rest;
    assert s == w + (gap + rest);
    WordLenOf(w, gap + rest);
    assert TrimStart(s) == s && s[..|w|] == w && s[|w|..] == gap + rest;
    SplitGap(gap, rest);
  }

  lemma {:induction false} WordLenOf(w: Word, rest: string)
    requires rest == "" || IsWs(rest[0])
    ensures WordLen(w + rest) == |w|
  {
    assert forall i :: 0 <= i < |w| ==> (w + rest)[i] == w[i];
    assert rest != "" ==> (w + rest)[|w|] == rest[0];
  }

  /** Splitting undoes joining: no field is lost, merged or reordered. */
  lemma {:induction false} SplitJoin(ws: seq<Word>)
    ensures SplitWs(JoinWords(ws)) == ws
    ensures |ws| > 0 ==> SplitWs(Trim(JoinWords(ws))) == ws
  {
    if |ws| > 0 {
      JoinWordsEnds(ws);
      SplitFirst(ws[0], JoinWords(ws[1..]));
      if |ws| > 1 { SplitJoin(ws[1..]); }
    }
  }

  // ---- decimals ----

  predicate IsDigit(c: char) { '0' <= c <= '9' }

  function Digit(d: nat): char requires d < 10 { ('0' as int + d) as char }

  function DigitValue(c: char): nat requires IsDigit(c) { c as int - '0' as int }

  /** `format!("{n}")` for an unsigned integer. */
  function Dec(n: nat): (s: string)
    ensures s != "" && forall i :: 0 <= i < |s| ==> IsDigit(s[i])
  {
    if n < 10 then [Digit(n)] else Dec(n / 10) + [Digit(n % 10)]
  }

  lemma DecIsWord(n: nat)
    ensures IsWord(Dec(n))
  {
    var s := Dec(n);
    forall i | 0 <= i < |s| ensures !IsWs(s[i]) { assert IsDigit(s[i]); }
  }

  function Value(s: string): nat
    requires forall i :: 0 <= i < |s| ==> IsDigit(s[i])
  {
    if s == "" then 0 else Value(s[..|s| - 1]) * 10 + DigitValue(s[|s| - 1])
  }

  /** `str::parse` into an unsigned integer type with the given maximum: an optional
      plus sign, then at least one digit, no overflow. */
  function ParseUint(s: string, max: nat): Option<nat> {
    ParseDigits(if s != "" && s[0] == '+' then s[1..] else s, max)
  }

  function ParseDigits(d: string, max: nat): Option<nat> {
    if d == "" || exists i :: 0 <= i < |d| && !IsDigit(d[i]) then None
    else if Value(d) <= max then Some(Value(d)) else None
  }

  lemma {:induction false} ValueOfDec(n: nat)
    ensures Value(Dec(n)) == n
  {
    if n >= 10 {
      ValueOfDec(n / 10);
      assert Dec(n)[..|Dec(n)| - 1] == Dec(n / 10);
    }
  }

  /** Printing then parsing is the identity exactly on the range of the type. */
  lemma ParseDec(n: nat, max: nat)
    ensures ParseUint(Dec(n), max) == if n <= max then Some(n) else None
  {
    ValueOfDec(n);
    assert IsDigit(Dec(n)[0]);
  }

  /** A plus sign is let pass; anything else than digits is not. */
  lemma PlusSign(n: nat, max: nat)
    ensures ParseUint("+" + Dec(n), max) == if n <= max then Some(n) else None
  {
    ValueOfDec(n);
    assert ("+" + Dec(n))[1..] == Dec(n);
  }

  lemma NoNumber(s: string, max: nat, i: nat)
    requires s != "+" ==> i < |s| && !IsDigit(s[i]) && (i > 0 || s[0] != '+')
    ensures ParseUint(s, max).None?
  {
    if s != "+" {
      var d := if s[0] == '+' then s[1..] else s;
      assert !IsDigit(d[if s[0] == '+' then i - 1 else i]);
    }
  }

  lemma {:induction false} DecLength(n: nat, digits: nat, bound: nat)
    requires digits >= 1 && n < bound && bound == Pow10(digits)
    ensures |Dec(n)| <= digits
  {
    if n >= 10 {
      assert Pow10(1) == 10 * Pow10(0) == 10;
      DecLength(n / 10, digits - 1, bound / 10);
    }
  }

  lemma {:induction false} DecLengthAtLeast(n: nat, digits: nat, bound: nat)
    requires digits >= 1 && n >= bound && bound == Pow10(digits - 1)
    ensures |Dec(n)| >= digits
  {
    if digits > 1 {
      assert bound == 10 * Pow10(digits - 2);
      DecLengthAtLeast(n / 10, digits - 1, bound / 10);
    }
  }

  function Pow10(k: nat): nat { if k == 0 then 1 else 10 * Pow10(k - 1) }

  // ---- lines ----

  /** Position of the first line feed, or the length when there is none. */
  function FindLf(s: string): (n: nat)
    ensures n <= |s|
    ensures forall i :: 0 <= i < n ==> s[i] != '\n'
    ensures n < |s| ==> s[n] == '\n'
  {
    if s == "" || s[0] == '\n' then 0 else 1 + FindLf(s[1..])
  }

  lemma FindLfOf(line: string, tail: string)
    requires '\n' !in line
    requires tail == "" || tail[0] == '\n'
    ensures FindLf(line + tail) == |line|
  {
    assert forall i :: 0 <= i < |line| ==> (line + tail)[i] == line[i];
    assert tail != "" ==> (line + tail)[|line|] == tail[0];
  }

  function StripCr(s: string): string {
    if s != "" && s[|s| - 1] == '\r' then s[..|s| - 1] else s
  }

  /** `str::lines`: a final line feed does not open an empty last line, and a carriage
      return is dropped only in front of a line feed. */
  function Lines(s: string): seq<string>
    decreases |s|
  {
    if s == "" then []
    else
      var n := FindLf(s);
      if n == |s| then [s] else [StripCr(s[..n])] + Lines(s[n + 1..])
  }

  function Unlines(ls: seq<string>): string {
    if ls == [] then "" else ls[0] + "\n" + Unlines(ls[1..])
  }

  lemma {:induction false} LinesUnlines(ls: seq<string>)
    requires forall i :: 0 <= i < |ls| ==> Clean(ls[i])
    ensures Lines(Unlines(ls)) == ls
  {
    if ls != [] {
      var rest := Unlines(ls[1..]);
      FindLfOf(ls[0], "\n" + rest);
      var s := Unlines(ls);
      assert s == ls[0] + ("\n" + rest);
      assert s[..|ls[0]|] == ls[0];
      assert s[|ls[0]| + 1..] == rest;
      LinesUnlines(ls[1..]);
    }
  }
}
