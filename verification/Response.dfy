/** The parsers for status lines and for the STAT, LIST, UIDL and CAPA payloads. */
module Response {
  import opened Basics
  import opened Strings
  import opened Wire

  datatype Stat = Stat(messageCount: nat, mailboxSize: nat)
  datatype ListEntry = ListEntry(messageId: nat, size: nat)
  datatype UidlEntry = UidlEntry(messageId: nat, uniqueId: string)
  datatype Capability = Capability(name: string, arguments: seq<string>)

  predicate StartsWith(s: string, p: string) { p <= s }

  function FindChar(s: string, c: char): (n: nat)
    ensures n <= |s|
    ensures forall i :: 0 <= i < n ==> s[i] != c
    ensures n < |s| ==> s[n] == c
  {
    if s == "" || s[0] == c then 0 else 1 + FindChar(s[1..], c)
  }

  function ParseRespCode(text: string): Error {
    if StartsWith(text, "[") then
      var inner := text[1..];
      var end := FindChar(inner, ']');
      if end < |inner| then
        var code := inner[..end];
        var rest := TrimStart(inner[end + 1..]);
        match code
        case "IN-USE" => MailboxInUse(rest)
        case "LOGIN-DELAY" => LoginDelay(rest)
        case "SYS/TEMP" => SysTemp(rest)
        case "SYS/PERM" => SysPerm(rest)
        case "AUTH" => AuthFailed(rest)
        case _ => ServerError(text)
      else ServerError(text)
    else ServerError(text)
  }

  function ParseStatus(raw: string): Result<string> {
    var line := TrimEol(raw);
    if StartsWith(line, "+OK") && (|line| == 3 || IsAsciiWs(line[3])) then
      Ok(TrimStart(line[3..]))
    else if StartsWith(line, "-ERR") && (|line| == 4 || IsAsciiWs(line[4])) then
      Err(ParseRespCode(TrimStart(line[4..])))
    else
      Err(Parse)
  }

  function ParseStat(text: string): Result<Stat> {
    var parts := SplitWs(text);
    if |parts| < 2 then Err(Parse)
    else
      match (ParseUint(parts[0], U32_MAX), ParseUint(parts[1], U64_MAX))
      case (Some(n), Some(size)) => Ok(Stat(n, size))
      case _ => Err(Parse)
  }

  function ParseListEntry(line: string): Result<ListEntry> {
    var parts := SplitWs(Trim(line));
    if |parts| != 2 then Err(Parse)
    else
      match (ParseUint(parts[0], U32_MAX), ParseUint(parts[1], U64_MAX))
      case (Some(id), Some(size)) => Ok(ListEntry(id, size))
      case _ => Err(Parse)
  }

  function ParseUidlEntry(line: string): Result<UidlEntry> {
    var parts := SplitWs(Trim(line));
    if |parts| != 2 then Err(Parse)
    else
      match ParseUint(parts[0], U32_MAX)
      case Some(id) => Ok(UidlEntry(id, parts[1]))
      case None => Err(Parse)
  }

  /** `filter(non-empty).map(parse).collect::<Result<Vec<_>>>()`: the first error wins. */
  function ParseAll<T>(lines: seq<string>, parse: string -> Result<T>): Result<seq<T>> {
    if lines == [] then Ok([])
    else if lines[0] == "" then ParseAll(lines[1..], parse)
    else
      match parse(lines[0])
      case Err(e) => Err(e)
      case Ok(v) =>
        match ParseAll(lines[1..], parse)
        case Err(e) => Err(e)
        case Ok(vs) => Ok([v] + vs)
  }

  function ParseListMulti(body: string): Result<seq<ListEntry>> {
    ParseAll(Lines(body), ParseListEntry)
  }

  function ParseUidlMulti(body: string): Result<seq<UidlEntry>> {
    ParseAll(Lines(body), ParseUidlEntry)
  }

  function ParseCapa(body: string): seq<Capability> { ParseCapaLines(Lines(body)) }

  function ParseCapaLines(lines: seq<string>): seq<Capability> {
    if lines == [] then []
    else
      var t := Trim(lines[0]);
      var rest := ParseCapaLines(lines[1..]);
      if t == "" then rest
      else
        var parts := SplitWs(t);
        [if parts == [] then Capability("", []) else Capability(parts[0], parts[1..])] + rest
  }

  // ---- what a conforming server prints ----

  /** The argument of a status line: nothing, or a blank and the text. */
  function Sp(text: string): string { if text == "" then "" else " " + text }

  type StatusText = t: string | IsStatusText(t) witness ""

  /** Free text as a server sends it: one line, not starting with a blank. */
  predicate IsStatusText(t: string) { Clean(t) && (t == "" || !IsWs(t[0])) }

  datatype Code = NoCode | InUse | LoginDelayCode | SysTempCode | SysPermCode | AuthCode | Other(name: string)

  function CodeName(c: Code): string
    requires !c.NoCode?
  {
    match c
    case InUse => "IN-USE"
    case LoginDelayCode => "LOGIN-DELAY"
    case SysTempCode => "SYS/TEMP"
    case SysPermCode => "SYS/PERM"
    case AuthCode => "AUTH"
    case Other(name) => name
  }

  predicate KnownName(name: string) {
    name in ["IN-USE", "LOGIN-DELAY", "SYS/TEMP", "SYS/PERM", "AUTH"]
  }

  datatype RawRefusal = Refusal(code: Code, text: StatusText)

  /** A refusal whose printed form is unambiguous: brackets open the text only to hold
      a response code (section 8 of RFC 2449). */
  predicate Conforming(r: RawRefusal) {
    (r.code.NoCode? ==> r.text == "" || r.text[0] != '[') &&
    (r.code.Other? ==> Clean(r.code.name) && ']' !in r.code.name && !KnownName(r.code.name))
  }

  type Refusal = r: RawRefusal | Conforming(r) witness Refusal(NoCode, "")

  function RefusalText(r: Refusal): string {
    if r.code.NoCode? then r.text else "[" + CodeName(r.code) + "]" + Sp(r.text)
  }

  /** The error a refusal stands for: its code decides, unknown codes count as none. */
  function ErrorOf(r: Refusal): Error {
    match r.code
    case InUse => MailboxInUse(r.text)
    case LoginDelayCode => LoginDelay(r.text)
    case SysTempCode => SysTemp(r.text)
    case SysPermCode => SysPerm(r.text)
    case AuthCode => AuthFailed(r.text)
    case NoCode => ServerError(r.text)
    case Other(_) => ServerError(RefusalText(r))
  }

  function OkLine(text: StatusText): string { "+OK" + Sp(text) + "\r\n" }

  function ErrLine(r: Refusal): string { "-ERR" + Sp(RefusalText(r)) + "\r\n" }

  // ---- status lines ----

  lemma TrimSp(text: string)
    requires text == "" || !IsWs(text[0])
    ensures TrimStart(Sp(text)) == text
    ensures Sp(text) != "" ==> IsAsciiWs(Sp(text)[0])
  {
    if text != "" { assert (" " + text)[1..] == text; }
  }

  /** A positive status line parses back to its text. */
  lemma StatusOk(text: StatusText)
    ensures '\n' !in "+OK" + Sp(text)
    ensures ParseStatus(OkLine(text)) == Ok(text)
  {
    var line := "+OK" + Sp(text);
    TrimEolOf(line);
    TrimSp(text);
    assert line[3..] == Sp(text) && line[..3] == "+OK";
  }

  lemma RefusalTextIsStatusText(r: Refusal)
    ensures IsStatusText(RefusalText(r))
  {}

  lemma FindCharOf(s: string, c: char, rest: string)
    requires c !in s
    ensures FindChar(s + [c] + rest, c) == |s|
  {
    var t := s + [c] + rest;
    assert forall i :: 0 <= i < |s| ==> t[i] == s[i];
    assert t[|s|] == c;
  }

  lemma RespCodeOf(r: Refusal)
    ensures ParseRespCode(RefusalText(r)) == ErrorOf(r)
  {
    if r.code.Other? {
      UnknownText(r.code.name, Sp(r.text));
    } else if !r.code.NoCode? {
      CodedText(CodeName(r.code), Sp(r.text));
      TrimSp(r.text);
    }
  }

  lemma UnknownText(name: string, rest: string)
    requires ']' !in name && !KnownName(name)
    ensures ParseRespCode("[" + name + "]" + rest) == ServerError("[" + name + "]" + rest)
  {
    var text := "[" + name + "]" + rest;
    assert text[1..] == name + [']'] + rest;
    FindCharOf(name, ']', rest);
    assert text[1..][..|name|] == name;
  }

  /** The error a known code stands for. */
  function CodeError(name: string, text: string): Error {
    if name == "IN-USE" then MailboxInUse(text)
    else if name == "LOGIN-DELAY" then LoginDelay(text)
    else if name == "SYS/TEMP" then SysTemp(text)
    else if name == "SYS/PERM" then SysPerm(text)
    else AuthFailed(text)
  }

  /** On any text whatever: a known code at the start decides and is cut off, and without one
      the whole text is that of a server error. */
  lemma CodedText(name: string, rest: string)
    requires KnownName(name)
    ensures ParseRespCode("[" + name + "]" + rest) == CodeError(name, TrimStart(rest))
  {
    var text := "[" + name + "]" + rest;
    assert text[1..] == name + [']'] + rest;
    assert ']' !in name;
    FindCharOf(name, ']', rest);
    assert text[1..][..|name|] == name && text[1..][|name| + 1..] == rest;
  }

  lemma ErrLineOf(text: StatusText)
    ensures '\n' !in "-ERR" + Sp(text)
    ensures ParseStatus("-ERR" + Sp(text) + "\r\n") == Err(ParseRespCode(text))
  {
    var line := "-ERR" + Sp(text);
    TrimEolOf(line);
    TrimSp(text);
    assert line[4..] == Sp(text) && line[..4] == "-ERR";
    assert line[0] == '-';
  }

  /** A negative status line parses back to the error its refusal stands for. */
  lemma StatusErr(r: Refusal)
    ensures '\n' !in "-ERR" + Sp(RefusalText(r))
    ensures ParseStatus(ErrLine(r)) == Err(ErrorOf(r))
  {
    RefusalTextIsStatusText(r);
    ErrLineOf(RefusalText(r));
    RespCodeOf(r);
  }

  /** On any line whatever, the only retryable status is `-ERR` with a text that opens
      with "[SYS/TEMP]"; no status line is ever mistaken for an I/O failure. */
  lemma RetryableStatus(raw: string)
    ensures var line := TrimEol(raw);
            var r := ParseStatus(raw);
            (r.Err? && r.error.SysTemp?) <==>
              (StartsWith(line, "-ERR") && (|line| == 4 || IsAsciiWs(line[4]))
               && StartsWith(TrimStart(line[4..]), "[SYS/TEMP]"))
    ensures var r := ParseStatus(raw); !IsLost(r)
  {
    var line := TrimEol(raw);
    if StartsWith(line, "-ERR") {
      assert line[..4] == "-ERR";
      SysTempText(TrimStart(line[4..]));
    }
  }

  lemma SysTempText(text: string)
    ensures ParseRespCode(text).SysTemp? <==> StartsWith(text, "[SYS/TEMP]")
  {
    if StartsWith(text, "[SYS/TEMP]") {
      var inner, rest := text[1..], text[10..];
      assert text == "[SYS/TEMP]" + rest;
      assert inner == "SYS/TEMP" + [']'] + rest;
      assert ']' !in "SYS/TEMP";
      FindCharOf("SYS/TEMP", ']', rest);
      assert FindChar(inner, ']') == 8 < |inner|;
      assert inner[..8] == "SYS/TEMP";
      assert inner[0] == 'S' && inner[4] == 'T';
    }
    if ParseRespCode(text).SysTemp? { CodeIsSysTemp(text); }
  }

  lemma CodeIsSysTemp(text: string)
    requires ParseRespCode(text).SysTemp?
    ensures StartsWith(text, "[SYS/TEMP]")
  {
    var inner := text[1..];
    var end := FindChar(inner, ']');
    assert inner[..end] == "SYS/TEMP" && end == 8;
    assert text[0] == '[' && text[9] == ']';
    assert forall i :: 0 <= i < 8 ==> text[i + 1] == inner[..8][i] == "SYS/TEMP"[i];
    assert text[..10] == "[SYS/TEMP]";
  }

  lemma UncodedText(text: string)
    requires forall name :: KnownName(name) ==> !StartsWith(text, "[" + name + "]")
    ensures ParseRespCode(text) == ServerError(text)
  {
    if StartsWith(text, "[") {
      var inner := text[1..];
      var end := FindChar(inner, ']');
      if end < |inner| {
        var name := inner[..end];
        assert text == "[" + name + "]" + inner[end + 1..];
        assert StartsWith(text, "[" + name + "]");
        assert !KnownName(name);
      }
    }
  }

  /** The mark opens the line and is all of it or followed by white space. */
  predicate Opens(line: string, mark: string) {
    StartsWith(line, mark) && (|line| > |mark| ==> IsAsciiWs(line[|mark|]))
  }

  /** Anything else than the two marks is no status line. */
  lemma NoStatusLine(raw: string)
    ensures var line := TrimEol(raw);
            (ParseStatus(raw).Ok? <==> Opens(line, "+OK"))
            && (ParseStatus(raw) == Err(Parse) <==> !Opens(line, "+OK") && !Opens(line, "-ERR"))
  {
    var line := TrimEol(raw);
    assert Opens(line, "+OK") ==> line[0] == '+';
    assert Opens(line, "-ERR") ==> line[0] == '-';
  }

  // ---- listings ----

  function ScanLine(n: nat, size: nat): string { JoinWords([Dec(n), Dec(size)]) }

  function UidlLine(n: nat, uid: Word): string { JoinWords([Dec(n), uid]) }

  predicate InRange(e: ListEntry) { e.messageId <= U32_MAX && e.size <= U64_MAX }

  lemma TwoFields(a: Word, b: Word)
    ensures var line := JoinWords([a, b]);
            IsStatusText(line) && line != "" && SplitWs(line) == [a, b] && SplitWs(Trim(line)) == [a, b]
  {
    var ws: seq<Word> := [a, b];
    SplitJoin(ws);
    JoinWordsEnds(ws);
    assert JoinWords(ws) == a + " " + b by { assert ws[1..] == [b]; }
    forall i | 0 <= i < |a| + 1 + |b| ensures (a + " " + b)[i] != '\r' && (a + " " + b)[i] != '\n' {
      if i < |a| { assert (a + " " + b)[i] == a[i]; }
      else if i > |a| { assert (a + " " + b)[i] == b[i - |a| - 1]; }
    }
  }

  lemma ScanEntry(e: ListEntry)
    ensures var line := ScanLine(e.messageId, e.size);
            IsStatusText(line) && line != "" && ParseListEntry(line) == if InRange(e) then Ok(e) else Err(Parse)
  {
    DecIsWord(e.messageId);
    DecIsWord(e.size);
    TwoFields(Dec(e.messageId), Dec(e.size));
    ParseDec(e.messageId, U32_MAX);
    ParseDec(e.size, U64_MAX);
  }

  lemma UidlEntryOf(n: nat, uid: Word)
    ensures var line := UidlLine(n, uid);
            IsStatusText(line) && line != "" &&
            ParseUidlEntry(line) == if n <= U32_MAX then Ok(UidlEntry(n, uid)) else Err(Parse)
  {
    DecIsWord(n);
    TwoFields(Dec(n), uid);
    ParseDec(n, U32_MAX);
  }

  /** The STAT drop listing parses back unless a number does not fit its type. */
  lemma StatOf(count: nat, size: nat)
    ensures ParseStat(ScanLine(count, size)) ==
            if count <= U32_MAX && size <= U64_MAX then Ok(Stat(count, size)) else Err(Parse)
  {
    DecIsWord(count);
    DecIsWord(size);
    TwoFields(Dec(count), Dec(size));
    ParseDec(count, U32_MAX);
    ParseDec(size, U64_MAX);
  }

  /** STAT may be followed by more fields; the lines of a listing have exactly two. */
  lemma FieldCounts(ws: seq<Word>)
    ensures |ws| < 2 ==> ParseStat(JoinWords(ws)) == Err(Parse)
    ensures |ws| >= 2 ==> ParseStat(JoinWords(ws)) == ParseStat(JoinWords(ws[..2]))
    ensures |ws| != 2 ==> ParseListEntry(JoinWords(ws)) == Err(Parse) && ParseUidlEntry(JoinWords(ws)) == Err(Parse)
  {
    SplitJoin(ws);
    if |ws| >= 2 {
      SplitJoin(ws[..2]);
    } else {
      assert ws == [] ==> Trim(JoinWords(ws)) == "";
    }
  }

  function ScanLines(es: seq<ListEntry>): (ls: seq<string>)
    ensures |ls| == |es|
    ensures forall i :: 0 <= i < |ls| ==> ls[i] == ScanLine(es[i].messageId, es[i].size)
  {
    seq(|es|, i requires 0 <= i < |es| => ScanLine(es[i].messageId, es[i].size))
  }

  predicate HasUids(es: seq<UidlEntry>) { forall i :: 0 <= i < |es| ==> IsWord(es[i].uniqueId) }

  function UidlLines(es: seq<UidlEntry>): (ls: seq<string>)
    requires HasUids(es)
    ensures |ls| == |es|
    ensures forall i :: 0 <= i < |ls| ==> ls[i] == UidlLine(es[i].messageId, es[i].uniqueId)
  {
    seq(|es|, i requires 0 <= i < |es| => UidlLine(es[i].messageId, es[i].uniqueId))
  }

  /** If every line is printed from an entry and parses back exactly when the entry is
      in range, the whole listing parses back exactly when all entries are in range. */
  lemma {:induction false} ParseAllOf<T>(lines: seq<string>, parse: string -> Result<T>, es: seq<T>, ok: T -> bool)
    requires |lines| == |es|
    requires forall i :: 0 <= i < |es| ==>
      lines[i] != "" && parse(lines[i]) == if ok(es[i]) then Ok(es[i]) else Err(Parse)
    ensures ParseAll(lines, parse) == if forall i :: 0 <= i < |es| ==> ok(es[i]) then Ok(es) else Err(Parse)
  {
    if es != [] {
      ParseAllOf(lines[1..], parse, es[1..], ok);
      assert es == [es[0]] + es[1..];
      assert (forall i :: 0 <= i < |es| ==> ok(es[i])) <==>
             ok(es[0]) && (forall i :: 0 <= i < |es[1..]| ==> ok(es[1..][i]))
        by { assert forall i :: 1 <= i < |es| ==> es[i] == es[1..][i - 1]; }
    }
  }

  /** Blank lines in a listing do not matter. */
  lemma {:induction false} ParseAllSkips<T>(a: seq<string>, b: seq<string>, parse: string -> Result<T>)
    ensures ParseAll(a + [""] + b, parse) == ParseAll(a + b, parse)
  {
    if a == [] {
      assert ([""] + b)[1..] == b && a + [""] + b == [""] + b && a + b == b;
    } else {
      assert (a + [""] + b)[1..] == a[1..] + [""] + b && (a + b)[1..] == a[1..] + b;
      ParseAllSkips(a[1..], b, parse);
    }
  }

  /** The first line that cannot be read fails the whole listing. */
  lemma {:induction false} ParseAllFails<T>(lines: seq<string>, parse: string -> Result<T>, i: nat)
    requires i < |lines| && lines[i] != "" && parse(lines[i]).Err?
    requires forall j :: 0 <= j < i ==> lines[j] == "" || parse(lines[j]).Ok?
    ensures ParseAll(lines, parse) == Err(parse(lines[i]).error)
  {
    if i > 0 { ParseAllFails(lines[1..], parse, i - 1); }
  }

  lemma ListBody(es: seq<ListEntry>)
    ensures forall i :: 0 <= i < |es| ==> IsStatusText(ScanLines(es)[i])
    ensures ParseListMulti(Unlines(ScanLines(es))) ==
            if forall i :: 0 <= i < |es| ==> InRange(es[i]) then Ok(es) else Err(Parse)
  {
    forall i | 0 <= i < |es| ensures IsStatusText(ScanLines(es)[i]) { ScanEntry(es[i]); }
    LinesUnlines(ScanLines(es));
    forall i | 0 <= i < |es|
      ensures ScanLines(es)[i] != ""
      ensures ParseListEntry(ScanLines(es)[i]) == if InRange(es[i]) then Ok(es[i]) else Err(Parse)
    { ScanEntry(es[i]); }
    ParseAllOf(ScanLines(es), ParseListEntry, es, InRange);
  }

  predicate IdInRange(e: UidlEntry) { e.messageId <= U32_MAX }

  lemma UidlBody(es: seq<UidlEntry>)
    requires HasUids(es)
    ensures forall i :: 0 <= i < |es| ==> IsStatusText(UidlLines(es)[i])
    ensures ParseUidlMulti(Unlines(UidlLines(es))) ==
            if forall i :: 0 <= i < |es| ==> IdInRange(es[i]) then Ok(es) else Err(Parse)
  {
    forall i | 0 <= i < |es|
      ensures IsStatusText(UidlLines(es)[i]) && UidlLines(es)[i] != ""
      ensures ParseUidlEntry(UidlLines(es)[i]) == if IdInRange(es[i]) then Ok(es[i]) else Err(Parse)
    { UidlEntryOf(es[i].messageId, es[i].uniqueId); }
    LinesUnlines(UidlLines(es));
    ParseAllOf(UidlLines(es), ParseUidlEntry, es, IdInRange);
  }

  /** End to end: a LIST body printed, stuffed, sent, read and parsed is the same list in
      the same order if every number fits its type, and an error otherwise. */
  lemma ListingEndToEnd(es: seq<ListEntry>, tail: string)
    ensures var d := Decode(Encode(ScanLines(es)) + tail);
            d.Some? && d.value.1 == tail && ParseListMulti(d.value.0) ==
              if forall i :: 0 <= i < |es| ==> InRange(es[i]) then Ok(es) else Err(Parse)
  {
    ListBody(es);
    RoundTrip(ScanLines(es), tail);
  }

  lemma UidlEndToEnd(es: seq<UidlEntry>, tail: string)
    requires HasUids(es)
    ensures var d := Decode(Encode(UidlLines(es)) + tail);
            d.Some? && d.value.1 == tail && ParseUidlMulti(d.value.0) ==
              if forall i :: 0 <= i < |es| ==> IdInRange(es[i]) then Ok(es) else Err(Parse)
  {
    UidlBody(es);
    RoundTrip(UidlLines(es), tail);
  }

  // ---- capabilities ----

  datatype Announced = Cap(name: Word, args: seq<Word>)

  function CapaLine(c: Announced): string { JoinWords([c.name] + c.args) }

  function CapaLines(cs: seq<Announced>): (ls: seq<string>)
    ensures |ls| == |cs|
    ensures forall i :: 0 <= i < |ls| ==> ls[i] == CapaLine(cs[i])
  {
    seq(|cs|, i requires 0 <= i < |cs| => CapaLine(cs[i]))
  }

  lemma {:induction false} JoinClean(ws: seq<Word>)
    ensures Clean(JoinWords(ws))
  {
    if |ws| > 1 {
      JoinClean(ws[1..]);
      WordClean(ws[0]);
    } else if |ws| == 1 {
      WordClean(ws[0]);
    }
  }

  lemma WordClean(w: Word)
    ensures Clean(w)
  {}

  lemma {:induction false} CapaLinesParse(cs: seq<Announced>)
    ensures ParseCapaLines(CapaLines(cs)) == seq(|cs|, i requires 0 <= i < |cs| => Capability(cs[i].name, cs[i].args))
  {
    if cs != [] {
      var ws: seq<Word> := [cs[0].name] + cs[0].args;
      JoinWordsEnds(ws);
      SplitJoin(ws);
      assert ws[1..] == cs[0].args;
      CapaLinesParse(cs[1..]);
      assert CapaLines(cs)[1..] == CapaLines(cs[1..]);
    }
  }

  /** Blank lines between capabilities do not matter. */
  lemma {:induction false} CapaSkips(a: seq<string>, blank: string, b: seq<string>)
    requires Trim(blank) == ""
    ensures ParseCapaLines(a + [blank] + b) == ParseCapaLines(a + b)
  {
    if a == [] {
      assert ([blank] + b)[1..] == b && a + [blank] + b == [blank] + b && a + b == b;
    } else {
      assert (a + [blank] + b)[1..] == a[1..] + [blank] + b && (a + b)[1..] == a[1..] + b;
      CapaSkips(a[1..], blank, b);
    }
  }

  /** Capabilities survive the trip too, with their arguments. */
  lemma CapaBody(cs: seq<Announced>)
    ensures forall i :: 0 <= i < |cs| ==> Clean(CapaLines(cs)[i])
    ensures ParseCapa(Unlines(CapaLines(cs))) ==
            seq(|cs|, i requires 0 <= i < |cs| => Capability(cs[i].name, cs[i].args))
  {
    forall i | 0 <= i < |cs| ensures Clean(CapaLines(cs)[i]) { JoinClean([cs[i].name] + cs[i].args); }
    LinesUnlines(CapaLines(cs));
    CapaLinesParse(cs);
  }
}
