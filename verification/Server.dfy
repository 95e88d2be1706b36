/** A conforming POP3 server: one session over a snapshot of a mailbox. Its freedom (the
    text of each reply, and whether it refuses a command it could have obeyed) is a
    script that the session consumes, one mood per command. */
module Server {
  import opened Basics
  import opened Strings
  import opened Wire
  import opened Response

  datatype Command =
    | User(name: string) | Pass(word: string) | Apop(arg: string) | Stls | Capa | Quit
    | Stat | List | ListOne(n: nat) | Uidl | UidlOne(n: nat) | Retr(n: nat) | Dele(n: nat)
    | Rset | Noop | Top(n: nat, k: nat) | Unknown

  datatype Msg = Msg(uid: Word, size: nat, lines: seq<Line>)

  datatype Mood = Comply(text: StatusText) | Refuse(why: Refusal)

  datatype Reply = Plus(text: StatusText) | Data(text: StatusText, lines: seq<Line>) | Minus(why: Refusal)

  datatype Session = Session(
    box: seq<Msg>,
    marked: set<nat>,
    user: bool,
    authed: bool,
    ended: bool,
    caps: seq<Announced>,
    script: seq<Mood>)

  // ---- the commands on the wire ----

  function Verb(verb: string, arg: string): string { verb + " " + arg }

  /** The line the client sends for a command, without its CRLF. */
  function CommandLine(c: Command): string {
    match c
    case User(name) => Verb("USER", name)
    case Pass(word) => Verb("PASS", word)
    case Apop(arg) => Verb("APOP", arg)
    case Stls => "STLS"
    case Capa => "CAPA"
    case Quit => "QUIT"
    case Stat => "STAT"
    case List => "LIST"
    case ListOne(n) => Verb("LIST", Dec(n))
    case Uidl => "UIDL"
    case UidlOne(n) => Verb("UIDL", Dec(n))
    case Retr(n) => Verb("RETR", Dec(n))
    case Dele(n) => Verb("DELE", Dec(n))
    case Rset => "RSET"
    case Noop => "NOOP"
    case Top(n, k) => Verb("TOP", Verb(Dec(n), Dec(k)))
    case Unknown => "?"
  }

  function Number(s: string): Option<nat> {
    if s != "" && forall i :: 0 <= i < |s| ==> IsDigit(s[i]) then Some(Value(s)) else None
  }

  function ParseTop(arg: string): Command {
    var b := FindChar(arg, ' ');
    if b == |arg| then Unknown
    else
      match (Number(arg[..b]), Number(arg[b + 1..]))
      case (Some(n), Some(k)) => Top(n, k)
      case _ => Unknown
  }

  function ParseVerb(verb: string, arg: string): Command {
    match verb
    case "USER" => User(arg)
    case "PASS" => Pass(arg)
    case "APOP" => Apop(arg)
    case "TOP" => ParseTop(arg)
    case _ =>
      match Number(arg)
      case None => Unknown
      case Some(n) =>
        match verb
        case "LIST" => ListOne(n)
        case "UIDL" => UidlOne(n)
        case "RETR" => Retr(n)
        case "DELE" => Dele(n)
        case _ => Unknown
  }

  function ParseBare(verb: string): Command {
    if verb == "STLS" then Stls
    else if verb == "CAPA" then Capa
    else if verb == "QUIT" then Quit
    else if verb == "STAT" then Command.Stat
    else if verb == "LIST" then List
    else if verb == "UIDL" then Uidl
    else if verb == "RSET" then Rset
    else if verb == "NOOP" then Noop
    else Unknown
  }

  function ParseCommand(line: string): Command {
    var b := FindChar(line, ' ');
    if b == |line| then ParseBare(line) else ParseVerb(line[..b], line[b + 1..])
  }

  predicate Sendable(c: Command) {
    match c
    case User(name) => Clean(name)
    case Pass(word) => Clean(word)
    case Apop(arg) => Clean(arg)
    case _ => true
  }

  lemma SplitVerb(verb: string, arg: string)
    requires ' ' !in verb
    ensures var l := Verb(verb, arg);
            FindChar(l, ' ') == |verb| < |l| && l[..|verb|] == verb && l[|verb| + 1..] == arg
  {
    FindCharOf(verb, ' ', arg);
    assert Verb(verb, arg) == verb + [' '] + arg;
  }

  lemma ParseCommandVerb(verb: string, arg: string)
    requires ' ' !in verb
    ensures ParseCommand(Verb(verb, arg)) == ParseVerb(verb, arg)
    ensures Clean(verb) && Clean(arg) ==> Clean(Verb(verb, arg))
  {
    SplitVerb(verb, arg);
  }

  lemma NumberOfDec(n: nat)
    ensures Number(Dec(n)) == Some(n) && ' ' !in Dec(n) && Clean(Dec(n))
  {
    ValueOfDec(n);
  }

  /** The server understands every command the client can send as what the client meant,
      and a command line is always a single line. */
  lemma CommandRoundTrip(c: Command)
    requires Sendable(c)
    ensures Clean(CommandLine(c))
    ensures ParseCommand(CommandLine(c)) == c
  {
    if c.User? || c.Pass? || c.Apop? { WordyRoundTrip(c); }
    else if c.ListOne? || c.UidlOne? || c.Retr? || c.Dele? { NumberedRoundTrip(c); }
    else if c.Top? { TopRoundTrip(c.n, c.k); }
    else { BareRoundTrip(c); }
  }

  lemma WordyRoundTrip(c: Command)
    requires (c.User? || c.Pass? || c.Apop?) && Sendable(c)
    ensures Clean(CommandLine(c))
    ensures ParseCommand(CommandLine(c)) == c
  {
    if c.User? { ParseCommandVerb("USER", c.name); }
    else if c.Pass? { ParseCommandVerb("PASS", c.word); }
    else { ParseCommandVerb("APOP", c.arg); }
  }

  lemma NumberedRoundTrip(c: Command)
    requires c.ListOne? || c.UidlOne? || c.Retr? || c.Dele?
    ensures Clean(CommandLine(c))
    ensures ParseCommand(CommandLine(c)) == c
  {
    NumberOfDec(c.n);
    if c.ListOne? { NumberedVerb("LIST", c.n); }
    else if c.UidlOne? { NumberedVerb("UIDL", c.n); }
    else if c.Retr? { NumberedVerb("RETR", c.n); }
    else { NumberedVerb("DELE", c.n); }
  }

  lemma NumberedVerb(verb: string, n: nat)
    requires verb in ["LIST", "UIDL", "RETR", "DELE"]
    ensures Clean(Verb(verb, Dec(n)))
    ensures ParseCommand(Verb(verb, Dec(n))) ==
            (if verb == "LIST" then ListOne(n) else if verb == "UIDL" then UidlOne(n)
             else if verb == "RETR" then Retr(n) else Dele(n))
  {
    NumberOfDec(n);
    assert ' ' !in verb && Clean(verb) && |verb| == 4 && (verb[1] == 'I' || verb[1] == 'E');
    ParseCommandVerb(verb, Dec(n));
  }

  lemma BareRoundTrip(c: Command)
    requires c in {Stls, Capa, Quit, Command.Stat, List, Uidl, Rset, Noop, Unknown}
    ensures Clean(CommandLine(c))
    ensures ParseCommand(CommandLine(c)) == c
  {
    var line := CommandLine(c);
    assert |line| <= 4 && ' ' !in line;
    BareVerb(line);
  }

  lemma BareVerb(line: string)
    requires ' ' !in line
    ensures ParseCommand(line) == ParseBare(line)
  {
    assert FindChar(line, ' ') == |line|;
  }

  lemma TopRoundTrip(n: nat, k: nat)
    ensures Clean(CommandLine(Top(n, k)))
    ensures ParseCommand(CommandLine(Top(n, k))) == Top(n, k)
  {
    NumberOfDec(n);
    NumberOfDec(k);
    SplitVerb(Dec(n), Dec(k));
    ParseCommandVerb("TOP", Verb(Dec(n), Dec(k)));
  }

  // ---- the session ----

  predicate Live(s: Session, n: nat) { 1 <= n <= |s.box| && n !in s.marked }

  /** Which commands the session may obey at all. */
  predicate Allowed(s: Session, c: Command) {
    !s.ended &&
    match c
    case User(_) | Apop(_) | Stls => !s.authed
    case Pass(_) => !s.authed && s.user
    case Capa | Quit => true
    case Stat | List | Uidl | Rset | Noop => s.authed
    case ListOne(n) => s.authed && Live(s, n)
    case UidlOne(n) => s.authed && Live(s, n)
    case Retr(n) => s.authed && Live(s, n)
    case Dele(n) => s.authed && Live(s, n)
    case Top(n, k) => s.authed && Live(s, n)
    case Unknown => false
  }

  /** The numbers from i on that are not marked deleted, in order. */
  function LiveFrom(s: Session, i: nat): (ns: seq<nat>)
    requires i >= 1
    ensures forall j :: 0 <= j < |ns| ==> Live(s, ns[j]) && i <= ns[j]
    decreases |s.box| + 1 - i
  {
    if i > |s.box| then []
    else if i !in s.marked then [i] + LiveFrom(s, i + 1)
    else LiveFrom(s, i + 1)
  }

  lemma {:induction false} LiveFromAll(s: Session, i: nat, n: nat)
    requires 1 <= i <= n && Live(s, n)
    ensures n in LiveFrom(s, i)
    decreases |s.box| + 1 - i
  {
    if i < n { LiveFromAll(s, i + 1, n); }
  }

  predicate Ascends(ns: seq<nat>) { forall i, j :: 0 <= i < j < |ns| ==> ns[i] < ns[j] }

  lemma {:induction false} LiveFromAscends(s: Session, i: nat)
    requires i >= 1
    ensures Ascends(LiveFrom(s, i))
    decreases |s.box| + 1 - i
  {
    if i <= |s.box| { LiveFromAscends(s, i + 1); }
  }

  /** Listings go by rising numbers, so that no message is listed twice. */
  predicate InOrder(es: seq<UidlEntry>) {
    forall i, j :: 0 <= i < j < |es| ==> es[i].messageId < es[j].messageId
  }

  /** UIDL lists every message that is not marked, once, by rising numbers. */
  lemma EntriesExactly(s: Session)
    ensures InOrder(Entries(s))
    ensures forall e :: e in Entries(s) <==> Live(s, e.messageId) && e == EntryOf(s, e.messageId)
  {
    LiveFromAscends(s, 1);
    forall e: UidlEntry | Live(s, e.messageId) && e == EntryOf(s, e.messageId) ensures e in Entries(s) {
      LiveFromAll(s, 1, e.messageId);
      var j :| 0 <= j < |LiveFrom(s, 1)| && LiveFrom(s, 1)[j] == e.messageId;
      assert Entries(s)[j] == e;
    }
  }

  function Entries(s: Session): (es: seq<UidlEntry>)
    ensures HasUids(es) && |es| == |LiveFrom(s, 1)|
    ensures forall j :: 0 <= j < |es| ==> es[j] == EntryOf(s, LiveFrom(s, 1)[j])
  {
    var ns := LiveFrom(s, 1);
    seq(|ns|, j requires 0 <= j < |ns| => EntryOf(s, ns[j]))
  }

  function EntryOf(s: Session, n: nat): UidlEntry
    requires Live(s, n)
  {
    UidlEntry(n, s.box[n - 1].uid)
  }

  function Scans(s: Session): (es: seq<ListEntry>)
    ensures |es| == |LiveFrom(s, 1)|
    ensures forall j :: 0 <= j < |es| ==> es[j] == ScanOf(s, LiveFrom(s, 1)[j])
  {
    var ns := LiveFrom(s, 1);
    seq(|ns|, j requires 0 <= j < |ns| => ScanOf(s, ns[j]))
  }

  function ScanOf(s: Session, n: nat): ListEntry
    requires Live(s, n)
  {
    ListEntry(n, s.box[n - 1].size)
  }

  function Total(es: seq<ListEntry>): nat {
    if es == [] then 0 else es[0].size + Total(es[1..])
  }

  /** Headers, the blank line, and the first k lines of what follows. */
  function TopLines(lines: seq<Line>, k: nat): seq<Line> {
    if lines == [] then []
    else if lines[0] == "" then [lines[0]] + lines[1..][..if k < |lines| - 1 then k else |lines| - 1]
    else [lines[0]] + TopLines(lines[1..], k)
  }

  function Effect(s: Session, c: Command): Session {
    match c
    case User(_) => s.(user := true)
    case Pass(_) | Apop(_) => s.(authed := true)
    case Dele(n) => s.(marked := s.marked + {n})
    case Rset => s.(marked := {})
    case Quit => s.(ended := true)
    case _ => s
  }

  function Answer(s: Session, c: Command, text: StatusText): Reply
    requires Allowed(s, c)
  {
    match c
    case Capa => CapaBody(s.caps); Data(text, CapaLines(s.caps))
    case Stat => DecIsWord(|Scans(s)|); DecIsWord(Total(Scans(s)));
      TwoFields(Dec(|Scans(s)|), Dec(Total(Scans(s))));
      Plus(ScanLine(|Scans(s)|, Total(Scans(s))))
    case List => ListBody(Scans(s)); Data(text, ScanLines(Scans(s)))
    case Uidl => UidlBody(Entries(s)); Data(text, UidlLines(Entries(s)))
    case ListOne(n) => ScanEntry(ListEntry(n, s.box[n - 1].size)); Plus(ScanLine(n, s.box[n - 1].size))
    case UidlOne(n) => UidlEntryOf(n, s.box[n - 1].uid); Plus(UidlLine(n, s.box[n - 1].uid))
    case Retr(n) => Data(text, s.box[n - 1].lines)
    case Top(n, k) => Data(text, TopLines(s.box[n - 1].lines, k))
    case _ => Plus(text)
  }

  function NextMood(s: Session): Mood { if s.script == [] then Comply("") else s.script[0] }

  function Spend(s: Session): Session { s.(script := if s.script == [] then [] else s.script[1..]) }

  /** The refusal of a command that the session cannot obey in its state. */
  function Cannot(m: Mood): Refusal { if m.Refuse? then m.why else Refusal(NoCode, "") }

  predicate Obeyed(s: Session, c: Command) { Allowed(s, c) && NextMood(s).Comply? }

  function Next(s: Session, c: Command): Session {
    if Obeyed(s, c) then Effect(Spend(s), c) else Spend(s)
  }

  function ReplyTo(s: Session, c: Command): Reply {
    if Obeyed(s, c) then Answer(s, c, NextMood(s).text) else Minus(Cannot(NextMood(s)))
  }

  predicate MultiLine(c: Command) { c.Capa? || c.List? || c.Uidl? || c.Retr? || c.Top? }

  /** Shape of the reply: negative exactly when not obeyed, and with a body exactly for
      the multi-line commands. */
  lemma ReplyShape(s: Session, c: Command)
    ensures ReplyTo(s, c).Minus? <==> !Obeyed(s, c)
    ensures ReplyTo(s, c).Data? <==> Obeyed(s, c) && MultiLine(c)
  {}

  function Render(r: Reply): string {
    match r
    case Plus(text) => OkLine(text)
    case Data(text, lines) => OkLine(text) + Encode(lines)
    case Minus(why) => ErrLine(why)
  }

  /** The server as the wire sees it: a line in, a line or a body out. */
  function Handle(s: Session, line: string): (Session, string) {
    var c := ParseCommand(line);
    (Next(s, c), Render(ReplyTo(s, c)))
  }

  // ---- runs of commands, one after the other ----

  function After(s: Session, cs: seq<Command>): Session
    decreases |cs|
  {
    if cs == [] then s else After(Next(s, cs[0]), cs[1..])
  }

  /** All answers to a run of commands, as bytes. */
  function Answers(s: Session, cs: seq<Command>): string
    decreases |cs|
  {
    if cs == [] then "" else Render(ReplyTo(s, cs[0])) + Answers(Next(s, cs[0]), cs[1..])
  }

  function Replies(s: Session, cs: seq<Command>): (rs: seq<Reply>)
    ensures |rs| == |cs|
    decreases |cs|
  {
    if cs == [] then [] else [ReplyTo(s, cs[0])] + Replies(Next(s, cs[0]), cs[1..])
  }

  /** The server's answer to the i-th of a run of commands. */
  function ReplyAt(s: Session, cs: seq<Command>, i: nat): Reply
    requires i < |cs|
  {
    Replies(s, cs)[i]
  }

  /** The i-th answer is given in the state that the commands before it have led to. */
  lemma {:induction false} ReplyAtState(s: Session, cs: seq<Command>, i: nat)
    requires i < |cs|
    ensures ReplyAt(s, cs, i) == ReplyTo(After(s, cs[..i]), cs[i])
    decreases |cs|
  {
    if i == 0 {
      assert cs[..0] == [];
    } else {
      ReplyAtState(Next(s, cs[0]), cs[1..], i - 1);
      assert cs[..i][0] == cs[0] && cs[..i][1..] == cs[1..][..i - 1];
    }
  }

  lemma {:induction false} AfterAppend(s: Session, a: seq<Command>, b: seq<Command>)
    ensures After(s, a + b) == After(After(s, a), b)
    ensures Answers(s, a + b) == Answers(s, a) + Answers(After(s, a), b)
    decreases |a|
  {
    if a == [] {
      assert a + b == b;
    } else {
      assert (a + b)[1..] == a[1..] + b;
      AfterAppend(Next(s, a[0]), a[1..], b);
    }
  }

  lemma AfterSnoc(s: Session, cs: seq<Command>, i: nat)
    requires i < |cs|
    ensures After(s, cs[..i + 1]) == Next(After(s, cs[..i]), cs[i])
  {
    assert cs[..i + 1] == cs[..i] + [cs[i]];
    AfterAppend(s, cs[..i], [cs[i]]);
    assert [cs[i]][1..] == [];
  }

  /** What is left in the mailbox when the session is over: the marks count only if QUIT
      was obeyed. */
  function Remaining(s: Session): seq<Msg> {
    if s.ended then Unmarked(s.box, s.marked, 1) else s.box
  }

  function Unmarked(box: seq<Msg>, marked: set<nat>, i: nat): seq<Msg> {
    if box == [] then []
    else (if i in marked then [] else [box[0]]) + Unmarked(box[1..], marked, i + 1)
  }

  /** `rest` is the mailbox without the messages that have a marked number, in the old order. */
  ghost predicate Expunged(box: seq<Msg>, marked: set<nat>, rest: seq<Msg>) {
    exists ns: seq<nat> :: Ascends(ns) && IsLeft(box, marked, ns) && Picks(box, ns, rest)
  }

  ghost predicate IsLeft(box: seq<Msg>, marked: set<nat>, ns: seq<nat>) {
    forall n: nat :: n in ns <==> 1 <= n <= |box| && n !in marked
  }

  predicate Picks(box: seq<Msg>, ns: seq<nat>, rest: seq<Msg>) {
    |rest| == |ns| && forall j :: 0 <= j < |ns| ==> 1 <= ns[j] <= |box| && rest[j] == box[ns[j] - 1]
  }

  lemma {:induction false} UnmarkedPicks(s: Session, i: nat)
    requires 1 <= i <= |s.box| + 1
    ensures Picks(s.box, LiveFrom(s, i), Unmarked(s.box[i - 1..], s.marked, i))
    decreases |s.box| + 1 - i
  {
    if i <= |s.box| {
      var tail := s.box[i - 1..];
      assert tail[1..] == s.box[i..] && tail[0] == s.box[i - 1];
      UnmarkedPicks(s, i + 1);
      PicksCons(s.box, i, LiveFrom(s, i + 1), Unmarked(tail[1..], s.marked, i + 1));
      assert [] + Unmarked(tail[1..], s.marked, i + 1) == Unmarked(tail[1..], s.marked, i + 1);
    }
  }

  lemma PicksCons(box: seq<Msg>, n: nat, ns: seq<nat>, rest: seq<Msg>)
    requires Picks(box, ns, rest) && 1 <= n <= |box|
    ensures Picks(box, [n] + ns, [box[n - 1]] + rest)
  {}

  lemma UnmarkedExpunges(s: Session)
    ensures Expunged(s.box, s.marked, Unmarked(s.box, s.marked, 1))
  {
    var ns := LiveFrom(s, 1);
    LiveFromAscends(s, 1);
    UnmarkedPicks(s, 1);
    assert s.box[0..] == s.box;
    forall n: nat ensures n in ns <==> 1 <= n <= |s.box| && n !in s.marked {
      if Live(s, n) { LiveFromAll(s, 1, n); }
    }
    assert IsLeft(s.box, s.marked, ns);
  }

  // ---- what one deletion takes off the totals ----

  function ScansFrom(s: Session, i: nat): (es: seq<ListEntry>)
    requires i >= 1
    ensures |es| == |LiveFrom(s, i)|
    ensures forall j :: 0 <= j < |es| ==> es[j] == ScanOf(s, LiveFrom(s, i)[j])
  {
    var ns := LiveFrom(s, i);
    seq(|ns|, j requires 0 <= j < |ns| => ScanOf(s, ns[j]))
  }

  lemma ScansStep(s: Session, i: nat)
    requires 1 <= i <= |s.box|
    ensures ScansFrom(s, i) == (if i in s.marked then [] else [ScanOf(s, i)]) + ScansFrom(s, i + 1)
  {}

  lemma {:induction false} DeletionTakes(s: Session, n: nat, i: nat)
    requires Live(s, n) && i >= 1
    ensures var s1, gone := s.(marked := s.marked + {n}), i <= n;
            |ScansFrom(s, i)| == |ScansFrom(s1, i)| + (if gone then 1 else 0)
            && Total(ScansFrom(s, i)) == Total(ScansFrom(s1, i)) + (if gone then s.box[n - 1].size else 0)
    decreases |s.box| + 1 - i
  {
    var s1 := s.(marked := s.marked + {n});
    if i <= |s.box| {
      ScansStep(s, i);
      ScansStep(s1, i);
      DeletionTakes(s, n, i + 1);
    }
  }

  /** An obeyed DELE takes one message and its size off what STAT counts. */
  lemma DeleCounts(s: Session, n: nat)
    requires Obeyed(s, Dele(n))
    ensures var s1 := Next(s, Dele(n));
            |Scans(s)| == |Scans(s1)| + 1 && Total(Scans(s)) == Total(Scans(s1)) + s.box[n - 1].size
  {
    var s1 := Next(s, Dele(n));
    var s0 := s.(marked := s.marked + {n});
    DeletionTakes(s, n, 1);
    SameLive(s0, s1, 1);
    assert Scans(s) == ScansFrom(s, 1) && Scans(s1) == ScansFrom(s0, 1);
  }

  /** The listings depend on the mailbox and the marks only. */
  lemma {:induction false} SameLive(s0: Session, s1: Session, i: nat)
    requires s1.box == s0.box && s1.marked == s0.marked && i >= 1
    ensures LiveFrom(s0, i) == LiveFrom(s1, i)
    decreases |s0.box| + 1 - i
  {
    if i <= |s0.box| { SameLive(s0, s1, i + 1); }
  }

  // ---- TOP ----

  /** Of a message TOP shows the header, the blank line and the first k lines of the body. */
  lemma {:induction false} TopLinesOf(header: seq<Line>, body: seq<Line>, k: nat)
    requires "" !in header
    ensures TopLines(header + [""] + body, k) == header + [""] + body[..if k < |body| then k else |body|]
    ensures TopLines(header, k) == header
  {
    var all := header + [""] + body;
    if header == [] {
      assert all[1..] == body;
    } else {
      assert all[0] == header[0] && all[1..] == header[1..] + [""] + body;
      TopLinesOf(header[1..], body, k);
    }
  }
}
