/** What the server's answers mean to the caller of a command, and what a session shows. */
module Meaning {
  import opened Basics
  import opened Strings
  import opened Wire
  import opened Response
  import opened Server

  // ---- types ----

  datatype SessionState = Connected | Authenticated | Disconnected

  datatype Message = Message(data: string)

  type U32 = n: nat | n <= U32_MAX

  // ---- answers and their status lines ----

  function StatusOf(r: Reply): Result<string> {
    match r
    case Minus(why) => Err(ErrorOf(why))
    case Plus(text) => Ok(text)
    case Data(text, _) => Ok(text)
  }

  function AckOf(r: Reply): Result<()> {
    if r.Minus? then Err(ErrorOf(r.why)) else Ok(())
  }

  /** The text of a multi-line answer. */
  function TextOf(r: Reply): Result<string> {
    match r
    case Minus(why) => Err(ErrorOf(why))
    case Data(_, lines) => Ok(Unlines(lines))
    case Plus(_) => Err(Parse)
  }

  function MessageOf(r: Reply): Result<Message> {
    match r
    case Minus(why) => Err(ErrorOf(why))
    case Data(_, lines) => Ok(Message(Unlines(lines)))
    case Plus(_) => Err(Parse)
  }

  /** The bytes behind the status line. */
  function BodyOf(r: Reply): string { if r.Data? then Encode(r.lines) else "" }

  lemma RenderSplits(r: Reply, rest: string)
    ensures var t := TakeLine(Render(r) + rest);
            t.Some? && t.value.1 == BodyOf(r) + rest && ParseStatus(t.value.0) == StatusOf(r)
    ensures !IsLost(StatusOf(r)) && !IsLost(AckOf(r)) && !IsLost(MessageOf(r))
  {
    NeverLost(r);
    match r
    case Plus(text) => OkSplits(text, rest); assert "" + rest == rest;
    case Minus(why) => ErrSplits(why, rest); assert "" + rest == rest;
    case Data(text, lines) => DataSplits(text, lines, rest);
  }

  lemma NeverLost(r: Reply)
    ensures !IsLost(StatusOf(r)) && !IsLost(AckOf(r)) && !IsLost(MessageOf(r))
  {}

  lemma DataSplits(text: StatusText, lines: seq<Line>, rest: string)
    ensures TakeLine(Render(Data(text, lines)) + rest) == Some((OkLine(text), Encode(lines) + rest))
    ensures ParseStatus(OkLine(text)) == Ok(text)
  {
    OkSplits(text, Encode(lines) + rest);
    Associative(OkLine(text), Encode(lines), rest);
  }

  lemma OkSplits(text: StatusText, rest: string)
    ensures TakeLine(OkLine(text) + rest) == Some((OkLine(text), rest)) && ParseStatus(OkLine(text)) == Ok(text)
  {
    StatusOk(text);
    TakeLineOf("+OK" + Sp(text), rest);
  }

  lemma ErrSplits(why: Refusal, rest: string)
    ensures TakeLine(ErrLine(why) + rest) == Some((ErrLine(why), rest))
    ensures ParseStatus(ErrLine(why)) == Err(ErrorOf(why))
  {
    StatusErr(why);
    TakeLineOf("-ERR" + Sp(RefusalText(why)), rest);
  }

  function StatOfReply(s: Session, r: Reply): Result<Response.Stat> {
    var count, total := |Scans(s)|, Total(Scans(s));
    if r.Minus? then Err(ErrorOf(r.why))
    else if count <= U32_MAX && total <= U64_MAX then Ok(Response.Stat(count, total))
    else Err(Parse)
  }

  /** A scan listing is good if all its numbers fit their types. */
  function ScansOf(r: Reply, es: seq<ListEntry>): Result<seq<ListEntry>> {
    if r.Minus? then Err(ErrorOf(r.why))
    else if forall i :: 0 <= i < |es| ==> InRange(es[i]) then Ok(es)
    else Err(Parse)
  }

  function ListOneOf(s: Session, id: nat): Result<seq<ListEntry>> {
    var r := ReplyTo(s, ListOne(id));
    if r.Minus? then Err(ErrorOf(r.why)) else if InRange(ScanOf(s, id)) then Ok([ScanOf(s, id)]) else Err(Parse)
  }

  function UidlOneOf(s: Session, id: nat): Result<seq<UidlEntry>> {
    var r := ReplyTo(s, UidlOne(id));
    if r.Minus? then Err(ErrorOf(r.why)) else if IdInRange(EntryOf(s, id)) then Ok([EntryOf(s, id)]) else Err(Parse)
  }

  function UidsOf(r: Reply, es: seq<UidlEntry>): Result<seq<UidlEntry>> {
    if r.Minus? then Err(ErrorOf(r.why))
    else if forall i :: 0 <= i < |es| ==> IdInRange(es[i]) then Ok(es)
    else Err(Parse)
  }

  function Announce(cs: seq<Announced>): seq<Capability> {
    seq(|cs|, i requires 0 <= i < |cs| => Capability(cs[i].name, cs[i].args))
  }

  function CapsOf(s: Session, r: Reply): Result<seq<Capability>> {
    if r.Minus? then Err(ErrorOf(r.why)) else Ok(Announce(s.caps))
  }

  predicate Pipelines(cs: seq<Capability>) { exists i :: 0 <= i < |cs| && cs[i].name == "PIPELINING" }

  /** The line says the word first. */
  predicate Says(line: string, word: string) {
    var ws := SplitWs(Trim(line));
    ws != [] && ws[0] == word
  }

  /** Of any CAPA body whatever, pipelining is taken from a line that opens with its name. */
  lemma {:induction false} PipeliningLine(lines: seq<string>)
    ensures Pipelines(ParseCapaLines(lines)) <==> exists i :: 0 <= i < |lines| && Says(lines[i], "PIPELINING")
  {
    if lines != [] {
      var rest, all := ParseCapaLines(lines[1..]), ParseCapaLines(lines);
      PipeliningLine(lines[1..]);
      assert Pipelines(all) <==> Says(lines[0], "PIPELINING") || Pipelines(rest) by {
        if all != rest { assert all[1..] == rest; PipelinesCons(all[0], rest); }
      }
      assert (exists i :: 0 <= i < |lines| && Says(lines[i], "PIPELINING")) <==>
        Says(lines[0], "PIPELINING") || exists i :: 0 <= i < |lines[1..]| && Says(lines[1..][i], "PIPELINING")
        by { assert forall i :: 1 <= i < |lines| ==> lines[i] == lines[1..][i - 1]; }
    }
  }

  lemma PipelinesCons(c: Capability, rest: seq<Capability>)
    ensures Pipelines([c] + rest) <==> c.name == "PIPELINING" || Pipelines(rest)
  {
    var all := [c] + rest;
    if Pipelines(rest) {
      var i :| 0 <= i < |rest| && rest[i].name == "PIPELINING";
      assert all[i + 1].name == "PIPELINING";
    }
    assert all[0] == c && forall i :: 1 <= i < |all| ==> all[i] == rest[i - 1];
  }

  /** A server error during authentication counts as a rejection of the credentials. */
  function Promote(e: Error): Error { if e.ServerError? then AuthFailed(e.text) else e }

  /** What a refused login comes to: the response code decides, and a refusal without one, or
      with one that is not known, is a rejection of the credentials. */
  function Denial(why: Refusal): Error {
    match why.code
    case NoCode => AuthFailed(why.text)
    case AuthCode => AuthFailed(why.text)
    case Other(_) => AuthFailed(RefusalText(why))
    case InUse => MailboxInUse(why.text)
    case LoginDelayCode => LoginDelay(why.text)
    case SysTempCode => SysTemp(why.text)
    case SysPermCode => SysPerm(why.text)
  }

  /** No refusal of a login is ever reported as a server error. */
  lemma DenialOf(why: Refusal)
    ensures Promote(ErrorOf(why)) == Denial(why)
    ensures !Denial(why).ServerError? && !Denial(why).NotAuthenticated? && !IsIo(Denial(why))
    ensures IsRetryable(Denial(why)) <==> why.code.SysTempCode?
  {}

  /** A refusal of the server never looks like one of the client's own errors. */
  lemma NeverNotAuthenticated(why: Refusal)
    ensures !ErrorOf(why).NotAuthenticated? && !ErrorOf(why).InvalidInput? && !IsIo(ErrorOf(why))
  {}

  // ---- the parsers recover what the session printed ----

  function Then<T, U>(r: Result<T>, f: T -> Result<U>): Result<U> {
    match r case Err(e) => Err(e) case Ok(v) => f(v)
  }

  function Just<T>(r: Result<T>): Result<seq<T>> {
    match r case Err(e) => Err(e) case Ok(v) => Ok([v])
  }

  lemma StatAnswer(s: Session)
    ensures Then(StatusOf(ReplyTo(s, Command.Stat)), ParseStat) == StatOfReply(s, ReplyTo(s, Command.Stat))
  {
    StatOf(|Scans(s)|, Total(Scans(s)));
  }

  lemma ListAnswer(s: Session)
    ensures Then(TextOf(ReplyTo(s, List)), ParseListMulti) == ScansOf(ReplyTo(s, List), Scans(s))
  {
    ListBody(Scans(s));
  }

  lemma ListOneAnswer(s: Session, id: nat)
    ensures Just(Then(StatusOf(ReplyTo(s, ListOne(id))), ParseListEntry)) == ListOneOf(s, id)
  {
    if Obeyed(s, ListOne(id)) {
      var e := ScanOf(s, id);
      assert StatusOf(ReplyTo(s, ListOne(id))) == Ok(ScanLine(e.messageId, e.size));
      assert ParseListEntry(ScanLine(e.messageId, e.size)) == if InRange(e) then Ok(e) else Err(Parse) by {
        ScanEntry(e);
      }
    }
  }

  lemma UidlAnswer(s: Session)
    ensures Then(TextOf(ReplyTo(s, Uidl)), ParseUidlMulti) == UidsOf(ReplyTo(s, Uidl), Entries(s))
  {
    UidlBody(Entries(s));
  }

  lemma UidlOneAnswer(s: Session, id: nat)
    ensures Just(Then(StatusOf(ReplyTo(s, UidlOne(id))), ParseUidlEntry)) == UidlOneOf(s, id)
  {
    if Obeyed(s, UidlOne(id)) {
      var e := EntryOf(s, id);
      assert StatusOf(ReplyTo(s, UidlOne(id))) == Ok(UidlLine(id, e.uniqueId));
      assert ParseUidlEntry(UidlLine(id, e.uniqueId)) == if IdInRange(e) then Ok(e) else Err(Parse) by {
        UidlEntryOf(id, s.box[id - 1].uid);
      }
    }
  }

  lemma CapaAnswer(s: Session)
    ensures Then(TextOf(ReplyTo(s, Command.Capa)), body => Ok(ParseCapa(body))) == CapsOf(s, ReplyTo(s, Command.Capa))
  {
    CapaBody(s.caps);
  }

  // ---- the mailbox as a session shows it ----

  /** The two sessions differ in nothing that matters to the mailbox. */
  predicate SameMail(s0: Session, s1: Session) {
    s1.box == s0.box && s1.marked == s0.marked && s1.ended == s0.ended
  }

  /** The message with number n as the caller is to get it. */
  function Content(s: Session, n: nat): Message {
    if 1 <= n <= |s.box| then Message(Unlines(s.box[n - 1].lines)) else Message("")
  }

  lemma EntryIsLive(s: Session, e: UidlEntry)
    requires e in Entries(s)
    ensures Live(s, e.messageId) && e == EntryOf(s, e.messageId)
  {}

  lemma RetrContent(s: Session, n: nat)
    ensures MessageOf(ReplyTo(s, Command.Retr(n))).Ok? ==> MessageOf(ReplyTo(s, Command.Retr(n))).value == Content(s, n)
  {}

  function ListedUids(s: Session): set<string> { set e | e in Entries(s) :: e.uniqueId }

  function Unseen(es: seq<UidlEntry>, seen: set<string>): seq<UidlEntry> {
    if es == [] then []
    else (if es[0].uniqueId in seen then [] else [es[0]]) + Unseen(es[1..], seen)
  }

  function UnseenOf(s: Session, seen: set<string>): Result<seq<UidlEntry>> {
    match UidsOf(ReplyTo(s, Uidl), Entries(s))
    case Err(e) => Err(e)
    case Ok(es) => Ok(Unseen(es, seen))
  }

  lemma {:induction false} UnseenEntries(es: seq<UidlEntry>, seen: set<string>)
    ensures forall e :: e in Unseen(es, seen) <==> e in es && e.uniqueId !in seen
  {
    if es != [] { UnseenEntries(es[1..], seen); }
  }

  lemma {:induction false} UnseenInOrder(es: seq<UidlEntry>, seen: set<string>)
    requires InOrder(es)
    ensures InOrder(Unseen(es, seen))
  {
    if es != [] {
      UnseenInOrder(es[1..], seen);
      UnseenEntries(es[1..], seen);
      var rest := Unseen(es[1..], seen);
      assert forall i :: 0 <= i < |rest| ==> rest[i] in rest;
    }
  }

  /** The entries of all messages that are not marked and whose unique-id is not in `seen`,
      each of them once, by rising numbers. */
  ghost predicate AllNew(s: Session, seen: set<string>, es: seq<UidlEntry>) {
    InOrder(es)
    && (forall i :: 0 <= i < |es| ==>
          Live(s, es[i].messageId) && es[i] == EntryOf(s, es[i].messageId) && es[i].uniqueId !in seen)
    && (forall n :: Live(s, n) && s.box[n - 1].uid !in seen ==> UidlEntry(n, s.box[n - 1].uid) in es)
  }

  lemma UnseenIsAllNew(s: Session, seen: set<string>)
    ensures AllNew(s, seen, Unseen(Entries(s), seen))
  {
    EntriesExactly(s);
    UnseenInOrder(Entries(s), seen);
    UnseenEntries(Entries(s), seen);
    var es := Unseen(Entries(s), seen);
    assert forall i :: 0 <= i < |es| ==> es[i] in es;
    forall n | Live(s, n) && s.box[n - 1].uid !in seen ensures UidlEntry(n, s.box[n - 1].uid) in es {
      assert EntryOf(s, n) in Entries(s);
    }
  }

  /** Order and contents leave no freedom: only one list satisfies it. */
  lemma AllNewIsUnseen(s: Session, seen: set<string>, es: seq<UidlEntry>)
    ensures AllNew(s, seen, es) <==> es == Unseen(Entries(s), seen)
  {
    UnseenIsAllNew(s, seen);
    var news := Unseen(Entries(s), seen);
    if AllNew(s, seen, es) {
      forall e | e in es ensures e in news {
        var i :| 0 <= i < |es| && es[i] == e;
        assert UidlEntry(e.messageId, s.box[e.messageId - 1].uid) in news;
      }
      forall e | e in news ensures e in es {
        var i :| 0 <= i < |news| && news[i] == e;
        assert UidlEntry(e.messageId, s.box[e.messageId - 1].uid) in es;
      }
      SameInOrder(es, news);
    }
  }

  predicate Within(a: seq<UidlEntry>, b: seq<UidlEntry>) { forall e :: e in a ==> e in b }

  lemma {:induction false} SameInOrder(a: seq<UidlEntry>, b: seq<UidlEntry>)
    requires InOrder(a) && InOrder(b) && Within(a, b) && Within(b, a)
    ensures a == b
  {
    if |a| > 0 { SomeWithin(a, b); }
    if |b| > 0 {
      SomeWithin(b, a);
      SameHead(a, b);
      TailWithin(a, b);
      TailWithin(b, a);
      SameInOrder(a[1..], b[1..]);
      assert a == [a[0]] + a[1..] && b == [b[0]] + b[1..];
    }
  }

  lemma SomeWithin(a: seq<UidlEntry>, b: seq<UidlEntry>)
    requires Within(a, b) && |a| > 0
    ensures |b| > 0
  {
    assert a[0] in b;
  }

  lemma SameHead(a: seq<UidlEntry>, b: seq<UidlEntry>)
    requires InOrder(a) && InOrder(b) && Within(a, b) && Within(b, a) && |a| > 0 && |b| > 0
    ensures a[0] == b[0]
  {
    assert a[0] in b && b[0] in a;
    var j :| 0 <= j < |b| && b[j] == a[0];
    var k :| 0 <= k < |a| && a[k] == b[0];
  }

  lemma TailWithin(a: seq<UidlEntry>, b: seq<UidlEntry>)
    requires InOrder(a) && Within(a, b) && |a| > 0 && |b| > 0 && a[0] == b[0]
    ensures Within(a[1..], b[1..]) && InOrder(a[1..])
  {
    forall e | e in a[1..] ensures e in b[1..] {
      var i :| 1 <= i < |a| && a[i] == e;
      assert e in a;
      var j :| 0 <= j < |b| && b[j] == e;
    }
  }

  lemma UnseenListed(s: Session, seen: set<string>)
    ensures SameMail(s, Next(s, Uidl))
    ensures UnseenOf(s, seen).Ok? ==>
      UnseenOf(s, seen).value == Unseen(Entries(s), seen) && Listed(s, UnseenOf(s, seen).value)
    ensures UnseenOf(s, seen).Err? ==> !UnseenOf(s, seen).error.NotAuthenticated? && !IsLost(UnseenOf(s, seen))
  {
    UnseenEntries(Entries(s), seen);
  }

  predicate Listed(s: Session, news: seq<UidlEntry>) {
    forall i :: 0 <= i < |news| ==> news[i] in Entries(s) && IdInRange(news[i])
  }

  /** The first entries, each with the content of the message it names. */
  predicate Paired(s: Session, news: seq<UidlEntry>, pairs: seq<(UidlEntry, Message)>) {
    |pairs| <= |news| && forall i :: 0 <= i < |pairs| ==> pairs[i] == (news[i], Content(s, news[i].messageId))
  }

  lemma PairedOne(s: Session, news: seq<UidlEntry>, pairs: seq<(UidlEntry, Message)>, m: Message)
    requires Paired(s, news, pairs) && |pairs| < |news| && m == Content(s, news[|pairs|].messageId)
    ensures Paired(s, news, pairs + [(news[|pairs|], m)])
  {}

  /** Every unseen UID, in mailbox order, with the content of the message it names. */
  ghost predicate Fetched(s: Session, seen: set<string>, pairs: seq<(UidlEntry, Message)>) {
    var news := Unseen(Entries(s), seen);
    |pairs| == |news| && Paired(s, news, pairs)
  }

  /** The entries that were fetched. */
  function Firsts(pairs: seq<(UidlEntry, Message)>): (es: seq<UidlEntry>)
    ensures |es| == |pairs| && forall i :: 0 <= i < |es| ==> es[i] == pairs[i].0
  {
    seq(|pairs|, i requires 0 <= i < |pairs| => pairs[i].0)
  }

  /** What is fetched is all that is new, each message once, with its content. */
  lemma FetchedAllNew(s: Session, seen: set<string>, pairs: seq<(UidlEntry, Message)>)
    ensures Fetched(s, seen, pairs) <==>
      AllNew(s, seen, Firsts(pairs)) && forall i :: 0 <= i < |pairs| ==> pairs[i].1 == Content(s, pairs[i].0.messageId)
  {
    AllNewIsUnseen(s, seen, Firsts(pairs));
    if Fetched(s, seen, pairs) { assert Firsts(pairs) == Unseen(Entries(s), seen); }
  }

  function Range(xs: seq<string>): set<string> { set x | x in xs }

  lemma RangeSnoc(xs: seq<string>, x: string)
    ensures Range(xs + [x]) == Range(xs) + {x}
    ensures NoRepeats(xs) && x !in Range(xs) ==> NoRepeats(xs + [x])
  {}

  predicate NoRepeats(xs: seq<string>) { forall i, j :: 0 <= i < j < |xs| ==> xs[i] != xs[j] }

  /** The old set is split in two: what is listed stays, the rest is reported once each. */
  predicate Pruned(before: set<string>, after: set<string>, listed: set<string>, dropped: seq<string>) {
    after == before * listed && Range(dropped) == before - listed && NoRepeats(dropped)
  }
}
