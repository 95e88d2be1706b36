/** One command, one answer: what a call does to the connection, what is written to the
    wire, and how authentication proceeds. */
module Exchange {
  import opened Basics
  import opened Strings
  import opened Wire
  import opened Response
  import opened Server
  import opened Pipeline
  import opened Connection
  import opened Meaning
  import Net = Transport
  import Schedule

  // ---- single exchanges ----

  /** What a command and n lines of its answer do to the connection. If the call is `gone`,
      which it is exactly if the link does not hold out for that much, the connection is
      broken and the server may or may not have executed the command; otherwise the server
      has executed it, once, and no byte is left to read. */
  ghost predicate ExchangedFor(l0: Link, l1: Link, c: Command, gone: bool, n: nat) {
    l1.reliable == l0.reliable && l1.fault == l0.fault
    && (l1.server == Next(l0.server, c) || (l1.server == l0.server && l1.lost))
    && (l0.lost ==> l1.lost && l1.server == l0.server)
    && (gone <==> !HoldsFor(l0, c, n))
    && (if gone then Broken(l1) else !Broken(l1) && l1.inbound == "" && l1 == WornBy(l0, c, n))
    && (l0.reliable && !Broken(l0) ==> !gone)
  }

  /** The same for the whole of the answer. */
  ghost predicate Exchanged(l0: Link, l1: Link, c: Command, gone: bool) {
    ExchangedFor(l0, l1, c, gone, ReplyLines(ReplyTo(l0.server, c)))
  }

  /** A call is either turned down without a trace, or it is one exchange whose outcome is
      what the server's answer means. */
  ghost predicate Did<T(!new)>(l0: Link, l1: Link, guard: Option<Error>, c: Command, r: Result<T>, meaning: Result<T>) {
    match guard
    case Some(e) => r == Err(e) && l1 == l0
    case None => Exchanged(l0, l1, c, IsLost(r)) && (!IsLost(r) ==> r == meaning)
  }

  /** How a call is lost: with Io if its command could not be written, and otherwise with the
      fault that has struck its answer. The closed flag is set exactly by an answer that is
      lost to the end of the stream. */
  predicate LostBy<T>(l: Link, r: Result<T>, closed0: bool, closed1: bool) {
    (IsLost(r) ==> r.error == if CanSend(l) then l.fault else Io)
    && (closed1 <==> closed0 || (IsLost(r) && MeetsEnd(l)))
  }

  /** The next answer to be lost is lost to the end of the stream. */
  predicate MeetsEnd(l: Link) { CanSend(l) && l.fault.ConnectionClosed? }

  /** A positive answer that has been turned into a result of the call. */
  lemma DidParse<T(!new)>(l0: Link, l1: Link, c: Command, text: Result<string>, r: Result<T>, meaning: Result<T>,
                          closed0: bool, closed1: bool)
    requires Exchanged(l0, l1, c, IsLost(text)) && LostBy(l0, text, closed0, closed1)
    requires text.Ok? && !IsLost(r) && r == meaning
    ensures Did(l0, l1, None, c, r, meaning) && LostBy(l0, r, closed0, closed1)
  {}

  /** The link before the command that it does not hold out for, if there is one. */
  function StopOf(l: Link, cs: seq<Command>): Link
    decreases |cs|
  {
    if cs == [] || !Survives(l, cs[0]) then l else StopOf(Worn(l, cs[0]), cs[1..])
  }

  /** A call that does not change the mailbox, and fails only with the connection or with
      an answer of the server. */
  ghost predicate ReadOnly<T(!new)>(l0: Link, l1: Link, r: Result<T>) {
    SameMail(l0.server, l1.server)
    && l1.reliable == l0.reliable
    && (IsLost(r) ==> Broken(l1))
    && (!IsLost(r) ==> Broken(l1) == Broken(l0))
    && (r.Ok? ==> !Broken(l0))
    && (l0.reliable && !Broken(l0) ==> !IsLost(r))
  }

  lemma ReadOnlyChain<T(!new)>(l0: Link, l1: Link, l2: Link, r: Result<T>)
    requires ReadOnly<()>(l0, l1, Ok(())) && ReadOnly(l1, l2, r)
    ensures ReadOnly(l0, l2, r) && (r.Ok? ==> ReadOnly<()>(l0, l2, Ok(())) && !Broken(l2))
    ensures forall f: Result<()> :: r.Err? && f == Err(r.error) ==> ReadOnly(l0, l2, f)
  {}

  /** The link after one command has been written. */
  ghost predicate SentOne(l0: Link, l1: Link, c: Command, ok: bool) {
    l1.reliable == l0.reliable && l1.readDead == l0.readDead && l1.fault == l0.fault
    && (l0.lost ==> l1.lost)
    && (ok <==> !l1.writeDead) && (ok <==> CanSend(l0))
    && ((!l0.lost && l1.server == Next(l0.server, c) && l1.inbound == l0.inbound + Render(ReplyTo(l0.server, c)))
        || (l1.lost && l1.server == l0.server && l1.inbound == l0.inbound))
    && (l0.reliable ==> ok && !l1.lost)
    && (ok ==> if GetsThrough(l0, c)
               then l1 == WornBy(l0, c, 0).(inbound := l0.inbound + Render(ReplyTo(l0.server, c)))
               else l1.lost && l1.server == l0.server && l1.inbound == l0.inbound)
  }

  lemma SentBy(l0: Link, l1: Link, c: Command, ok: bool, d: nat)
    requires Tidy(l0) && Sendable(c) && SendOver(l0, l1, [c], ok, d) && (ok <==> CanSend(l0))
    requires ok ==> l1 == Receive(l0, Sent(c)).(writes := Less(l0.writes, 3))
    ensures SentOne(l0, l1, c, ok)
    ensures l0.server.authed ==> l1.server.authed
  {
    TookOne(l0, l1, c, d);
    ReceiveCommand(l0, c);
    NextKeepsAuth(l0.server, c);
  }

  /** The link after the status line of one command has been read, or not. */
  ghost predicate Checked(l0: Link, l1: Link, c: Command, r: Result<string>) {
    ExchangedFor(l0, l1.(inbound := if IsLost(r) then l1.inbound else ""), c, IsLost(r), 1)
    && (!IsLost(r) ==> r == StatusOf(ReplyTo(l0.server, c)) && l1.inbound == BodyOf(ReplyTo(l0.server, c)))
  }

  /** What one `read_line` does to the link. */
  ghost predicate LineRead(l0: Link, l1: Link, r: Result<string>) {
    Net.Transport.OnlyRead(l0, l1)
    && (r.Ok? ==> TakeLine(l0.inbound) == Some((r.value, l1.inbound)) && !l1.readDead)
    && (r.Ok? ==> l1 == l0.(inbound := l1.inbound, lines := Less(l0.lines, 1)))
    && (r.Err? ==> r.error == l0.fault && l1.readDead)
    && (r.Ok? <==> !l0.readDead && l0.inbound != "" && (l0.reliable || l0.lines > 0))
  }

  /** The line read after a command has been sent is the status line of its answer. */
  lemma StatusLineRead(l0: Link, l: Link, l1: Link, c: Command, line: Result<string>, r: Result<string>)
    requires SentOne(l0, l, c, true) && LineRead(l, l1, line) && (!Broken(l0) ==> l0.inbound == "")
    requires r == if line.Err? then Err(line.error) else ParseStatus(line.value)
    ensures Checked(l0, l1, c, r)
  {
    if line.Ok? { StatusLineGot(l0, l, l1, c, line.value, r); } else { StatusLineLost(l0, l, l1, c, r); }
  }

  lemma StatusLineGot(l0: Link, l: Link, l1: Link, c: Command, line: string, r: Result<string>)
    requires SentOne(l0, l, c, true) && LineRead(l, l1, Ok(line)) && (!Broken(l0) ==> l0.inbound == "")
    requires r == ParseStatus(line)
    ensures Checked(l0, l1, c, r)
  {
    RenderHead(ReplyTo(l0.server, c));
    assert "" + Render(ReplyTo(l0.server, c)) == Render(ReplyTo(l0.server, c));
  }

  lemma StatusLineLost(l0: Link, l: Link, l1: Link, c: Command, r: Result<string>)
    requires SentOne(l0, l, c, true) && (!Broken(l0) ==> l0.inbound == "")
    requires r.Err? && LineRead(l, l1, r)
    ensures Checked(l0, l1, c, r)
  {
    RenderHead(ReplyTo(l0.server, c));
    assert "" + Render(ReplyTo(l0.server, c)) == Render(ReplyTo(l0.server, c));
  }

  /** The status line has been read, or is lost to the fault of the link. */
  lemma StatusLineLostBy(l0: Link, l: Link, c: Command, line: Result<string>, r: Result<string>, closed0: bool,
                         closed1: bool)
    requires SentOne(l0, l, c, true) && (line.Err? ==> line.error == l.fault)
    requires r == if line.Err? then Err(line.error) else ParseStatus(line.value)
    requires closed1 <==> closed0 || (line.Err? && l.fault.ConnectionClosed?)
    ensures LostBy(l0, r, closed0, closed1)
  {
    if line.Ok? { RetryableStatus(line.value); }
  }

  /** A command that could not be written. */
  lemma NotSent(l0: Link, l1: Link, c: Command, r: Result<string>)
    requires SentOne(l0, l1, c, false) && IsLost(r)
    ensures Checked(l0, l1, c, r)
  {}

  /** The body of an answer has been read, or not. */
  lemma BodyRead(l0: Link, l: Link, l1: Link, c: Command, text: string, r: Result<string>)
    requires Checked(l0, l, c, Ok(text)) && ReplyTo(l0.server, c).Data? && Net.Transport.OnlyRead(l, l1)
    requires r.Ok? ==> Decode(l.inbound) == Some((r.value, l1.inbound)) && l1.readDead == l.readDead
    requires r.Ok? ==> l1.lines == Less(l.lines, BodyLines(l.inbound))
    requires r.Err? ==> IsIo(r.error) && l1.readDead
    requires !l.readDead && Decode(l.inbound).Some? ==> (r.Ok? <==> l.reliable || BodyLines(l.inbound) <= l.lines)
    ensures Exchanged(l0, l1, c, IsLost(r))
    ensures !IsLost(r) ==> r == TextOf(ReplyTo(l0.server, c)) && l1.inbound == ""
  {
    var reply := ReplyTo(l0.server, c);
    BodyDecodes(reply);
    BodyLinesOf(reply.lines);
  }

  lemma RenderHead(r: Reply)
    ensures TakeLine(Render(r)).Some? && TakeLine(Render(r)).value.1 == BodyOf(r)
    ensures ParseStatus(TakeLine(Render(r)).value.0) == StatusOf(r)
    ensures Render(r) != "" && !IsLost(StatusOf(r))
  {
    RenderSplits(r, "");
    assert Render(r) + "" == Render(r) && BodyOf(r) + "" == BodyOf(r);
  }

  lemma BodyDecodes(r: Reply)
    requires r.Data?
    ensures Decode(BodyOf(r)) == Some((Unlines(r.lines), ""))
  {
    RoundTrip(r.lines, "");
    assert Encode(r.lines) + "" == Encode(r.lines);
  }

  lemma RunOfOne(s: Session, c: Command)
    ensures After(s, [c]) == Next(s, c) && Answers(s, [c]) == Render(ReplyTo(s, c))
  {
    assert [c][1..] == [];
    assert Render(ReplyTo(s, c)) + "" == Render(ReplyTo(s, c));
  }

  lemma RunOfTwo(s: Session, a: Command, b: Command)
    ensures var cs := [a, b];
            cs[..0] == [] && cs[..1] == [a] && After(s, cs[..0]) == s && After(s, cs[..1]) == Next(s, a) &&
            After(s, cs) == Next(Next(s, a), b) &&
            ReplyAt(s, cs, 0) == ReplyTo(s, a) && ReplyAt(s, cs, 1) == ReplyTo(Next(s, a), b)
  {
    RunOfOne(s, a);
    RunOfOne(Next(s, a), b);
    ReplyAtState(s, [a, b], 1);
    assert [a, b][..1] == [a] && [a, b][1..] == [b];
  }

  lemma TookOne(l0: Link, l1: Link, c: Command, d: nat)
    requires Took(l0, l1, [c], d)
    ensures d == 0 ==> l1.server == l0.server && l1.inbound == l0.inbound
    ensures d == 1 ==> l1.server == Next(l0.server, c) && l1.inbound == l0.inbound + Render(ReplyTo(l0.server, c))
  {
    RunOfOne(l0.server, c);
    assert [c][..0] == [] && [c][..1] == [c];
    assert l0.inbound + "" == l0.inbound;
  }

  lemma NextKeepsAuth(s: Session, c: Command)
    ensures s.authed ==> Next(s, c).authed
  {}

  lemma {:induction false} AfterKeepsAuth(s: Session, cs: seq<Command>)
    ensures s.authed ==> After(s, cs).authed
    decreases |cs|
  {
    if cs != [] {
      NextKeepsAuth(s, cs[0]);
      AfterKeepsAuth(Next(s, cs[0]), cs[1..]);
    }
  }

  /** Why a mailbox command is turned down before anything is sent. */
  function Guard(state: SessionState, zeroId: bool): Option<Error> {
    if !state.Authenticated? then Some(NotAuthenticated) else if zeroId then Some(InvalidInput) else None
  }

  function BatchGuard(state: SessionState, ids: seq<nat>): Option<Error> {
    if !state.Authenticated? then Some(NotAuthenticated) else if 0 in ids then Some(InvalidInput) else None
  }

  // ---- the trace of issued commands ----

  predicate ForMailbox(c: Command) {
    c.Stat? || c.List? || c.ListOne? || c.Uidl? || c.UidlOne? || c.Retr? || c.Dele? || c.Rset? || c.Noop? || c.Top?
  }

  predicate LogsIn(c: Command) { c.Pass? || c.Apop? }

  /** A command as issued, with the client's state at that moment, and whether the server
      had by then accepted a PASS or an APOP. */
  datatype Issue = Issue(command: Command, authed: bool, encrypted: bool, accepted: bool)

  predicate Permitted(e: Issue) {
    Sendable(e.command)
    && (ForMailbox(e.command) ==> e.authed && e.accepted)
    && (e.command.User? || LogsIn(e.command) ==> !e.authed)
    && (e.command.Stls? ==> !e.authed && !e.encrypted)
  }

  /** Being authenticated starts right after a PASS or APOP and never ends. */
  predicate Follows(e: Issue, authed: bool) {
    if e.authed then authed else authed ==> LogsIn(e.command)
  }

  predicate Lawful(log: seq<Issue>, authed: bool) {
    (forall i :: 0 <= i < |log| ==> Permitted(log[i]))
    && (forall i :: 0 <= i < |log| - 1 ==> Follows(log[i], log[i + 1].authed))
    && (if log == [] then !authed else !log[0].authed && Follows(log[|log| - 1], authed))
  }

  function CommandsOf(log: seq<Issue>): (cs: seq<Command>)
    ensures |cs| == |log|
    ensures forall i :: 0 <= i < |cs| ==> cs[i] == log[i].command
  {
    seq(|log|, i requires 0 <= i < |log| => log[i].command)
  }

  /** The bytes of a run of commands. */
  function Bytes(cs: seq<Command>): string { Schedule.Concat(SentAll(cs)) }

  lemma BytesSnoc(cs: seq<Command>, c: Command)
    ensures Bytes(cs + [c]) == Bytes(cs) + Sent(c)
  {
    assert SentAll(cs + [c]) == SentAll(cs) + [Sent(c)];
    Schedule.ConcatAppend(SentAll(cs), [Sent(c)]);
    Schedule.ConcatOne(Sent(c));
  }

  lemma BytesTake(cs: seq<Command>, i: nat)
    requires i < |cs|
    ensures Bytes(cs[..i + 1]) == Bytes(cs[..i]) + Sent(cs[i]) && Bytes(cs[..i + 1]) <= Bytes(cs)
  {
    assert cs[..i + 1] == cs[..i] + [cs[i]];
    BytesSnoc(cs[..i], cs[i]);
    assert cs == cs[..i + 1] + cs[i + 1..];
    BytesAppend(cs[..i + 1], cs[i + 1..]);
  }

  lemma BytesAppend(a: seq<Command>, b: seq<Command>)
    ensures Bytes(a + b) == Bytes(a) + Bytes(b)
  {
    SentAppend(a, b);
    Schedule.ConcatAppend(SentAll(a), SentAll(b));
  }

  lemma SentAppend(a: seq<Command>, b: seq<Command>)
    ensures SentAll(a + b) == SentAll(a) + SentAll(b)
  {}

  /** Until a write fails, the writer has accepted exactly the issued commands, and
      afterwards no more than them. */
  ghost predicate Traced(written: string, log: seq<Issue>, writeDead: bool) {
    written <= Bytes(CommandsOf(log)) && (!writeDead ==> written == Bytes(CommandsOf(log)))
  }

  /** Cutting the written bytes at CRLF gives back the command lines one by one. */
  function SplitCrlf(s: string): seq<string>
    decreases |s|
  {
    var n := FindLf(s);
    if n == |s| then (if s == "" then [] else [s]) else [StripCr(s[..n])] + SplitCrlf(s[n + 1..])
  }

  function LinesOf(cs: seq<Command>): (ls: seq<string>)
    ensures |ls| == |cs|
    ensures forall i :: 0 <= i < |ls| ==> ls[i] == CommandLine(cs[i])
  {
    seq(|cs|, i requires 0 <= i < |cs| => CommandLine(cs[i]))
  }

  lemma SplitFirstLine(line: string, rest: string)
    requires Clean(line)
    ensures SplitCrlf(line + "\r\n" + rest) == [line] + SplitCrlf(rest)
  {
    var s := line + "\r\n" + rest;
    assert s == (line + "\r") + ("\n" + rest);
    FindLfOf(line + "\r", "\n" + rest);
    assert s[..|line| + 1] == line + "\r" && s[|line| + 2..] == rest;
    assert (line + "\r")[..|line|] == line;
  }

  lemma {:induction false} WireTrace(cs: seq<Command>)
    requires forall i :: 0 <= i < |cs| ==> Sendable(cs[i])
    ensures SplitCrlf(Bytes(cs)) == LinesOf(cs)
    decreases |cs|
  {
    if cs != [] {
      var line, rest := CommandLine(cs[0]), Bytes(cs[1..]);
      CommandRoundTrip(cs[0]);
      assert SentAll(cs)[1..] == SentAll(cs[1..]);
      assert Bytes(cs) == line + "\r\n" + rest;
      SplitFirstLine(line, rest);
      WireTrace(cs[1..]);
      assert LinesOf(cs)[1..] == LinesOf(cs[1..]);
    }
  }

  lemma IssueOne(log: seq<Issue>, e: Issue, authed: bool, written0: string, written: string, dead0: bool, dead: bool)
    requires Lawful(log, authed) && Traced(written0, log, dead0)
    requires e.authed == authed && Permitted(e)
    requires written0 <= written <= written0 + Sent(e.command)
    requires dead0 ==> written == written0
    requires !dead ==> !dead0 && written == written0 + Sent(e.command)
    ensures Lawful(log + [e], authed) && Traced(written, log + [e], dead)
  {
    LawfulOne(log, e, authed);
    BytesOfLog(log, e);
  }

  lemma LawfulOne(log: seq<Issue>, e: Issue, authed: bool)
    requires Lawful(log, authed) && e.authed == authed && Permitted(e)
    ensures Lawful(log + [e], authed)
  {
    var all := log + [e];
    forall i | 0 <= i < |all| - 1 ensures Follows(all[i], all[i + 1].authed) {
      assert i < |log| - 1 ==> Follows(log[i], log[i + 1].authed);
    }
  }

  lemma BytesOfLog(log: seq<Issue>, e: Issue)
    ensures Bytes(CommandsOf(log + [e])) == Bytes(CommandsOf(log)) + Sent(e.command)
  {
    assert CommandsOf(log + [e]) == CommandsOf(log) + [e.command];
    BytesSnoc(CommandsOf(log), e.command);
  }

  /** After a PASS or APOP the log may go on as authenticated. */
  lemma LoggedIn(log: seq<Issue>)
    requires Lawful(log, false) && log != [] && !log[|log| - 1].authed
    ensures LogsIn(log[|log| - 1].command) ==> Lawful(log, true)
  {}

  // ---- authentication ----

  function ExtractApopTimestamp(greeting: string): Option<string> {
    var start := FindChar(greeting, '<');
    var len := FindChar(greeting[start..], '>');
    if start < |greeting| && len < |greeting[start..]| then Some(greeting[start..][..len + 1]) else None
  }

  /** The timestamp runs from the first '<' of the greeting through the next '>'. */
  lemma TimestampTaken(before: string, stamp: string, after: string)
    requires '<' !in before && '>' !in stamp
    ensures ExtractApopTimestamp(before + "<" + stamp + ">" + after) == Some("<" + stamp + ">")
  {
    var greeting := before + "<" + stamp + ">" + after;
    assert greeting == before + ['<'] + (stamp + ">" + after);
    FindCharOf(before, '<', stamp + ">" + after);
    var tail := greeting[|before|..];
    assert tail == "<" + stamp + ['>'] + after;
    FindCharOf("<" + stamp, '>', after);
    assert tail[..|stamp| + 2] == "<" + stamp + ">";
  }

  lemma TimestampMissing(greeting: string)
    ensures ExtractApopTimestamp(greeting).None? <==>
      !exists i, j :: 0 <= i < j < |greeting| && greeting[i] == '<' && greeting[j] == '>'
  {
    var start := FindChar(greeting, '<');
    var tail := greeting[start..];
    assert forall j :: start <= j < |greeting| ==> greeting[j] == tail[j - start];
    if ExtractApopTimestamp(greeting).Some? {
      assert greeting[start] == '<' && greeting[start + FindChar(tail, '>')] == '>';
    }
  }

  /** The digest is that of timestamp and password. */
  lemma ApopCommandOf(username: string, password: string, before: string, stamp: string, after: string,
                      md5: string -> string)
    requires '<' !in before && '>' !in stamp
    ensures ApopCommand(username, password, before + "<" + stamp + ">" + after, md5) ==
      Command.Apop(username + " " + md5("<" + stamp + ">" + password))
  {
    TimestampTaken(before, stamp, after);
  }

  const NO_TIMESTAMP: Error := ServerError("server does not support APOP (no timestamp in greeting)")

  function LoginGuard(state: SessionState, clean: bool): Option<Error> {
    if !state.Connected? then Some(NotAuthenticated) else if !clean then Some(InvalidInput) else None
  }

  function ApopGuard(state: SessionState, username: string, password: string, greeting: string): Option<Error> {
    var g := LoginGuard(state, Clean(username) && Clean(password));
    if g.None? && ExtractApopTimestamp(greeting).None? then Some(NO_TIMESTAMP) else g
  }

  function ApopCommand(username: string, password: string, greeting: string, md5: string -> string): Command {
    match ExtractApopTimestamp(greeting)
    case Some(stamp) => Command.Apop(Verb(username, md5(stamp + password)))
    case None => Unknown
  }

  /** Logging in is turned down without a trace, or its commands are executed in order up
      to the first that the server rejects. */
  ghost predicate LoginDid(l0: Link, l1: Link, guard: Option<Error>, state0: SessionState, state1: SessionState,
                           cs: seq<Command>, r: Result<()>)
  {
    match guard
    case Some(e) => r == Err(e) && l1 == l0 && state1 == state0
    case None =>
      (r.Ok? ==> state1.Authenticated? && !Broken(l0) && Accepted(l0.server, cs))
      && (r.Err? ==> state1 == state0)
      && (IsLost(r) ==> Broken(l1))
      && (r.Err? && !IsLost(r) ==> !Broken(l1) && Rejected(l0.server, cs, r.error))
      && SameMail(l0.server, l1.server)
      && (l0.reliable && !Broken(l0) ==> !IsLost(r) && !Broken(l1) && l1.reliable)
  }

  predicate Accepted(s: Session, cs: seq<Command>) {
    forall i :: 0 <= i < |cs| ==> !ReplyAt(s, cs, i).Minus?
  }

  /** The i-th command was the first to be refused, and the error says why. */
  predicate RejectedAt(s: Session, cs: seq<Command>, i: nat, e: Error) {
    i < |cs| && ReplyAt(s, cs, i).Minus? && e == Denial(ReplyAt(s, cs, i).why) && Accepted(s, cs[..i])
  }

  ghost predicate Rejected(s: Session, cs: seq<Command>, e: Error) { exists i :: RejectedAt(s, cs, i, e) }

  /** How STLS fares: a lost connection, the server's refusal, or what comes of the handshake. */
  predicate StlsDid(l0: Link, l1: Link, handshake: Result<()>, r: Result<()>) {
    var reply := ReplyTo(l0.server, Command.Stls);
    (l0.reliable && !Broken(l0) ==> Survives(l0, Command.Stls))
    && if !Survives(l0, Command.Stls) then IsLost(r)
       else if reply.Minus? then r == Err(ErrorOf(reply.why))
       else r == handshake && (r.Ok? ==> l1 == Worn(l0, Command.Stls))
  }

  /** The answer to STLS, if it has been lost or was a refusal. */
  lemma StlsRefused(l0: Link, l1: Link, handshake: Result<()>, a: Result<string>, r: Result<()>)
    requires Exchanged(l0, l1, Command.Stls, IsLost(a)) && a.Err? && r == Err(a.error)
    requires !IsLost(a) ==> a == StatusOf(ReplyTo(l0.server, Command.Stls))
    ensures StlsDid(l0, l1, handshake, r) && SameMail(l0.server, l1.server)
    ensures Survives(l0, Command.Stls) <==> !IsLost(r)
  {}

  // ---- how connecting and logging in fares, as a function of the link ----

  /** Through, on the link as it is then; or not, for the moment or for good. */
  datatype Fared = Through(link: Link) | ForNow | ForGood

  function Refused(why: Refusal): Fared { if why.code.SysTempCode? then ForNow else ForGood }

  /** The commands of a login, one after the other. */
  function FareThrough(l: Link, cs: seq<Command>): Fared
    decreases |cs|
  {
    if cs == [] then Through(l)
    else if !Survives(l, cs[0]) then ForNow
    else if ReplyTo(l.server, cs[0]).Minus? then Refused(ReplyTo(l.server, cs[0]).why)
    else FareThrough(Worn(l, cs[0]), cs[1..])
  }

  /** The link after the capability probe; nothing is made of its failure. */
  predicate AfterProbe(l: Link, l1: Link) {
    if Survives(l, Command.Capa) then l1 == Worn(l, Command.Capa) else Broken(l1)
  }

  /** The result is the one that was bound to come. */
  predicate FaredAs<T>(f: Fared, r: Result<T>) {
    match f
    case Through(_) => r.Ok?
    case ForNow => r.Err? && IsRetryable(r.error)
    case ForGood => r.Err? && !IsRetryable(r.error)
  }

  /** One refused or lost step ends the login. */
  lemma FareStops(l: Link, l1: Link, cs: seq<Command>, r: Result<()>)
    requires |cs| > 0 && Stepped(l, l1, cs[0], r) && r.Err?
    ensures FaredAs(FareThrough(l, cs), r)
  {
    RefusedError(ReplyTo(l.server, cs[0]), r.error);
  }

  lemma RefusedError(reply: Reply, e: Error)
    ensures reply.Minus? && e == Denial(reply.why) ==> FaredAs<()>(Refused(reply.why), Err(e))
    ensures reply.Minus? && e == ErrorOf(reply.why) ==> FaredAs<()>(Refused(reply.why), Err(e))
  {}

  lemma FareStep(l: Link, l1: Link, c: Command, cs: seq<Command>)
    requires Stepped(l, l1, c, Ok(()))
    ensures FareThrough(l, [c] + cs) == FareThrough(l1, cs)
  {
    assert ([c] + cs)[1..] == cs;
  }

  lemma FareSecond(l: Link, l1: Link, l2: Link, a: Command, b: Command, r: Result<()>)
    requires Stepped(l, l1, a, Ok(())) && Stepped(l1, l2, b, r)
    ensures FaredAs(FareThrough(l, [a, b]), r)
    ensures r.Ok? ==> FareThrough(l, [a, b]) == Through(l2)
  {
    FareStep(l, l1, a, [b]);
    assert [a] + [b] == [a, b];
    FareOnly(l1, l2, b, r);
  }

  lemma StopSecond(l: Link, l1: Link, l2: Link, a: Command, b: Command, r: Result<()>)
    requires Stepped(l, l1, a, Ok(())) && Stepped(l1, l2, b, r)
    ensures IsLost(r) ==> StopOf(l, [a, b]) == l1
  {
    assert [a, b][1..] == [b];
  }

  lemma FareOnly(l: Link, l1: Link, c: Command, r: Result<()>)
    requires Stepped(l, l1, c, r)
    ensures FaredAs(FareThrough(l, [c]), r)
    ensures r.Ok? ==> FareThrough(l, [c]) == Through(l1)
  {
    if r.Err? {
      FareStops(l, l1, [c], r);
    } else {
      FareStep(l, l1, c, []);
      assert [c] + [] == [c];
    }
  }

  /** The first negative reply decides how a dialogue ends. */
  function FirstRefusal(rs: seq<Reply>): Option<Refusal> {
    if rs == [] then None else if rs[0].Minus? then Some(rs[0].why) else FirstRefusal(rs[1..])
  }

  /** One step of authentication. */
  ghost predicate Stepped(l0: Link, l1: Link, c: Command, r: Result<()>) {
    var reply := ReplyTo(l0.server, c);
    (IsLost(r) ==> Broken(l1)) && (IsLost(r) <==> !Survives(l0, c))
    && (!IsLost(r) ==> !Broken(l0) && !Broken(l1) && l1 == Worn(l0, c))
    && (r.Ok? ==> !reply.Minus?)
    && (r.Err? ==> !r.error.ServerError?)
    && (r.Err? && !IsLost(r) ==> reply.Minus? && r.error == Denial(reply.why))
    && SameMail(l0.server, l1.server)
    && (l0.reliable && !Broken(l0) ==> !IsLost(r) && l1.reliable)
  }

  lemma SteppedBy(l0: Link, l1: Link, c: Command, a: Result<string>, r: Result<()>, closed0: bool, closed1: bool)
    requires Exchanged(l0, l1, c, IsLost(a)) && (!IsLost(a) ==> a == StatusOf(ReplyTo(l0.server, c)))
    requires r == (if a.Err? then Err(Promote(a.error)) else Ok(())) && (c.User? || LogsIn(c))
    requires LostBy(l0, a, closed0, closed1)
    ensures Stepped(l0, l1, c, r) && LostBy(l0, r, closed0, closed1)
  {
    var reply := ReplyTo(l0.server, c);
    if reply.Minus? { DenialOf(reply.why); }
  }

  lemma RejectedKinds(s: Session, cs: seq<Command>, e: Error)
    requires Rejected(s, cs, e)
    ensures !e.NotAuthenticated? && !IsIo(e) && !e.ServerError?
  {
    var i :| RejectedAt(s, cs, i, e);
    DenialOf(ReplyAt(s, cs, i).why);
  }

  lemma LoginFailsFirst(l0: Link, l1: Link, state: SessionState, cs: seq<Command>, r: Result<()>)
    requires |cs| > 0 && Stepped(l0, l1, cs[0], r) && r.Err?
    ensures LoginDid(l0, l1, None, state, state, cs, r)
  {
    if !IsLost(r) { RejectedOne(l0.server, cs); }
  }

  lemma LoginSecond(l0: Link, l1: Link, l2: Link, state: SessionState, a: Command, b: Command, r: Result<()>)
    requires Stepped(l0, l1, a, Ok(())) && Stepped(l1, l2, b, r)
    ensures LoginDid(l0, l2, None, state, if r.Ok? then Authenticated else state, [a, b], r)
    ensures r.Ok? ==> l2.server == After(l0.server, [a, b])
  {
    RunOfTwo(l0.server, a, b);
    if r.Err? && !IsLost(r) { RejectedTwo(l0.server, a, b); }
  }

  lemma LoginOnly(l0: Link, l1: Link, state: SessionState, c: Command, r: Result<()>)
    requires Stepped(l0, l1, c, r)
    ensures LoginDid(l0, l1, None, state, if r.Ok? then Authenticated else state, [c], r)
  {
    assert [c][..0] == [] && ReplyAt(l0.server, [c], 0) == ReplyTo(l0.server, c);
    if r.Err? { LoginFailsFirst(l0, l1, state, [c], r); }
  }

  lemma RejectedOne(s: Session, cs: seq<Command>)
    requires |cs| > 0 && ReplyTo(s, cs[0]).Minus?
    ensures Rejected(s, cs, Denial(ReplyTo(s, cs[0]).why))
  {
    assert cs[..0] == [];
    assert RejectedAt(s, cs, 0, Denial(ReplyTo(s, cs[0]).why));
  }

  lemma RejectedTwo(s: Session, a: Command, b: Command)
    requires !ReplyTo(s, a).Minus? && ReplyTo(Next(s, a), b).Minus?
    ensures Rejected(s, [a, b], Denial(ReplyTo(Next(s, a), b).why))
  {
    RunOfTwo(s, a, b);
    assert [a][..0] == [];
    assert RejectedAt(s, [a, b], 1, Denial(ReplyTo(Next(s, a), b).why));
  }

  /** The session advertises PIPELINING and its CAPA is obeyed. */
  predicate Advertised(s: Session) {
    var r := ReplyTo(s, Command.Capa);
    !r.Minus? && Pipelines(Announce(s.caps))
  }

  lemma AdvertisedExactly(s: Session)
    ensures Advertised(s) <==>
      Obeyed(s, Command.Capa) && exists i :: 0 <= i < |s.caps| && s.caps[i].name == "PIPELINING"
  {
    ReplyShape(s, Command.Capa);
    assert forall i :: 0 <= i < |s.caps| ==> Announce(s.caps)[i].name == s.caps[i].name;
  }

  /** A refused login is worth retrying only if the refusal said [SYS/TEMP]; any other
      refusal, a wrong password above all, is final. */
  lemma OnlySysTempIsTransient(s: Session, cs: seq<Command>, i: nat, e: Error)
    requires RejectedAt(s, cs, i, e)
    ensures e.SysTemp? <==> ReplyAt(s, cs, i).why.code.SysTempCode?
    ensures !IsIo(e)
  {}
}
