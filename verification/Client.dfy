/** The POP3 client: session state, single commands, windowed batches and UIDL-based sync. */
module Client {
  import opened Basics
  import opened Strings
  import opened Wire
  import opened Response
  import opened Server
  import opened Pipeline
  import opened Connection
  import opened Meaning
  import opened Exchange
  import opened Window
  import Net = Transport

  class Pop3Client {
    const transport: Net.Transport
    const greeting: string
    var state: SessionState
    var isPipelining: bool
    ghost var log: seq<Issue>

    /** Holds between any two calls: the reply to every command has been consumed by that
        command, or the connection is broken and will stay so. */
    ghost predicate Valid()
      reads this, transport
    {
      Sound() && (!Broken(transport.link) ==> transport.link.inbound == "")
    }

    ghost predicate Sound()
      reads this, transport
    {
      transport.Valid()
      && (state.Authenticated? ==> transport.link.server.authed)
      && (isPipelining ==> state.Authenticated?)
      && Lawful(log, state.Authenticated?)
      && Traced(transport.written, log, transport.link.writeDead)
    }

    /** The log entry of a command that is issued now. */
    ghost function Issued(c: Command): Issue
      reads this, transport
    {
      Issue(c, state.Authenticated?, transport.encrypted, transport.link.server.authed)
    }

    constructor (transport: Net.Transport, greeting: string)
      requires transport.Valid() && transport.written == "" && !transport.link.server.authed
      requires !Broken(transport.link) ==> transport.link.inbound == ""
      ensures Valid() && this.transport == transport && this.greeting == greeting
      ensures state.Connected? && !isPipelining
    {
      this.transport, this.greeting, this.state, this.isPipelining, this.log :=
        transport, greeting, Connected, false, [];
    }

    /** Sends one command. */
    method Send(cmd: string, ghost c: Command) returns (r: Result<()>)
      requires Sound() && cmd == CommandLine(c)
      requires Permitted(Issued(c))
      modifies this`log, transport`link, transport`buffer, transport`written
      ensures Sound()
      ensures log == old(log) + [old(Issued(c))]
      ensures SentOne(old(transport.link), transport.link, c, r.Ok?) && (r.Err? ==> r.error.Io?)
    {
      ghost var l0, w0 := transport.link, transport.written;
      ghost var e := Issued(c);
      ghost var d;
      r, d := transport.SendCommand(cmd, c);
      SentBy(l0, transport.link, c, r.Ok?, d);
      IssueOne(log, e, e.authed, w0, transport.written, l0.writeDead, transport.link.writeDead);
      log := log + [e];
    }

    /** Reads the status line that answers the command just sent. */
    method ReadStatus(ghost l0: Link, ghost c: Command) returns (r: Result<string>)
      requires Sound() && SentOne(l0, transport.link, c, true)
      requires !Broken(l0) ==> l0.inbound == ""
      modifies transport`link, transport`closed
      ensures Sound()
      ensures Checked(l0, transport.link, c, r) && LostBy(l0, r, old(transport.closed), transport.closed)
    {
      ghost var l, closed := transport.link, transport.closed;
      var line := transport.ReadLine();
      r := if line.Err? then Err(line.error) else ParseStatus(line.value);
      StatusLineRead(l0, l, transport.link, c, line, r);
      StatusLineLostBy(l0, l, c, line, r, closed, transport.closed);
    }

    /** Sends a command and reads its status line. A body, if the answer has one, is left
        to be read. */
    method SendAndCheck(cmd: string, ghost c: Command) returns (r: Result<string>)
      requires Valid() && cmd == CommandLine(c)
      requires Permitted(Issued(c))
      modifies this`log, transport`link, transport`buffer, transport`written, transport`closed
      ensures Sound()
      ensures log == old(log) + [old(Issued(c))]
      ensures Checked(old(transport.link), transport.link, c, r)
      ensures LostBy(old(transport.link), r, old(transport.closed), transport.closed)
    {
      ghost var l0 := transport.link;
      var sent := Send(cmd, c);
      if sent.Err? {
        r := Err(sent.error);
        NotSent(l0, transport.link, c, r);
        return;
      }
      r := ReadStatus(l0, c);
    }

    /** A command with a single-line answer. */
    method Simple(cmd: string, ghost c: Command) returns (r: Result<string>)
      requires Valid() && cmd == CommandLine(c) && !MultiLine(c)
      requires Permitted(Issued(c))
      modifies this`log, transport`link, transport`buffer, transport`written, transport`closed
      ensures log == old(log) + [old(Issued(c))]
      ensures Valid() && Exchanged(old(transport.link), transport.link, c, IsLost(r))
      ensures !IsLost(r) ==> r == StatusOf(ReplyTo(old(transport.link).server, c))
      ensures LostBy(old(transport.link), r, old(transport.closed), transport.closed)
    {
      ReplyShape(transport.link.server, c);
      r := SendAndCheck(cmd, c);
    }

    /** A command with a multi-line answer: `send_and_check`, then `read_multiline`. */
    method WithBody(cmd: string, ghost c: Command) returns (r: Result<string>)
      requires Valid() && cmd == CommandLine(c) && MultiLine(c)
      requires Permitted(Issued(c))
      modifies this`log, transport`link, transport`buffer, transport`written, transport`closed
      ensures Valid() && Exchanged(old(transport.link), transport.link, c, IsLost(r))
      ensures !IsLost(r) ==> r == TextOf(ReplyTo(old(transport.link).server, c))
      ensures LostBy(old(transport.link), r, old(transport.closed), transport.closed)
    {
      ghost var l0 := transport.link;
      ReplyShape(l0.server, c);
      r := SendAndCheck(cmd, c);
      if r.Err? { return; }
      ghost var l, text := transport.link, r.value;
      r := transport.ReadMultiline();
      BodyRead(l0, l, transport.link, c, text, r);
    }

    method Stat() returns (r: Result<Response.Stat>)
      requires Valid()
      modifies this`log, transport`link, transport`buffer, transport`written, transport`closed
      ensures Valid()
      ensures var s := old(transport.link).server;
              Did(old(transport.link), transport.link, Guard(state, false), Command.Stat, r,
                  StatOfReply(s, ReplyTo(s, Command.Stat)))
      ensures LostBy(old(transport.link), r, old(transport.closed), transport.closed)
    {
      if !state.Authenticated? { return Err(NotAuthenticated); }
      ghost var l0, closed := transport.link, transport.closed;
      StatAnswer(l0.server);
      var text :- Simple("STAT", Command.Stat);
      r := ParseStat(text);
      DidParse(l0, transport.link, Command.Stat, Ok(text), r, StatOfReply(l0.server, ReplyTo(l0.server, Command.Stat)),
               closed, transport.closed);
    }

    method ListAll() returns (r: Result<seq<ListEntry>>)
      requires Valid()
      modifies this`log, transport`link, transport`buffer, transport`written, transport`closed
      ensures Valid()
      ensures var s := old(transport.link).server;
              Did(old(transport.link), transport.link, Guard(state, false), List, r,
                  ScansOf(ReplyTo(s, List), Scans(s)))
      ensures LostBy(old(transport.link), r, old(transport.closed), transport.closed)
    {
      if !state.Authenticated? { return Err(NotAuthenticated); }
      ListAnswer(transport.link.server);
      var body :- WithBody("LIST", List);
      return ParseListMulti(body);
    }

    method ListSingle(id: U32) returns (r: Result<seq<ListEntry>>)
      requires Valid()
      modifies this`log, transport`link, transport`buffer, transport`written, transport`closed
      ensures Valid()
      ensures var s := old(transport.link).server;
              Did(old(transport.link), transport.link, Guard(state, id == 0), ListOne(id), r, ListOneOf(s, id))
      ensures LostBy(old(transport.link), r, old(transport.closed), transport.closed)
    {
      if !state.Authenticated? { return Err(NotAuthenticated); }
      if id == 0 { return Err(InvalidInput); }
      ghost var l0, closed := transport.link, transport.closed;
      ListOneAnswer(l0.server, id);
      var text :- Simple(Verb("LIST", Dec(id)), ListOne(id));
      r := Just(ParseListEntry(text));
      DidParse(l0, transport.link, ListOne(id), Ok(text), r, ListOneOf(l0.server, id), closed, transport.closed);
    }

    method UidlAll() returns (r: Result<seq<UidlEntry>>)
      requires Valid()
      modifies this`log, transport`link, transport`buffer, transport`written, transport`closed
      ensures Valid()
      ensures var s := old(transport.link).server;
              Did(old(transport.link), transport.link, Guard(state, false), Uidl, r,
                  UidsOf(ReplyTo(s, Uidl), Entries(s)))
      ensures LostBy(old(transport.link), r, old(transport.closed), transport.closed)
    {
      if !state.Authenticated? { return Err(NotAuthenticated); }
      UidlAnswer(transport.link.server);
      var body :- WithBody("UIDL", Uidl);
      return ParseUidlMulti(body);
    }

    method UidlSingle(id: U32) returns (r: Result<seq<UidlEntry>>)
      requires Valid()
      modifies this`log, transport`link, transport`buffer, transport`written, transport`closed
      ensures Valid()
      ensures var s := old(transport.link).server;
              Did(old(transport.link), transport.link, Guard(state, id == 0), UidlOne(id), r, UidlOneOf(s, id))
      ensures LostBy(old(transport.link), r, old(transport.closed), transport.closed)
    {
      if !state.Authenticated? { return Err(NotAuthenticated); }
      if id == 0 { return Err(InvalidInput); }
      ghost var l0, closed := transport.link, transport.closed;
      UidlOneAnswer(l0.server, id);
      var text :- Simple(Verb("UIDL", Dec(id)), UidlOne(id));
      r := Just(ParseUidlEntry(text));
      DidParse(l0, transport.link, UidlOne(id), Ok(text), r, UidlOneOf(l0.server, id), closed, transport.closed);
    }

    method Retr(id: U32) returns (r: Result<Message>)
      requires Valid()
      modifies this`log, transport`link, transport`buffer, transport`written, transport`closed
      ensures Valid()
      ensures var s := old(transport.link).server;
              Did(old(transport.link), transport.link, Guard(state, id == 0), Command.Retr(id), r,
                  MessageOf(ReplyTo(s, Command.Retr(id))))
      ensures LostBy(old(transport.link), r, old(transport.closed), transport.closed)
    {
      if !state.Authenticated? { return Err(NotAuthenticated); }
      if id == 0 { return Err(InvalidInput); }
      var data :- WithBody(Verb("RETR", Dec(id)), Command.Retr(id));
      return Ok(Message(data));
    }

    method Top(id: U32, lines: U32) returns (r: Result<Message>)
      requires Valid()
      modifies this`log, transport`link, transport`buffer, transport`written, transport`closed
      ensures Valid()
      ensures var s := old(transport.link).server;
              Did(old(transport.link), transport.link, Guard(state, id == 0), Command.Top(id, lines), r,
                  MessageOf(ReplyTo(s, Command.Top(id, lines))))
      ensures LostBy(old(transport.link), r, old(transport.closed), transport.closed)
    {
      if !state.Authenticated? { return Err(NotAuthenticated); }
      if id == 0 { return Err(InvalidInput); }
      var data :- WithBody(Verb("TOP", Verb(Dec(id), Dec(lines))), Command.Top(id, lines));
      return Ok(Message(data));
    }

    method Dele(id: U32) returns (r: Result<()>)
      requires Valid()
      modifies this`log, transport`link, transport`buffer, transport`written, transport`closed
      ensures Valid()
      ensures var s := old(transport.link).server;
              Did(old(transport.link), transport.link, Guard(state, id == 0), Command.Dele(id), r,
                  AckOf(ReplyTo(s, Command.Dele(id))))
      ensures LostBy(old(transport.link), r, old(transport.closed), transport.closed)
    {
      if !state.Authenticated? { return Err(NotAuthenticated); }
      if id == 0 { return Err(InvalidInput); }
      var _ :- Simple(Verb("DELE", Dec(id)), Command.Dele(id));
      return Ok(());
    }

    method Rset() returns (r: Result<()>)
      requires Valid()
      modifies this`log, transport`link, transport`buffer, transport`written, transport`closed
      ensures Valid()
      ensures var s := old(transport.link).server;
              Did(old(transport.link), transport.link, Guard(state, false), Command.Rset, r,
                  AckOf(ReplyTo(s, Command.Rset)))
      ensures LostBy(old(transport.link), r, old(transport.closed), transport.closed)
    {
      if !state.Authenticated? { return Err(NotAuthenticated); }
      var _ :- Simple("RSET", Command.Rset);
      return Ok(());
    }

    method Noop() returns (r: Result<()>)
      requires Valid()
      modifies this`log, transport`link, transport`buffer, transport`written, transport`closed
      ensures Valid()
      ensures var s := old(transport.link).server;
              Did(old(transport.link), transport.link, Guard(state, false), Command.Noop, r,
                  AckOf(ReplyTo(s, Command.Noop)))
      ensures LostBy(old(transport.link), r, old(transport.closed), transport.closed)
    {
      if !state.Authenticated? { return Err(NotAuthenticated); }
      var _ :- Simple("NOOP", Command.Noop);
      return Ok(());
    }

    method Capa() returns (r: Result<seq<Capability>>)
      requires Valid()
      modifies this`log, transport`link, transport`buffer, transport`written, transport`closed
      ensures Valid()
      ensures var s := old(transport.link).server;
              Did(old(transport.link), transport.link, None, Command.Capa, r, CapsOf(s, ReplyTo(s, Command.Capa)))
      ensures LostBy(old(transport.link), r, old(transport.closed), transport.closed)
    {
      CapaAnswer(transport.link.server);
      var body :- WithBody("CAPA", Command.Capa);
      return Ok(ParseCapa(body));
    }

    /** USER, PASS, and a CAPA probe whose failure is swallowed. */
    method Login(username: string, password: string) returns (r: Result<()>)
      requires Valid()
      modifies this`state, this`isPipelining, this`log
      modifies transport`link, transport`buffer, transport`written, transport`closed
      ensures Valid()
      ensures LoginDid(old(transport.link), transport.link, LoginGuard(old(state), Clean(username) && Clean(password)),
                       old(state), state, [User(username), Pass(password)], r)
      ensures r.Ok? ==> Probed(After(old(transport.link).server, [User(username), Pass(password)]))
      ensures LoginGuard(old(state), Clean(username) && Clean(password)).None? ==>
        CameTo(FareThrough(old(transport.link), [User(username), Pass(password)]), r)
        && LoginLostBy(old(transport.link), [User(username), Pass(password)], r, old(transport.closed))
      ensures LoginGuard(old(state), Clean(username) && Clean(password)).Some? ==>
        transport.closed == old(transport.closed)
      ensures r.Err? ==> !r.error.ServerError?
    {
      if !state.Connected? { return Err(NotAuthenticated); }
      if !Clean(username) || !Clean(password) { return Err(InvalidInput); }
      r := Credentials(username, password);
      if r.Err? { return; }
      state := Authenticated;
      Probe();
    }

    /** After a login: the capability probe has been answered, and only its answer decides
        on pipelining; or the connection is broken. */
    ghost predicate Probed(s: Session)
      reads this, transport
    {
      (!Broken(transport.link) ==> transport.link.server == Next(s, Command.Capa))
      && isPipelining == (!Broken(transport.link) && Advertised(s))
    }

    /** The login has come to what was bound to come, and the probe with it. */
    ghost predicate CameTo(f: Fared, r: Result<()>)
      reads this, transport
    {
      FaredAs(f, r) && (f.Through? ==> AfterProbe(f.link, transport.link))
    }

    /** A lost login fails as its lost step does, and the closed flag is set exactly by a step
        or a probe that is lost to the end of the stream. */
    ghost predicate LoginLostBy(l0: Link, cs: seq<Command>, r: Result<()>, closed0: bool)
      reads transport
    {
      match FareThrough(l0, cs)
      case Through(l) => transport.closed <==> closed0 || (!Survives(l, Command.Capa) && MeetsEnd(l))
      case _ => LostBy(StopOf(l0, cs), r, closed0, transport.closed)
    }

    method Credentials(username: string, password: string) returns (r: Result<()>)
      requires Valid() && state.Connected? && Clean(username) && Clean(password)
      modifies this`log, transport`link, transport`buffer, transport`written, transport`closed
      ensures Sound() && (!Broken(transport.link) ==> transport.link.inbound == "")
      ensures LoginDid(old(transport.link), transport.link, None, state, if r.Ok? then Authenticated else state,
                       [User(username), Pass(password)], r)
      ensures r.Ok? ==> !Broken(transport.link) && Lawful(log, true) && transport.link.server.authed
      ensures r.Ok? ==> transport.link.server == After(old(transport.link).server, [User(username), Pass(password)])
      ensures FaredAs(FareThrough(old(transport.link), [User(username), Pass(password)]), r)
      ensures r.Ok? ==> FareThrough(old(transport.link), [User(username), Pass(password)]) == Through(transport.link)
      ensures LostBy(StopOf(old(transport.link), [User(username), Pass(password)]), r, old(transport.closed),
                     transport.closed)
      ensures r.Err? ==> !r.error.ServerError?
    {
      ghost var l0, a, b := transport.link, User(username), Pass(password);
      ghost var closed := transport.closed;
      r := Credential(Verb("USER", username), a);
      ghost var l1 := transport.link;
      if r.Err? {
        LoginFailsFirst(l0, l1, state, [a, b], r);
        FareStops(l0, l1, [a, b], r);
        return;
      }
      r := Credential(Verb("PASS", password), b);
      LoggedIn(log);
      LoginSecond(l0, l1, transport.link, state, a, b, r);
      FareSecond(l0, l1, transport.link, a, b, r);
      StopSecond(l0, l1, transport.link, a, b, r);
    }

    /** One step of authentication: `send_and_check`, with server errors promoted. */
    method Credential(cmd: string, ghost c: Command) returns (r: Result<()>)
      requires Valid() && state.Connected? && cmd == CommandLine(c) && Sendable(c) && (c.User? || LogsIn(c))
      modifies this`log, transport`link, transport`buffer, transport`written, transport`closed
      ensures log == old(log) + [old(Issued(c))]
      ensures Valid() && Stepped(old(transport.link), transport.link, c, r)
      ensures LostBy(old(transport.link), r, old(transport.closed), transport.closed)
    {
      ghost var l0, closed := transport.link, transport.closed;
      var a := Simple(cmd, c);
      r := if a.Err? then Err(Promote(a.error)) else Ok(());
      SteppedBy(l0, transport.link, c, a, r, closed, transport.closed);
    }

    /** Looks for PIPELINING among the capabilities; no answer counts as no. */
    method Probe()
      requires Valid() && state.Authenticated? && !Broken(transport.link)
      modifies this`isPipelining, this`log, transport`link, transport`buffer, transport`written, transport`closed
      ensures Valid()
      ensures Exchanged(old(transport.link), transport.link, Command.Capa, Broken(transport.link))
      ensures isPipelining == (!Broken(transport.link) && Advertised(old(transport.link).server))
      ensures transport.closed <==> old(transport.closed) || (Broken(transport.link) && MeetsEnd(old(transport.link)))
    {
      isPipelining := false;
      var caps := Capa();
      isPipelining := Pipelines(if caps.Ok? then caps.value else []);
    }

    method Apop(username: string, password: string, md5: string -> string) returns (r: Result<()>)
      requires Valid() && forall x :: Clean(md5(x))
      modifies this`state, this`isPipelining, this`log
      modifies transport`link, transport`buffer, transport`written, transport`closed
      ensures Valid()
      ensures ApopGuard(old(state), username, password, greeting).Some? ==>
        r == Err(ApopGuard(old(state), username, password, greeting).value)
        && transport.link == old(transport.link) && state == old(state) && transport.closed == old(transport.closed)
      ensures ApopGuard(old(state), username, password, greeting).None? ==>
        LoginDid(old(transport.link), transport.link, None, old(state), state,
                 [ApopCommand(username, password, greeting, md5)], r)
        && (r.Ok? ==> Probed(Next(old(transport.link).server, ApopCommand(username, password, greeting, md5))))
        && CameTo(FareThrough(old(transport.link), [ApopCommand(username, password, greeting, md5)]), r)
        && LoginLostBy(old(transport.link), [ApopCommand(username, password, greeting, md5)], r, old(transport.closed))
        && (r.Err? ==> !r.error.ServerError?)
    {
      if !state.Connected? { return Err(NotAuthenticated); }
      if !Clean(username) || !Clean(password) { return Err(InvalidInput); }
      var stamp := ExtractApopTimestamp(greeting);
      if stamp.None? { return Err(NO_TIMESTAMP); }
      r := Digest(Verb("APOP", Verb(username, md5(stamp.value + password))),
                  ApopCommand(username, password, greeting, md5));
    }

    method Digest(cmd: string, ghost c: Command) returns (r: Result<()>)
      requires Valid() && state.Connected? && cmd == CommandLine(c) && Sendable(c) && c.Apop?
      modifies this`state, this`isPipelining, this`log
      modifies transport`link, transport`buffer, transport`written, transport`closed
      ensures Valid()
      ensures LoginDid(old(transport.link), transport.link, None, old(state), state, [c], r)
      ensures r.Ok? ==> Probed(Next(old(transport.link).server, c))
      ensures CameTo(FareThrough(old(transport.link), [c]), r)
      ensures LoginLostBy(old(transport.link), [c], r, old(transport.closed)) && (r.Err? ==> !r.error.ServerError?)
    {
      r := Credential(cmd, c);
      LoginOnly(old(transport.link), transport.link, state, c, r);
      FareOnly(old(transport.link), transport.link, c, r);
      if r.Err? { return; }
      LoggedIn(log);
      state := Authenticated;
      Probe();
    }

    /** Upgrade to TLS; `handshake` is how the TLS layer fares. */
    method Stls(handshake: Result<()>) returns (r: Result<()>)
      requires Valid()
      modifies this`log, transport`link, transport`buffer, transport`written, transport`closed, transport`encrypted
      ensures Valid()
      ensures old(state).Authenticated? || old(transport.encrypted) ==>
        r.Err? && r.error.ServerError? && transport.link == old(transport.link) && log == old(log)
      ensures transport.encrypted == (old(transport.encrypted) || r.Ok?)
      ensures r.Ok? ==> handshake.Ok? && !Broken(transport.link) && Obeyed(old(transport.link).server, Command.Stls)
      ensures r.Ok? ==> transport.link.server == Next(old(transport.link).server, Command.Stls)
      ensures SameMail(old(transport.link).server, transport.link.server)
      ensures r.Ok? ==> transport.link.reliable == old(transport.link.reliable)
      ensures !old(state).Authenticated? && !old(transport.encrypted) ==>
        StlsDid(old(transport.link), transport.link, handshake, r)
      ensures if Survives(old(transport.link), Command.Stls) then transport.closed == old(transport.closed)
              else LostBy(old(transport.link), r, old(transport.closed), transport.closed)
    {
      if state.Authenticated? {
        return Err(ServerError("STLS not allowed after authentication (RFC 2595)"));
      }
      if transport.encrypted { return Err(ServerError("connection is already encrypted")); }
      ghost var l0 := transport.link;
      var a := Simple("STLS", Command.Stls);
      if a.Err? {
        r := Err(a.error);
        StlsRefused(l0, transport.link, handshake, a, r);
        return;
      }
      r := transport.UpgradeInPlace(handshake);
    }

    /** Ends the session; the client is not used afterwards. */
    method Quit() returns (r: Result<()>)
      requires Valid()
      modifies this`log, transport`link, transport`buffer, transport`written, transport`closed
      ensures Valid()
      ensures var s := old(transport.link).server;
              Did(old(transport.link), transport.link, None, Command.Quit, r, AckOf(ReplyTo(s, Command.Quit)))
      ensures r.Ok? ==> transport.closed
      ensures r.Err? ==> LostBy(old(transport.link), r, old(transport.closed), transport.closed)
    {
      var _ :- Simple("QUIT", Command.Quit);
      transport.SetClosed();
      return Ok(());
    }

    // ---- windowed batches ----

    ghost predicate Logged()
      reads this, transport
    {
      Lawful(log, true) && Traced(transport.written, log, transport.link.writeDead)
    }

    /** The first i commands of a window are in the write buffer. */
    ghost predicate Buffered(l0: Link, kind: Kind, chunk: seq<U32>, i: nat)
      reads this, transport
    {
      i <= |chunk| && Logged() && l0.server.authed
      && transport.buffer == Bytes(Commands(kind, chunk[..i]))
      && transport.link == l0.(writes := transport.link.writes)
      && (i > 0 ==> !transport.link.writeDead)
    }

    /** A write has failed after the server had taken d of the commands. */
    ghost predicate Severed(l0: Link, cs: seq<Command>, d: nat)
      reads this, transport
    {
      Logged() && Took(l0, transport.link, cs, d) && Tidy(transport.link)
      && transport.buffer == "" && transport.link.writeDead && !transport.link.reliable
    }

    /** Puts the i-th command of a window into the write buffer. */
    method Put(kind: Kind, ghost chunk: seq<U32>, id: U32, ghost i: nat, ghost l0: Link)
      returns (ok: bool, ghost d: nat)
      requires Tidy(l0) && i < |chunk| && id == chunk[i] && Buffered(l0, kind, chunk, i)
      modifies this`log, transport`link, transport`buffer, transport`written
      ensures if ok then Buffered(l0, kind, chunk, i + 1) else Severed(l0, Commands(kind, chunk), d)
    {
      ghost var e, w0 := Issue(CommandOf(kind, id), true, transport.encrypted, l0.server.authed), transport.written;
      d := WindowSevered(l0, transport.link, kind, chunk, i, transport.buffer);
      ok := transport.WriteAll(BatchLine(kind, id));
      IssueOne(log, e, true, w0, transport.written, l0.writeDead, transport.link.writeDead);
      log := log + [e];
    }

    /** Puts the commands of a window into the write buffer. */
    method Fill(kind: Kind, chunk: seq<U32>) returns (ok: bool, ghost d: nat)
      requires Tidy(transport.link) && transport.buffer == "" && chunk != [] && Logged()
      requires transport.link.server.authed
      modifies this`log, transport`link, transport`buffer, transport`written
      ensures if ok then Buffered(old(transport.link), kind, chunk, |chunk|)
              else Severed(old(transport.link), Commands(kind, chunk), d)
    {
      ghost var l0 := transport.link;
      d, ok := 0, true;
      for i := 0 to |chunk|
        invariant ok && Buffered(l0, kind, chunk, i)
      {
        ok, d := Put(kind, chunk, chunk[i], i, l0);
        if !ok { return; }
      }
    }

    /** The send phase of a window: all commands into the buffer, one flush. */
    method SendWindow(kind: Kind, chunk: seq<U32>) returns (r: Result<()>, ghost d: nat)
      requires Sound() && state.Authenticated? && chunk != []
      modifies this`log, transport`link, transport`buffer, transport`written
      ensures Sound()
      ensures WindowSent(old(transport.link), transport.link, Commands(kind, chunk), r, d)
    {
      ghost var l0, cs := transport.link, Commands(kind, chunk);
      var ok;
      ok, d := Fill(kind, chunk);
      r := Err(Io);
      if ok {
        assert chunk[..|chunk|] == chunk;
        ghost var l, buffer := transport.link, transport.buffer;
        ok := transport.Flush();
        if ok { r := Ok(()); }
        d := WindowFlushed(l0, l, transport.link, cs, buffer, r);
      }
      AfterKeepsAuth(l0.server, cs[..d]);
    }

    /** Reads one RETR reply: status line and body. `reply` is the answer that is due. */
    method ReadRetrResponse(ghost reply: Reply, ghost rest: string) returns (r: Result<Message>)
      requires Sound() && !reply.Plus?
      requires !transport.link.readDead ==> transport.link.inbound in {"", Render(reply) + rest}
      modifies transport`link, transport`closed
      ensures Sound() && ReplyRead(old(transport.link), transport.link, rest, r, MessageOf(reply))
      ensures transport.closed <==> old(transport.closed) || (IsLost(r) && transport.link.fault.ConnectionClosed?)
    {
      RenderSplits(reply, rest);
      var line :- transport.ReadLine();
      var _ :- ParseStatus(line);
      RoundTrip(reply.lines, rest);
      var data :- transport.ReadMultiline();
      return Ok(Message(data));
    }

    /** Reads one DELE reply. */
    method ReadDeleResponse(ghost reply: Reply, ghost rest: string) returns (r: Result<()>)
      requires Sound() && !reply.Data?
      requires !transport.link.readDead ==> transport.link.inbound in {"", Render(reply) + rest}
      modifies transport`link, transport`closed
      ensures Sound() && ReplyRead(old(transport.link), transport.link, rest, r, AckOf(reply))
      ensures transport.closed <==> old(transport.closed) || (IsLost(r) && transport.link.fault.ConnectionClosed?)
    {
      RenderSplits(reply, rest);
      assert "" + rest == rest;
      var line :- transport.ReadLine();
      var _ :- ParseStatus(line);
      return Ok(());
    }

    /** The receive phase of a window. */
    method DrainRetr(chunk: seq<U32>, ghost l0: Link, ghost m: nat) returns (rs: seq<Result<Message>>)
      requires Sound() && chunk != []
      requires Receiving<Message>(l0, transport.link, Commands(Retrieve, chunk), [], MessageOf, m)
      modifies transport`link, transport`closed
      ensures Sound() && WindowDone(l0, transport.link, Commands(Retrieve, chunk), rs, MessageOf, m)
      ensures WindowLost(old(transport.link), transport.link, |rs| < |chunk|, ConnectionClosed, old(transport.closed),
                         transport.closed) && !transport.link.writeDead
    {
      ghost var cs := Commands(Retrieve, chunk);
      rs := [];
      for j := 0 to |chunk|
        invariant Sound() && Receiving(l0, transport.link, cs, rs, MessageOf, m) && |rs| == j
        invariant transport.link.fault == old(transport.link).fault && transport.closed == old(transport.closed)
      {
        ghost var reply, rest := ReplyAt(l0.server, cs, j), OnTheWay(l0.server, cs, j + 1, m);
        ghost var l := transport.link;
        ReceiveOne(l0.server, cs, j, m);
        BatchReplyShape(l0.server, Retrieve, chunk, j);
        var r := ReadRetrResponse(reply, rest);
        Received(l0, l, transport.link, cs, rs, MessageOf, m, r);
        if IsLost(r) { return; }
        rs := rs + [r];
      }
      ReceivedAll(l0, transport.link, cs, rs, MessageOf, m);
    }

    /** One window of a pipelined batch: send, then drain as many replies. Fewer results
        than commands mean that the connection failed. */
    method RetrWindow(chunk: seq<U32>) returns (rs: seq<Result<Message>>, failure: Error, ghost m: nat)
      requires Valid() && state.Authenticated? && chunk != []
      modifies this`log, transport`link, transport`buffer, transport`written, transport`closed
      ensures Valid()
      ensures WindowDone(old(transport.link), transport.link, Commands(Retrieve, chunk), rs, MessageOf, m)
      ensures IsIo(failure)
      ensures WindowLost(old(transport.link), transport.link, |rs| < |chunk|, failure, old(transport.closed),
                         transport.closed)
    {
      rs, failure := [], Io;
      var sent;
      sent, m := SendWindow(Retrieve, chunk);
      StartReceiving<Message>(old(transport.link), transport.link, Commands(Retrieve, chunk), MessageOf, sent, m);
      if sent.Ok? {
        rs := DrainRetr(chunk, old(transport.link), m);
        failure := ConnectionClosed;
      }
    }

    /** The receive phase of a window. */
    method DrainDele(chunk: seq<U32>, ghost l0: Link, ghost m: nat) returns (rs: seq<Result<()>>)
      requires Sound() && chunk != []
      requires Receiving<()>(l0, transport.link, Commands(Delete, chunk), [], AckOf, m)
      modifies transport`link, transport`closed
      ensures Sound() && WindowDone(l0, transport.link, Commands(Delete, chunk), rs, AckOf, m)
      ensures WindowLost(old(transport.link), transport.link, |rs| < |chunk|, ConnectionClosed, old(transport.closed),
                         transport.closed) && !transport.link.writeDead
    {
      ghost var cs := Commands(Delete, chunk);
      rs := [];
      for j := 0 to |chunk|
        invariant Sound() && Receiving(l0, transport.link, cs, rs, AckOf, m) && |rs| == j
        invariant transport.link.fault == old(transport.link).fault && transport.closed == old(transport.closed)
      {
        ghost var reply, rest := ReplyAt(l0.server, cs, j), OnTheWay(l0.server, cs, j + 1, m);
        ghost var l := transport.link;
        ReceiveOne(l0.server, cs, j, m);
        BatchReplyShape(l0.server, Delete, chunk, j);
        var r := ReadDeleResponse(reply, rest);
        Received(l0, l, transport.link, cs, rs, AckOf, m, r);
        if IsLost(r) { return; }
        rs := rs + [r];
      }
      ReceivedAll(l0, transport.link, cs, rs, AckOf, m);
    }

    /** One window of a pipelined batch: send, then drain as many replies. Fewer results
        than commands mean that the connection failed. */
    method DeleWindow(chunk: seq<U32>) returns (rs: seq<Result<()>>, failure: Error, ghost m: nat)
      requires Valid() && state.Authenticated? && chunk != []
      modifies this`log, transport`link, transport`buffer, transport`written, transport`closed
      ensures Valid()
      ensures WindowDone(old(transport.link), transport.link, Commands(Delete, chunk), rs, AckOf, m)
      ensures IsIo(failure)
      ensures WindowLost(old(transport.link), transport.link, |rs| < |chunk|, failure, old(transport.closed),
                         transport.closed)
    {
      rs, failure := [], Io;
      var sent;
      sent, m := SendWindow(Delete, chunk);
      StartReceiving<()>(old(transport.link), transport.link, Commands(Delete, chunk), AckOf, sent, m);
      if sent.Ok? {
        rs := DrainDele(chunk, old(transport.link), m);
        failure := ConnectionClosed;
      }
    }

    /** Windows of PIPELINE_WINDOW commands; the first failure fills up the results. */
    method RetrManyPipelined(ids: seq<U32>) returns (rs: seq<Result<Message>>, ghost k: nat, ghost m: nat)
      requires Valid() && state.Authenticated? && ids != []
      modifies this`log, transport`link, transport`buffer, transport`written, transport`closed
      ensures Valid()
      ensures BatchDone(old(transport.link), transport.link, Commands(Retrieve, ids), rs, MessageOf, k, m)
      ensures LostItems(true, old(transport.link), transport.link, Commands(Retrieve, ids), rs, k, m,
                        old(transport.closed), transport.closed)
    {
      ghost var l0, cs := transport.link, Commands(Retrieve, ids);
      rs := [];
      AfterNothing(l0.server, cs);
      while |rs| < |ids|
        invariant Valid() && SoFar(l0, transport.link, cs, rs, MessageOf)
        invariant transport.link.fault == l0.fault && transport.closed == old(transport.closed)
      {
        var stop;
        ghost var p;
        rs, stop, p := RetrChunk(ids, rs, l0);
        if stop {
          k, m := p.k, p.m;
          return;
        }
      }
      k, m := |ids|, |ids|;
      AllSoFar(l0, transport.link, cs, rs, MessageOf);
    }

    /** The next window of a batch; on a failure the remaining results are filled up. */
    method RetrChunk(ids: seq<U32>, rs: seq<Result<Message>>, ghost l0: Link)
      returns (rs': seq<Result<Message>>, stop: bool, ghost p: Progress)
      requires Valid() && state.Authenticated? && |rs| < |ids|
      requires SoFar(l0, transport.link, Commands(Retrieve, ids), rs, MessageOf) && transport.link.fault == l0.fault
      modifies this`log, transport`link, transport`buffer, transport`written, transport`closed
      ensures Valid() && stop == p.Over?
      ensures ChunkDone(l0, transport.link, Commands(Retrieve, ids), rs', MessageOf, |rs|, p)
      ensures CutShort(l0, transport.link, rs', p, old(transport.closed), transport.closed)
    {
      ghost var l, closed := transport.link, transport.closed;
      var n := WindowSize(|ids|, |rs|);
      var chunk := ids[|rs|..|rs| + n];
      var ws, failure;
      ghost var m;
      ws, failure, m := RetrWindow(chunk);
      stop, rs' := |ws| < n, Extend(rs, ws, n, |ids|, failure);
      p := if stop then Over(|rs| + |ws|, |rs| + m) else Going;
      WindowNext(Retrieve, ids, chunk, n, l0, l, transport.link, rs, ws, rs', MessageOf, m, failure, p);
      WindowFills(l0, l, transport.link, rs, ws, n, |ids|, failure, rs', |rs| + m, p, closed, transport.closed);
    }

    /** The next command of a sequential batch. */
    method RetrInTurn(id: U32, rs: seq<Result<Message>>, ghost cs: seq<Command>, ghost l0: Link, ghost k: nat,
                      ghost m: nat, ghost closed0: bool)
      returns (rs': seq<Result<Message>>, ghost k': nat, ghost m': nat)
      requires Valid() && state.Authenticated? && |rs| < |cs| && cs[|rs|] == Command.Retr(id) && id != 0
      requires Sequential(l0, transport.link, cs, rs, MessageOf, k, m, closed0, transport.closed)
      modifies this`log, transport`link, transport`buffer, transport`written, transport`closed
      ensures Valid() && |rs'| == |rs| + 1
      ensures Sequential(l0, transport.link, cs, rs', MessageOf, k', m', closed0, transport.closed)
    {
      ghost var l, closed := transport.link, transport.closed;
      var r := Retr(id);
      rs' := rs + [r];
      k', m' := NextInTurn(l0, l, transport.link, cs, rs, MessageOf, k, m, r, rs', closed0, closed, transport.closed);
    }

    /** One command at a time, without a look at what went wrong before. */
    method RetrManySequential(ids: seq<U32>) returns (rs: seq<Result<Message>>, ghost k: nat, ghost m: nat)
      requires Valid() && state.Authenticated? && ids != [] && 0 !in ids
      modifies this`log, transport`link, transport`buffer, transport`written, transport`closed
      ensures Valid()
      ensures BatchDone(old(transport.link), transport.link, Commands(Retrieve, ids), rs, MessageOf, k, m)
      ensures LostItems(false, old(transport.link), transport.link, Commands(Retrieve, ids), rs, k, m,
                        old(transport.closed), transport.closed)
    {
      ghost var l0, closed0, cs := transport.link, transport.closed, Commands(Retrieve, ids);
      rs, k, m := [], 0, 0;
      SequentialStart(l0, cs, rs, MessageOf, closed0);
      for i := 0 to |ids|
        invariant Valid() && |rs| == i
        invariant Sequential(l0, transport.link, cs, rs, MessageOf, k, m, closed0, transport.closed)
      {
        rs, k, m := RetrInTurn(ids[i], rs, cs, l0, k, m, closed0);
      }
      SequentialEnd(l0, transport.link, cs, rs, MessageOf, k, m, closed0, transport.closed);
    }

    /** `validate_message_id` for all ids of a batch. */
    static method ValidateIds(ids: seq<U32>) returns (ok: bool)
      ensures ok <==> 0 !in ids
    {
      for i := 0 to |ids|
        invariant 0 !in ids[..i]
      {
        if ids[i] == 0 { return false; }
      }
      return true;
    }

    method RetrMany(ids: seq<U32>) returns (r: Result<seq<Result<Message>>>, ghost k: nat, ghost m: nat)
      requires Valid()
      modifies this`log, transport`link, transport`buffer, transport`written, transport`closed
      ensures Valid()
      ensures BatchGuard(state, ids).Some? ==>
        r == Err(BatchGuard(state, ids).value) && transport.link == old(transport.link)
      ensures BatchGuard(state, ids).None? ==>
        r.Ok? && ManyDone(old(transport.link), transport.link, Retrieve, ids, r.value, MessageOf, k, m)
      ensures isPipelining ==> m - k <= PIPELINE_WINDOW
      ensures BatchGuard(state, ids).Some? ==> transport.closed == old(transport.closed)
      ensures BatchGuard(state, ids).None? ==>
        LostItems(isPipelining, old(transport.link), transport.link, Commands(Retrieve, ids), r.value, k, m,
                  old(transport.closed), transport.closed)
    {
      k, m := 0, 0;
      if !state.Authenticated? { return Err(NotAuthenticated), k, m; }
      var valid := ValidateIds(ids);
      if !valid { return Err(InvalidInput), k, m; }
      if ids == [] { return Ok([]), k, m; }
      var rs;
      if isPipelining {
        rs, k, m := RetrManyPipelined(ids);
      } else {
        rs, k, m := RetrManySequential(ids);
      }
      r := Ok(rs);
    }

    /** Windows of PIPELINE_WINDOW commands; the first failure fills up the results. */
    method DeleManyPipelined(ids: seq<U32>) returns (rs: seq<Result<()>>, ghost k: nat, ghost m: nat)
      requires Valid() && state.Authenticated? && ids != []
      modifies this`log, transport`link, transport`buffer, transport`written, transport`closed
      ensures Valid()
      ensures BatchDone(old(transport.link), transport.link, Commands(Delete, ids), rs, AckOf, k, m)
      ensures LostItems(true, old(transport.link), transport.link, Commands(Delete, ids), rs, k, m,
                        old(transport.closed), transport.closed)
    {
      ghost var l0, cs := transport.link, Commands(Delete, ids);
      rs := [];
      AfterNothing(l0.server, cs);
      while |rs| < |ids|
        invariant Valid() && SoFar(l0, transport.link, cs, rs, AckOf)
        invariant transport.link.fault == l0.fault && transport.closed == old(transport.closed)
      {
        var stop;
        ghost var p;
        rs, stop, p := DeleChunk(ids, rs, l0);
        if stop {
          k, m := p.k, p.m;
          return;
        }
      }
      k, m := |ids|, |ids|;
      AllSoFar(l0, transport.link, cs, rs, AckOf);
    }

    /** The next window of a batch; on a failure the remaining results are filled up. */
    method DeleChunk(ids: seq<U32>, rs: seq<Result<()>>, ghost l0: Link)
      returns (rs': seq<Result<()>>, stop: bool, ghost p: Progress)
      requires Valid() && state.Authenticated? && |rs| < |ids|
      requires SoFar(l0, transport.link, Commands(Delete, ids), rs, AckOf) && transport.link.fault == l0.fault
      modifies this`log, transport`link, transport`buffer, transport`written, transport`closed
      ensures Valid() && stop == p.Over?
      ensures ChunkDone(l0, transport.link, Commands(Delete, ids), rs', AckOf, |rs|, p)
      ensures CutShort(l0, transport.link, rs', p, old(transport.closed), transport.closed)
    {
      ghost var l, closed := transport.link, transport.closed;
      var n := WindowSize(|ids|, |rs|);
      var chunk := ids[|rs|..|rs| + n];
      var ws, failure;
      ghost var m;
      ws, failure, m := DeleWindow(chunk);
      stop, rs' := |ws| < n, Extend(rs, ws, n, |ids|, failure);
      p := if stop then Over(|rs| + |ws|, |rs| + m) else Going;
      WindowNext(Delete, ids, chunk, n, l0, l, transport.link, rs, ws, rs', AckOf, m, failure, p);
      WindowFills(l0, l, transport.link, rs, ws, n, |ids|, failure, rs', |rs| + m, p, closed, transport.closed);
    }

    /** The next command of a sequential batch. */
    method DeleInTurn(id: U32, rs: seq<Result<()>>, ghost cs: seq<Command>, ghost l0: Link, ghost k: nat,
                      ghost m: nat, ghost closed0: bool)
      returns (rs': seq<Result<()>>, ghost k': nat, ghost m': nat)
      requires Valid() && state.Authenticated? && |rs| < |cs| && cs[|rs|] == Command.Dele(id) && id != 0
      requires Sequential(l0, transport.link, cs, rs, AckOf, k, m, closed0, transport.closed)
      modifies this`log, transport`link, transport`buffer, transport`written, transport`closed
      ensures Valid() && |rs'| == |rs| + 1
      ensures Sequential(l0, transport.link, cs, rs', AckOf, k', m', closed0, transport.closed)
    {
      ghost var l, closed := transport.link, transport.closed;
      var r := Dele(id);
      rs' := rs + [r];
      k', m' := NextInTurn(l0, l, transport.link, cs, rs, AckOf, k, m, r, rs', closed0, closed, transport.closed);
    }

    /** One command at a time, without a look at what went wrong before. */
    method DeleManySequential(ids: seq<U32>) returns (rs: seq<Result<()>>, ghost k: nat, ghost m: nat)
      requires Valid() && state.Authenticated? && ids != [] && 0 !in ids
      modifies this`log, transport`link, transport`buffer, transport`written, transport`closed
      ensures Valid()
      ensures BatchDone(old(transport.link), transport.link, Commands(Delete, ids), rs, AckOf, k, m)
      ensures LostItems(false, old(transport.link), transport.link, Commands(Delete, ids), rs, k, m,
                        old(transport.closed), transport.closed)
    {
      ghost var l0, closed0, cs := transport.link, transport.closed, Commands(Delete, ids);
      rs, k, m := [], 0, 0;
      SequentialStart(l0, cs, rs, AckOf, closed0);
      for i := 0 to |ids|
        invariant Valid() && |rs| == i
        invariant Sequential(l0, transport.link, cs, rs, AckOf, k, m, closed0, transport.closed)
      {
        rs, k, m := DeleInTurn(ids[i], rs, cs, l0, k, m, closed0);
      }
      SequentialEnd(l0, transport.link, cs, rs, AckOf, k, m, closed0, transport.closed);
    }

    method DeleMany(ids: seq<U32>) returns (r: Result<seq<Result<()>>>, ghost k: nat, ghost m: nat)
      requires Valid()
      modifies this`log, transport`link, transport`buffer, transport`written, transport`closed
      ensures Valid()
      ensures BatchGuard(state, ids).Some? ==>
        r == Err(BatchGuard(state, ids).value) && transport.link == old(transport.link)
      ensures BatchGuard(state, ids).None? ==>
        r.Ok? && ManyDone(old(transport.link), transport.link, Delete, ids, r.value, AckOf, k, m)
      ensures isPipelining ==> m - k <= PIPELINE_WINDOW
      ensures BatchGuard(state, ids).Some? ==> transport.closed == old(transport.closed)
      ensures BatchGuard(state, ids).None? ==>
        LostItems(isPipelining, old(transport.link), transport.link, Commands(Delete, ids), r.value, k, m,
                  old(transport.closed), transport.closed)
    {
      k, m := 0, 0;
      if !state.Authenticated? { return Err(NotAuthenticated), k, m; }
      var valid := ValidateIds(ids);
      if !valid { return Err(InvalidInput), k, m; }
      if ids == [] { return Ok([]), k, m; }
      var rs;
      if isPipelining {
        rs, k, m := DeleManyPipelined(ids);
      } else {
        rs, k, m := DeleManySequential(ids);
      }
      r := Ok(rs);
    }

    // ---- incremental sync ----

    method UnseenUids(seen: set<string>) returns (r: Result<seq<UidlEntry>>)
      requires Valid()
      modifies this`log, transport`link, transport`buffer, transport`written, transport`closed
      ensures Valid()
      ensures var s := old(transport.link).server;
              Did(old(transport.link), transport.link, Guard(state, false), Uidl, r, UnseenOf(s, seen))
      ensures LostBy(old(transport.link), r, old(transport.closed), transport.closed)
      ensures r.Ok? ==> AllNew(old(transport.link).server, seen, r.value)
    {
      UnseenIsAllNew(transport.link.server, seen);
      var all :- UidlAll();
      return Ok(Unseen(all, seen));
    }

    /** Retrieves what UIDL lists and `seen` does not contain; the first failure ends it. */
    method FetchUnseen(seen: set<string>) returns (r: Result<seq<(UidlEntry, Message)>>)
      requires Valid()
      modifies this`log, transport`link, transport`buffer, transport`written, transport`closed
      ensures Valid() && (!state.Authenticated? ==> r == Err(NotAuthenticated))
      ensures r.Err? && r.error.NotAuthenticated? ==> !state.Authenticated?
      ensures ReadOnly(old(transport.link), transport.link, r)
      ensures r.Ok? ==> Fetched(old(transport.link).server, seen, r.value)
      ensures r.Ok? ==> AllNew(old(transport.link).server, seen, Firsts(r.value))
      ensures LostBy(StopOf(old(transport.link), FetchCommands(old(transport.link).server, seen)), r,
                     old(transport.closed), transport.closed)
      ensures state.Authenticated? ==> (IsLost(r) <==> !FetchLasts(old(transport.link), seen))
      ensures state.Authenticated? && !IsLost(r) ==> Failure(r) == FetchVerdict(old(transport.link).server, seen)
    {
      ghost var s := transport.link.server;
      UnseenListed(s, seen);
      FetchStopsBehind(transport.link, seen);
      var news :- UnseenUids(seen);
      r := FetchEach(news, s);
      if r.Ok? { FetchedAllNew(s, seen, r.value); }
    }

    method FetchEach(news: seq<UidlEntry>, ghost s: Session) returns (r: Result<seq<(UidlEntry, Message)>>)
      requires Valid() && state.Authenticated? && !Broken(transport.link) && SameMail(s, transport.link.server)
      requires Listed(s, news)
      modifies this`log, transport`link, transport`buffer, transport`written, transport`closed
      ensures Valid() && !(r.Err? && r.error.NotAuthenticated?)
      ensures FetchEnd(old(transport.link), transport.link, s, news, r)
      ensures LostBy(StopOf(old(transport.link), Commands(Retrieve, Numbers(news))), r, old(transport.closed),
                     transport.closed)
    {
      ghost var l0 := transport.link;
      var results := [];
      AfterNothing(l0.server, Commands(Retrieve, Numbers(news)));
      for i := 0 to |news|
        invariant Valid() && |results| == i && Fetching(l0, transport.link, s, news, results)
        invariant transport.closed == old(transport.closed)
      {
        ghost var l, before := transport.link, results;
        var msg := RetrListed(news[i], s);
        if msg.Err? {
          r := Err(msg.error);
          FetchStops(l0, l, transport.link, s, news, before, msg, r);
          return;
        }
        results := results + [(news[i], msg.value)];
        FetchStep(l0, l, transport.link, s, news, before, msg, results);
      }
      r := Ok(results);
      FetchIsOver(l0, transport.link, s, news, results, r);
    }

    method RetrListed(entry: UidlEntry, ghost s: Session) returns (r: Result<Message>)
      requires Valid() && state.Authenticated? && !Broken(transport.link) && SameMail(s, transport.link.server)
      requires entry in Entries(s) && IdInRange(entry)
      modifies this`log, transport`link, transport`buffer, transport`written, transport`closed
      ensures Valid() && !(r.Err? && r.error.NotAuthenticated?)
      ensures FetchedOne(old(transport.link), transport.link, s, entry, r)
      ensures LostBy(old(transport.link), r, old(transport.closed), transport.closed)
    {
      EntryIsLive(s, entry);
      RetrContent(transport.link.server, entry.messageId);
      r := Retr(entry.messageId);
    }

    /** Drops from `seen` the UIDs that the server does not list any more. */
    method PruneSeen(seen: SeenSet) returns (r: Result<seq<string>>)
      requires Valid()
      modifies this`log, transport`link, transport`buffer, transport`written, transport`closed, seen
      ensures Valid() && (!state.Authenticated? ==> r == Err(NotAuthenticated))
      ensures r.Err? && r.error.NotAuthenticated? ==> !state.Authenticated?
      ensures ReadOnly(old(transport.link), transport.link, r)
      ensures r.Err? ==> seen.uids == old(seen.uids)
      ensures r.Ok? ==> Pruned(old(seen.uids), seen.uids, ListedUids(old(transport.link).server), r.value)
      ensures state.Authenticated? ==> (IsLost(r) <==> !Survives(old(transport.link), Uidl))
      ensures var s := old(transport.link.server);
              state.Authenticated? && !IsLost(r) ==> Failure(r) == Failure(UidsOf(ReplyTo(s, Uidl), Entries(s)))
      ensures r.Ok? ==> transport.link == Worn(old(transport.link), Uidl)
      ensures LostBy(old(transport.link), r, old(transport.closed), transport.closed)
    {
      var entries :- UidlAll();
      var listed := set e | e in entries :: e.uniqueId;
      var pruned := seen.Retain(listed);
      return Ok(pruned);
    }
  }

  /** The caller's set of UIDs it has already processed. */
  class SeenSet {
    var uids: set<string>

    constructor (uids: set<string>)
      ensures this.uids == uids
    {
      this.uids := uids;
    }

    /** `HashSet::retain` with the dropped elements collected, in whatever order. */
    method Retain(keep: set<string>) returns (dropped: seq<string>)
      modifies this
      ensures Pruned(old(uids), uids, keep, dropped)
    {
      var rest := uids;
      dropped := [];
      while rest != {}
        invariant rest <= old(uids)
        invariant uids == old(uids) - Range(dropped)
        invariant Range(dropped) == old(uids) - rest - keep
        invariant NoRepeats(dropped)
        decreases |rest|
      {
        var uid :| uid in rest;
        RangeSnoc(dropped, uid);
        assert uid !in Range(dropped);
        rest := rest - {uid};
        if uid !in keep {
          dropped := dropped + [uid];
          uids := uids - {uid};
        }
      }
    }
  }
}
