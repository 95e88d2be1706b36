/** Opening connections: the network, the greeting, TLS modes and auto-authentication. */
module Builder {
  import opened Basics
  import opened Strings
  import opened Wire
  import opened Response
  import opened Server
  import opened Connection
  import opened Meaning
  import opened Exchange
  import opened Client
  import Net = Transport

  datatype TlsMode = Plain | Tls | StartTls

  datatype AuthMode = NoAuth | Login(user: string, word: string) | Apop(user: string, word: string)

  datatype Pop3ClientBuilder = Pop3ClientBuilder(tls: TlsMode, auth: AuthMode)

  datatype Greeting = Hello(text: StatusText) | Busy(why: Refusal)

  /** What can go wrong below the protocol while connecting. */
  type NetError = e: Error | e.Io? || e.Tls? || e.InvalidDnsName? || e.Timeout? witness Io

  /** What one attempt to connect meets: an error of the network or the TLS layer, or a
      server with the mailbox as it is at that moment. */
  datatype Dial =
    | Unreachable(error: NetError)
    | Reached(box: seq<Msg>, caps: seq<Announced>, script: seq<Mood>, greeting: Greeting, handshake: Option<NetError>,
              reliable: bool, writes: nat, reach: nat, lines: nat, fault: Fault)

  function GreetingReply(g: Greeting): Reply {
    match g case Hello(text) => Plus(text) case Busy(why) => Minus(why)
  }

  /** A new session has no marks: those of earlier sessions are gone. */
  function Open(d: Dial): Link
    requires d.Reached?
  {
    Link(Session(d.box, {}, false, false, false, d.caps, d.script), "", Render(GreetingReply(d.greeting)),
         d.reliable, d.writes, d.reach, d.lines, d.fault, false, false, false)
  }

  /** Every message carries the content that belongs to its UID. */
  predicate Genuine(box: seq<Msg>, mail: string -> seq<string>) {
    forall i :: 0 <= i < |box| ==> box[i].lines == mail(box[i].uid)
  }

  /** All attempts to come. Mailboxes may differ from attempt to attempt in every respect
      but one: a UID stays with its message. */
  class Network {
    var dials: seq<Dial>
    ghost const mail: string -> seq<string>

    constructor (dials: seq<Dial>, ghost mail: string -> seq<string>)
      requires forall i :: 0 <= i < |dials| && dials[i].Reached? ==> Genuine(dials[i].box, mail)
      ensures Valid() && this.dials == dials && this.mail == mail
    {
      this.dials, this.mail := dials, mail;
    }

    ghost predicate Valid()
      reads this
    {
      forall i :: 0 <= i < |dials| && dials[i].Reached? ==> Genuine(dials[i].box, mail)
    }

    method Attempt() returns (d: Dial)
      requires Valid()
      modifies this
      ensures Valid()
      ensures d == DialAt(old(dials), 0) && dials == Drop(old(dials), 1)
      ensures d.Reached? ==> Genuine(d.box, mail)
    {
      if dials == [] { return Unreachable(Io); }
      d := dials[0];
      dials := dials[1..];
    }
  }

  lemma GreetingLine(g: Greeting)
    ensures var t := TakeLine(Render(GreetingReply(g)));
            t.Some? && t.value.1 == "" && ParseStatus(t.value.0) == if g.Hello? then Ok(g.text) else Err(ErrorOf(g.why))
    ensures g.Busy? ==> !IsIo(ErrorOf(g.why))
  {
    var reply := GreetingReply(g);
    RenderSplits(reply, "");
    assert Render(reply) + "" == Render(reply) && BodyOf(reply) + "" == "";
  }

  /** What the server has to say until the client is logged in: greeting, STLS, USER, PASS. */
  function Preamble(d: Dial, tls: TlsMode): seq<Reply>
    requires d.Reached?
  {
    [GreetingReply(d.greeting)] + if tls.StartTls? then [ReplyTo(Open(d).server, Command.Stls)] else []
  }

  function Upgraded(d: Dial, tls: TlsMode): Session
    requires d.Reached?
  {
    if tls.StartTls? then Next(Open(d).server, Command.Stls) else Open(d).server
  }

  function Dialogue(d: Dial, tls: TlsMode, user: string, word: string): seq<Reply>
    requires d.Reached?
  {
    Preamble(d, tls) + Replies(Upgraded(d, tls), [User(user), Pass(word)])
  }

  /** The server turned the client down for a reason that may pass. */
  predicate SaidSysTemp(rs: seq<Reply>) { FirstRefusal(rs).Some? && FirstRefusal(rs).value.code.SysTempCode? }

  /** Nothing but a refusal can make an attempt on this server fail. */
  predicate Dependable(d: Dial, tls: TlsMode) {
    d.Reached? && d.reliable && (tls.StartTls? ==> d.handshake.None?)
  }

  lemma {:induction false} FirstRefusalAppend(a: seq<Reply>, b: seq<Reply>)
    ensures FirstRefusal(a + b) == if FirstRefusal(a).Some? then FirstRefusal(a) else FirstRefusal(b)
  {
    if a == [] {
      assert a + b == b;
    } else {
      assert (a + b)[1..] == a[1..] + b;
      FirstRefusalAppend(a[1..], b);
    }
  }

  lemma FirstOfTwo(s: Session, a: Command, b: Command)
    ensures var f := FirstRefusal(Replies(s, [a, b]));
            f == (if ReplyTo(s, a).Minus? then Some(ReplyTo(s, a).why)
                  else if ReplyTo(Next(s, a), b).Minus? then Some(ReplyTo(Next(s, a), b).why) else None)
  {
    var s1 := Next(s, a);
    assert [a, b][1..] == [b] && [b][1..] == [];
    RefusalCons(ReplyTo(s1, b), []);
    RefusalCons(ReplyTo(s, a), Replies(s1, [b]));
    assert Replies(s, [a, b]) == [ReplyTo(s, a)] + Replies(s1, [a, b][1..]);
    assert Replies(s1, [b]) == [ReplyTo(s1, b)] + Replies(Next(s1, b), [b][1..]);
  }

  lemma RefusalCons(r: Reply, rs: seq<Reply>)
    ensures FirstRefusal([r] + rs) == if r.Minus? then Some(r.why) else FirstRefusal(rs)
  {
    assert ([r] + rs)[1..] == rs;
  }

  lemma PreambleVerdict(d: Dial, tls: TlsMode)
    requires d.Reached?
    ensures var stls := ReplyTo(Open(d).server, Command.Stls);
            FirstRefusal(Preamble(d, tls)) ==
              (if d.greeting.Busy? then Some(d.greeting.why)
               else if tls.StartTls? && stls.Minus? then Some(stls.why) else None)
  {
    var stls := ReplyTo(Open(d).server, Command.Stls);
    RefusalCons(stls, []);
    assert [stls] + [] == [stls];
    RefusalCons(GreetingReply(d.greeting), if tls.StartTls? then [stls] else []);
  }

  lemma LoginVerdict(s: Session, a: Command, b: Command)
    ensures Accepted(s, [a, b]) <==> FirstRefusal(Replies(s, [a, b])) == None
    ensures forall e :: Rejected(s, [a, b], e) ==>
      FirstRefusal(Replies(s, [a, b])).Some? && e == Denial(FirstRefusal(Replies(s, [a, b])).value)
  {
    var cs := [a, b];
    RunOfTwo(s, a, b);
    FirstOfTwo(s, a, b);
    forall e | Rejected(s, cs, e)
      ensures FirstRefusal(Replies(s, cs)).Some? && e == Denial(FirstRefusal(Replies(s, cs)).value)
    {
      var i :| RejectedAt(s, cs, i, e);
      if i == 1 { assert ReplyAt(s, cs[..1], 0) == ReplyTo(s, a) by { assert [a][0] == a; } }
    }
  }

  // ---- how connecting fares, as a function of the dial ----

  /** The greeting line gets to the client. */
  predicate Heard(d: Dial)
    requires d.Reached?
  {
    d.reliable || d.lines > 0
  }

  function Greeted(d: Dial): Link
    requires d.Reached?
  {
    Open(d).(inbound := "", lines := Less(d.lines, 1))
  }

  function FareGreeting(d: Dial): Fared
    requires d.Reached?
  {
    if !Heard(d) then ForNow else if d.greeting.Busy? then Refused(d.greeting.why) else Through(Greeted(d))
  }

  function FareUpgrade(l: Link, handshake: Option<NetError>): Fared {
    if !Survives(l, Command.Stls) then ForNow
    else if ReplyTo(l.server, Command.Stls).Minus? then Refused(ReplyTo(l.server, Command.Stls).why)
    else match handshake
      case Some(e) => if IsRetryable(e) then ForNow else ForGood
      case None => Through(Worn(l, Command.Stls))
  }

  function FareOpen(d: Dial, tls: TlsMode): Fared
    requires d.Reached?
  {
    match FareGreeting(d)
    case Through(l) => if tls.StartTls? then FareUpgrade(l, d.handshake) else Through(l)
    case f => f
  }

  function HandshakeResult(e: Option<NetError>): Result<()> {
    match e case Some(error) => Err(error) case None => Ok(())
  }

  lemma UpgradeFared(l: Link, l1: Link, handshake: Option<NetError>, r: Result<()>)
    requires StlsDid(l, l1, HandshakeResult(handshake), r)
    ensures FaredAs(FareUpgrade(l, handshake), r) && (r.Ok? ==> FareUpgrade(l, handshake) == Through(l1))
  {
    if r.Err? { RefusedError(ReplyTo(l.server, Command.Stls), r.error); }
  }

  /** `Pop3Client::connect` once the stream is there: read and check the greeting. */
  method Greet(d: Dial, encrypted: bool) returns (r: Result<Pop3Client>)
    requires d.Reached?
    ensures r.Ok? ==> fresh(r.value) && fresh(r.value.transport) && r.value.Valid()
    ensures r.Ok? ==> r.value.state.Connected? && !r.value.isPipelining && d.greeting.Hello?
    ensures r.Ok? ==> r.value.greeting == d.greeting.text && !r.value.transport.closed
    ensures r.Ok? ==> r.value.transport.link.server == Open(d).server && r.value.transport.encrypted == encrypted
    ensures r.Ok? ==> r.value.transport.link.reliable == d.reliable && !Broken(r.value.transport.link)
    ensures r.Err? && !IsLost(r) ==> d.greeting.Busy? && r.error == ErrorOf(d.greeting.why)
    ensures d.reliable ==> !IsLost(r)
    ensures FaredAs(FareGreeting(d), r) && (r.Ok? ==> FareGreeting(d) == Through(r.value.transport.link))
  {
    var t := new Net.Transport(Open(d), encrypted);
    GreetingLine(d.greeting);
    var line := t.ReadLine();
    if line.Err? { return Err(line.error); }
    var text := ParseStatus(line.value);
    if text.Err? {
      RefusedError(GreetingReply(d.greeting), text.error);
      return Err(text.error);
    }
    var c := new Pop3Client(t, text.value);
    return Ok(c);
  }

  /** A session that no one has marked anything in yet. */
  predicate Untouched(s: Session) { s.marked == {} && !s.ended }

  /** How connecting fares before any login. */
  predicate Opened(d: Dial, tls: TlsMode, failure: Option<Error>) {
    d.Reached?
    && (failure.None? ==> FirstRefusal(Preamble(d, tls)) == None)
    && (failure.Some? && !IsIo(failure.value) ==>
          if FirstRefusal(Preamble(d, tls)).Some? then failure == Some(ErrorOf(FirstRefusal(Preamble(d, tls)).value))
          else tls.StartTls? && failure == d.handshake)
    && (Dependable(d, tls) ==>
          (failure.None? <==> FirstRefusal(Preamble(d, tls)) == None) && (failure.Some? ==> !IsIo(failure.value)))
  }

  /** The greeting as read decides, unless STLS is to follow. */
  lemma GreetingOpened(d: Dial, tls: TlsMode, failure: Option<Error>)
    requires d.Reached? && (failure.None? ==> d.greeting.Hello? && !tls.StartTls?)
    requires failure.Some? && !IsIo(failure.value) ==> d.greeting.Busy? && failure.value == ErrorOf(d.greeting.why)
    requires d.reliable && failure.Some? ==> !IsIo(failure.value)
    ensures Opened(d, tls, failure)
  {
    PreambleVerdict(d, tls);
  }

  lemma UpgradeOpened(d: Dial, l: Link, l1: Link, r: Result<()>)
    requires d.Reached? && d.greeting.Hello? && StlsDid(l, l1, HandshakeResult(d.handshake), r)
    requires l.server == Open(d).server && l.reliable == d.reliable && !Broken(l)
    ensures Opened(d, StartTls, Failure(r))
  {
    PreambleVerdict(d, StartTls);
  }

  /** The client keeps the text of the greeting, for APOP, and runs over TLS exactly if it was
      to, from the start or after STLS. */
  ghost predicate Equipped(c: Pop3Client, d: Dial, tls: TlsMode)
    reads c.transport
  {
    d.Reached? && d.greeting.Hello? && c.greeting == d.greeting.text == GreetingText(d)
    && (c.transport.encrypted <==> tls.Tls? || tls.StartTls?) && !c.transport.closed
  }

  /** Connect and, for STARTTLS, upgrade. */
  method OpenClient(d: Dial, tls: TlsMode) returns (r: Result<Pop3Client>)
    requires d.Reached?
    ensures r.Ok? ==> fresh(r.value) && fresh(r.value.transport) && r.value.Valid() && r.value.state.Connected?
    ensures r.Ok? ==> r.value.transport.link.server == Upgraded(d, tls) && !Broken(r.value.transport.link)
    ensures r.Ok? ==> r.value.transport.link.reliable == d.reliable
    ensures r.Ok? ==> Equipped(r.value, d, tls)
    ensures Opened(d, tls, Failure(r))
    ensures FaredAs(FareOpen(d, tls), r) && (r.Ok? ==> FareOpen(d, tls) == Through(r.value.transport.link))
  {
    r := Greet(d, tls.Tls?);
    if r.Err? || !tls.StartTls? {
      GreetingOpened(d, tls, Failure(r));
      return;
    }
    ghost var l := r.value.transport.link;
    var upgraded := r.value.Stls(HandshakeResult(d.handshake));
    UpgradeFared(l, r.value.transport.link, d.handshake, upgraded);
    UpgradeOpened(d, l, r.value.transport.link, upgraded);
    if upgraded.Err? { r := Err(upgraded.error); }
  }

  /** The attempt number n that is still to come. */
  function DialAt(dials: seq<Dial>, n: nat): Dial { if n < |dials| then dials[n] else Unreachable(Io) }

  function Drop(dials: seq<Dial>, n: nat): seq<Dial> { if n <= |dials| then dials[n..] else [] }

  lemma UpgradedMail(d: Dial, tls: TlsMode)
    requires d.Reached?
    ensures Untouched(Upgraded(d, tls)) && Upgraded(d, tls).box == d.box
  {}

  function FareDial(d: Dial, tls: TlsMode): Fared {
    match d
    case Unreachable(error) => if IsRetryable(error) then ForNow else ForGood
    case _ => FareOpen(d, tls)
  }

  predicate Dialled(d: Dial, tls: TlsMode, failure: Option<Error>) {
    match d
    case Unreachable(error) => failure == Some(error)
    case _ => Opened(d, tls, failure)
  }

  /** The link of a client that is connected and not logged in. */
  predicate Ready(d: Dial, tls: TlsMode, l: Link) {
    d.Reached? && l.server == Upgraded(d, tls) && !Broken(l) && l.reliable == d.reliable
  }

  /** `Pop3ClientBuilder::connect`. */
  method Connect(b: Pop3ClientBuilder, net: Network, md5: string -> string) returns (r: Result<Pop3Client>)
    requires net.Valid() && forall x :: Clean(md5(x))
    modifies net
    ensures net.Valid()
    ensures net.dials == Drop(old(net.dials), 1)
    ensures r.Ok? ==> fresh(r.value) && fresh(r.value.transport) && r.value.Valid()
    ensures r.Ok? ==> r.value.state == (if b.auth.NoAuth? then Connected else Authenticated)
    ensures r.Ok? ==> Untouched(r.value.transport.link.server) && Genuine(r.value.transport.link.server.box, net.mail)
    ensures b.auth.NoAuth? ==> Dialled(DialAt(old(net.dials), 0), b.tls, Failure(r))
    ensures r.Ok? && b.auth.NoAuth? ==>
      Ready(DialAt(old(net.dials), 0), b.tls, r.value.transport.link)
    ensures b.auth.NoAuth? ==> FaredAs(FareDial(DialAt(old(net.dials), 0), b.tls), r)
    ensures b.auth.NoAuth? && r.Ok? ==>
      FareDial(DialAt(old(net.dials), 0), b.tls) == Through(r.value.transport.link)
    ensures b.auth.NoAuth? && r.Ok? ==> Equipped(r.value, DialAt(old(net.dials), 0), b.tls)
    ensures !b.auth.NoAuth? ==> FaredAs(FareAuth(DialAt(old(net.dials), 0), b, md5), r)
    ensures !b.auth.NoAuth? && r.Ok? ==> Boarded(FareAuth(DialAt(old(net.dials), 0), b, md5), r.value.transport.link)
  {
    var d := net.Attempt();
    if d.Unreachable? { return Err(d.error); }
    UpgradedMail(d, b.tls);
    if b.auth.NoAuth? { r := OpenClient(d, b.tls); } else { r := OpenAndAuthenticate(d, b, md5); }
  }

  method OpenAndAuthenticate(d: Dial, b: Pop3ClientBuilder, md5: string -> string) returns (r: Result<Pop3Client>)
    requires d.Reached? && !b.auth.NoAuth? && forall x :: Clean(md5(x))
    ensures r.Ok? ==> fresh(r.value) && fresh(r.value.transport) && r.value.Valid() && r.value.state.Authenticated?
    ensures r.Ok? ==> SameMail(Upgraded(d, b.tls), r.value.transport.link.server)
    ensures FaredAs(FareAuth(d, b, md5), r)
    ensures r.Ok? ==> Boarded(FareAuth(d, b, md5), r.value.transport.link)
  {
    r := OpenClient(d, b.tls);
    if r.Ok? {
      var authenticated := Authenticate(r.value, b.auth, md5);
      if authenticated.Err? { r := Err(authenticated.error); }
    }
  }

  /** The link of a client that has got through. */
  predicate Boarded(f: Fared, l: Link) { f.Through? && AfterProbe(f.link, l) }

  function GreetingText(d: Dial): string { if d.Reached? && d.greeting.Hello? then d.greeting.text else "" }

  /** How the auto-authentication is turned down before anything is sent. */
  function AuthGuard(auth: AuthMode, greeting: string): Option<Error>
    requires !auth.NoAuth?
  {
    if auth.Login? then LoginGuard(Connected, Clean(auth.user) && Clean(auth.word))
    else ApopGuard(Connected, auth.user, auth.word, greeting)
  }

  /** With a user name and a password: USER and PASS; with APOP: the one command for the
      timestamp of the greeting. */
  function AuthCommands(auth: AuthMode, greeting: string, md5: string -> string): seq<Command>
    requires !auth.NoAuth?
  {
    if auth.Login? then [User(auth.user), Pass(auth.word)]
    else [ApopCommand(auth.user, auth.word, greeting, md5)]
  }

  /** How connecting with auto-authentication fares. */
  function FareAuth(d: Dial, b: Pop3ClientBuilder, md5: string -> string): Fared
    requires !b.auth.NoAuth?
  {
    match FareDial(d, b.tls)
    case Through(l) =>
      if AuthGuard(b.auth, GreetingText(d)).Some? then ForGood
      else FareThrough(l, AuthCommands(b.auth, GreetingText(d), md5))
    case f => f
  }

  /** The auto-authentication of the builder. */
  method Authenticate(c: Pop3Client, auth: AuthMode, md5: string -> string) returns (r: Result<()>)
    requires c.Valid() && c.state.Connected? && !auth.NoAuth? && forall x :: Clean(md5(x))
    modifies c, c.transport
    ensures c.Valid() && (r.Ok? ==> c.state.Authenticated?)
    ensures SameMail(old(c.transport.link.server), c.transport.link.server)
    ensures AuthGuard(auth, c.greeting).Some? ==> r == Err(AuthGuard(auth, c.greeting).value)
    ensures var cs := AuthCommands(auth, c.greeting, md5);
            AuthGuard(auth, c.greeting).None? ==>
              LoginDid(old(c.transport.link), c.transport.link, None, Connected, c.state, cs, r)
              && c.CameTo(FareThrough(old(c.transport.link), cs), r)
  {
    if auth.Login? { r := c.Login(auth.user, auth.word); } else { r := c.Apop(auth.user, auth.word, md5); }
  }
}
