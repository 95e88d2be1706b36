/** Connecting and logging in, again and again: what one attempt can come to, the retry
    loop, and where it arrives when no connection fails on the way. */
module Redial {
  import opened Basics
  import opened Strings
  import opened Server
  import opened Response
  import opened Connection
  import opened Meaning
  import opened Exchange
  import opened Client
  import opened Builder

  /** How and as whom to log in. */
  datatype Account = Account(tls: TlsMode, user: string, word: string)

  predicate IsClean(a: Account) { Clean(a.user) && Clean(a.word) }

  /** What the server says from the greeting to the answer to PASS. */
  function Said(d: Dial, a: Account): seq<Reply>
    requires d.Reached?
  {
    Dialogue(d, a.tls, a.user, a.word)
  }

  function LoginCommands(a: Account): seq<Command> { [User(a.user), Pass(a.word)] }

  /** The session of a client that has logged in: greeting, STLS, USER, PASS, CAPA. */
  function Entered(d: Dial, a: Account): Session
    requires d.Reached?
  {
    Next(After(Upgraded(d, a.tls), LoginCommands(a)), Command.Capa)
  }

  // ---- one attempt ----

  /** How an attempt to connect and log in fares: a function of the dial. The link is the one
      before the capability probe. */
  function Fare(d: Dial, a: Account): Fared {
    match FareDial(d, a.tls)
    case Through(l) => if IsClean(a) then FareThrough(l, LoginCommands(a)) else ForGood
    case f => f
  }

  /** How an attempt to connect and log in ends. It succeeds only if the server refuses
      nothing; it fails with a retryable error only if the connection failed or the first
      refusal said [SYS/TEMP]; and on a dependable connection both are equivalences, so
      that a wrong password is never worth another attempt. */
  predicate Tried(d: Dial, a: Account, failure: Option<Error>) {
    failure != Some(NotAuthenticated) &&
    match d
    case Unreachable(error) => failure == Some(error)
    case _ =>
      var said := Said(d, a);
      (failure.None? ==> FirstRefusal(said).None?)
      && (failure.Some? && IsRetryable(failure.value) ==> IsIo(failure.value) || SaidSysTemp(said))
      && (Dependable(d, a.tls) && IsClean(a) ==>
            (failure.None? <==> FirstRefusal(said).None?)
            && (failure.Some? ==> (IsRetryable(failure.value) <==> SaidSysTemp(said))))
  }

  lemma TriedOpening(d: Dial, a: Account, failure: Error)
    requires Dialled(d, a.tls, Some(failure))
    ensures Tried(d, a, Some(failure))
  {
    if d.Reached? {
      FirstRefusalAppend(Preamble(d, a.tls), Replies(Upgraded(d, a.tls), LoginCommands(a)));
      if FirstRefusal(Preamble(d, a.tls)).Some? { NeverNotAuthenticated(FirstRefusal(Preamble(d, a.tls)).value); }
    }
  }

  lemma TriedLogin(d: Dial, a: Account, l0: Link, l1: Link, state: SessionState, r: Result<()>)
    requires Dialled(d, a.tls, None) && Ready(d, a.tls, l0)
    requires LoginDid(l0, l1, LoginGuard(Connected, Clean(a.user) && Clean(a.word)), Connected, state,
                      LoginCommands(a), r)
    ensures Tried(d, a, Failure(r))
  {
    var cs := LoginCommands(a);
    var said := FirstRefusal(Replies(Upgraded(d, a.tls), cs));
    FirstRefusalAppend(Preamble(d, a.tls), Replies(Upgraded(d, a.tls), cs));
    assert FirstRefusal(Said(d, a)) == said;
    LoginVerdict(Upgraded(d, a.tls), User(a.user), Pass(a.word));
    if !IsClean(a) || r.Ok? || IsLost(r) { return; }
    TransientRefusal(said.value);
    RejectedKinds(l0.server, cs, r.error);
  }

  lemma TransientRefusal(why: Refusal)
    ensures IsRetryable(Denial(why)) <==> why.code.SysTempCode?
  {}

  /** The link of a client that has just logged in on a dial. */
  predicate Joined(d: Dial, a: Account, l: Link) {
    d.Reached? && l.server.box == d.box && Untouched(l.server)
    && (d.reliable ==> l.reliable && !Broken(l) && l.server == Entered(d, a))
  }

  lemma JoinedBy(d: Dial, a: Account, l0: Link, l1: Link, state: SessionState, r: Result<()>)
    requires Ready(d, a.tls, l0) && IsClean(a) && r.Ok?
    requires LoginDid(l0, l1, None, Connected, state, LoginCommands(a), r)
    requires !Broken(l1) ==> l1.server == Next(After(l0.server, LoginCommands(a)), Command.Capa)
    ensures Joined(d, a, l1)
  {
    UpgradedMail(d, a.tls);
  }

  /** One attempt: connect, then authenticate with USER and PASS. A builder that has
      authenticated already makes the second login fail. */
  method ConnectAndAuth(b: Pop3ClientBuilder, net: Network, a: Account, md5: string -> string)
    returns (r: Result<Pop3Client>)
    requires net.Valid() && b.tls == a.tls && forall x :: Clean(md5(x))
    modifies net
    ensures net.Valid() && net.dials == Drop(old(net.dials), 1)
    ensures r.Ok? ==> fresh(r.value) && fresh(r.value.transport) && r.value.Valid() && r.value.state.Authenticated?
    ensures r.Ok? ==> Genuine(r.value.transport.link.server.box, net.mail)
    ensures r.Ok? ==> b.auth.NoAuth? && IsClean(a)
    ensures b.auth.NoAuth? ==> Tried(DialAt(old(net.dials), 0), a, Failure(r))
    ensures r.Ok? ==> Joined(DialAt(old(net.dials), 0), a, r.value.transport.link)
    ensures b.auth.NoAuth? ==> FaredAs(Fare(DialAt(old(net.dials), 0), a), r)
    ensures r.Ok? ==> Boarded(Fare(DialAt(old(net.dials), 0), a), r.value.transport.link)
  {
    ghost var d := DialAt(net.dials, 0);
    var c := Connect(b, net, md5);
    if c.Err? {
      if b.auth.NoAuth? { TriedOpening(d, a, c.error); }
      return Err(c.error);
    }
    ghost var l := c.value.transport.link;
    var login := c.value.Login(a.user, a.word);
    ghost var l1 := c.value.transport.link;
    if b.auth.NoAuth? { TriedLogin(d, a, l, l1, c.value.state, login); }
    if login.Err? { return Err(login.error); }
    JoinedBy(d, a, l, l1, c.value.state, login);
    r := c;
  }

  // ---- the loop ----

  /** Every failed attempt met the connection of its turn and failed for its reasons. */
  predicate Explained(dials: seq<Dial>, a: Account, errors: seq<Error>) {
    forall i :: 0 <= i < |errors| ==> Tried(DialAt(dials, i), a, Some(errors[i]))
  }

  /** Every failed attempt was bound to fail for the moment. */
  predicate AllForNow(dials: seq<Dial>, a: Account, errors: seq<Error>) {
    forall i :: 0 <= i < |errors| ==> Fare(DialAt(dials, i), a).ForNow?
  }

  /** All attempts fared as they were bound to. */
  predicate FaredSo(dials: seq<Dial>, a: Account, errors: seq<Error>, failure: Option<Error>) {
    AllForNow(dials, a, errors)
    && match Fare(DialAt(dials, |errors|), a)
      case Through(_) => failure.None?
      case ForNow => failure.Some? && IsRetryable(failure.value)
      case ForGood => failure.Some? && !IsRetryable(failure.value)
  }

  lemma DropAgain(dials: seq<Dial>, n: nat)
    ensures Drop(Drop(dials, n), 1) == Drop(dials, n + 1) && DialAt(Drop(dials, n), 0) == DialAt(dials, n)
  {}

  /** The callback sees the failed attempts that are retried, numbered from 1. */
  function Numbered(errors: seq<Error>): (calls: seq<(nat, Error)>)
    ensures |calls| == |errors|
    ensures forall i :: 0 <= i < |calls| ==> calls[i] == (i + 1, errors[i])
  {
    seq(|errors|, i requires 0 <= i < |errors| => (i + 1, errors[i]))
  }

  /** At most max + 1 attempts; only transient failures are retried; giving up has a reason. */
  predicate Disciplined(max: nat, errors: seq<Error>, failure: Option<Error>) {
    |errors| <= max
    && (forall i :: 0 <= i < |errors| ==> IsRetryable(errors[i]))
    && (failure.Some? ==> !IsRetryable(failure.value) || |errors| == max)
  }

  lemma OneErrorMore(dials: seq<Dial>, a: Account, errors: seq<Error>, e: Error)
    ensures Numbered(errors + [e]) == Numbered(errors) + [(|errors| + 1, e)]
    ensures Explained(dials, a, errors) && Tried(DialAt(dials, |errors|), a, Some(e)) ==>
      Explained(dials, a, errors + [e])
    ensures AllForNow(dials, a, errors) && Fare(DialAt(dials, |errors|), a).ForNow? ==>
      AllForNow(dials, a, errors + [e])
  {}

  /** The loop of both `connect` and `do_reconnect`; `errors` are the failures before the
      last attempt. */
  method Retry(b: Pop3ClientBuilder, net: Network, a: Account, md5: string -> string, max: nat, notify: bool)
    returns (r: Result<Pop3Client>, calls: seq<(nat, Error)>, ghost errors: seq<Error>)
    requires net.Valid() && b.tls == a.tls && forall x :: Clean(md5(x))
    modifies net
    ensures net.Valid() && net.dials == Drop(old(net.dials), |errors| + 1)
    ensures Disciplined(max, errors, Failure(r))
    ensures calls == if notify then Numbered(errors) else []
    ensures r.Ok? ==> fresh(r.value) && fresh(r.value.transport) && r.value.Valid() && r.value.state.Authenticated?
    ensures r.Ok? ==> Genuine(r.value.transport.link.server.box, net.mail)
    ensures r.Ok? ==> b.auth.NoAuth? && IsClean(a)
    ensures b.auth.NoAuth? ==> Explained(old(net.dials), a, errors)
    ensures b.auth.NoAuth? ==> Tried(DialAt(old(net.dials), |errors|), a, Failure(r))
    ensures r.Ok? ==> Joined(DialAt(old(net.dials), |errors|), a, r.value.transport.link)
    ensures b.auth.NoAuth? ==> FaredSo(old(net.dials), a, errors, Failure(r))
    ensures r.Ok? ==> Boarded(Fare(DialAt(old(net.dials), |errors|), a), r.value.transport.link)
  {
    var attempt: nat := 0;
    calls, errors := [], [];
    while true
      invariant net.Valid() && |errors| == attempt <= max && net.dials == Drop(old(net.dials), attempt)
      invariant forall i :: 0 <= i < |errors| ==> IsRetryable(errors[i])
      invariant calls == if notify then Numbered(errors) else []
      invariant b.auth.NoAuth? ==> Explained(old(net.dials), a, errors) && AllForNow(old(net.dials), a, errors)
      decreases max - attempt
    {
      DropAgain(old(net.dials), attempt);
      r := ConnectAndAuth(b, net, a, md5);
      if r.Ok? || !IsRetryable(r.error) || attempt == max { return; }
      OneErrorMore(old(net.dials), a, errors, r.error);
      attempt := attempt + 1;
      if notify { calls := calls + [(attempt, r.error)]; }
      errors := errors + [r.error];
    }
  }

  // ---- where the loop arrives ----

  /** All that reconnecting depends on: the connections to come, the account, the budget. */
  datatype Plan = Plan(dials: seq<Dial>, account: Account, max: nat)

  /** The outcome of one run of the loop. */
  predicate Redialled(p: Plan, errors: seq<Error>, failure: Option<Error>) {
    Disciplined(p.max, errors, failure) && FaredSo(p.dials, p.account, errors, failure)
  }

  predicate Arrived(p: Plan, errors: seq<Error>, l: Link) {
    Redialled(p, errors, None) && Joined(DialAt(p.dials, |errors|), p.account, l)
    && Boarded(Fare(DialAt(p.dials, |errors|), p.account), l)
  }

  predicate GaveUp(p: Plan, errors: seq<Error>, e: Error) { Redialled(p, errors, Some(e)) }

  /** The dial, from the n-th on, at which the loop arrives, if it does: the first that does
      not fail for the moment, within the budget, if it does not fail for good. */
  function Arrival(p: Plan, n: nat): (k: Option<nat>)
    requires n <= p.max + 1
    ensures k.Some? ==> n <= k.value <= p.max && Fare(DialAt(p.dials, k.value), p.account).Through?
    decreases p.max + 1 - n
  {
    if n == p.max + 1 then None
    else match Fare(DialAt(p.dials, n), p.account)
      case Through(_) => Some(n)
      case ForNow => Arrival(p, n + 1)
      case ForGood => None
  }

  lemma {:induction false} PassedBy(p: Plan, errors: seq<Error>, n: nat)
    requires AllForNow(p.dials, p.account, errors) && n <= |errors| <= p.max
    ensures Arrival(p, n) == Arrival(p, |errors|)
    decreases |errors| - n
  {
    if n < |errors| {
      PassedOne(p, n);
      PassedBy(p, errors, n + 1);
    }
  }

  lemma PassedOne(p: Plan, n: nat)
    requires n <= p.max && Fare(DialAt(p.dials, n), p.account).ForNow?
    ensures Arrival(p, n) == Arrival(p, n + 1)
  {}

  /** The loop arrives exactly where the dials let it, whatever faults there are on the way. */
  lemma ArrivesExactly(p: Plan, errors: seq<Error>, failure: Option<Error>)
    requires Redialled(p, errors, failure)
    ensures Arrival(p, 0) == if failure.None? then Some(|errors|) else None
  {
    PassedBy(p, errors, 0);
  }

  // ---- on a dependable dial the refusals decide ----

  /** A login is refused by the first refusal among its answers, if no step is lost. */
  lemma ReliableStep(l: Link, c: Command)
    requires l.reliable && !Broken(l) && !l.lost
    ensures Survives(l, c) && Worn(l, c).reliable && !Broken(Worn(l, c)) && !Worn(l, c).lost
  {}

  lemma {:induction false} ReliableLogin(l: Link, cs: seq<Command>)
    requires l.reliable && !Broken(l) && !l.lost
    ensures var said := FirstRefusal(Replies(l.server, cs));
            match FareThrough(l, cs)
            case Through(_) => said.None?
            case ForNow => said.Some? && said.value.code.SysTempCode?
            case ForGood => said.Some? && !said.value.code.SysTempCode?
    decreases |cs|
  {
    if cs != [] {
      ReliableStep(l, cs[0]);
      ReliableLogin(Worn(l, cs[0]), cs[1..]);
      RefusalCons(ReplyTo(l.server, cs[0]), Replies(Next(l.server, cs[0]), cs[1..]));
    }
  }

  /** When the connection is dependable, an attempt gets through exactly if nothing is
      refused, and fails for the moment exactly if the first refusal says [SYS/TEMP]. */
  lemma DependableFare(d: Dial, a: Account)
    requires d.Reached? && d.reliable && (a.tls.StartTls? ==> d.handshake.None?) && IsClean(a)
    ensures Dependable(d, a.tls)
    ensures Fare(d, a).Through? <==> FirstRefusal(Said(d, a)).None?
    ensures Fare(d, a).ForNow? <==> SaidSysTemp(Said(d, a))
  {
    PreambleVerdict(d, a.tls);
    FirstRefusalAppend(Preamble(d, a.tls), Replies(Upgraded(d, a.tls), LoginCommands(a)));
    ReliableStep(Greeted(d), Command.Stls);
    if FareDial(d, a.tls).Through? { ReliableLogin(FareDial(d, a.tls).link, LoginCommands(a)); }
  }
}
