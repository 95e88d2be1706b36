/** A connection as the client meets it: the server session at the far end, the bytes on
    their way back, and the faults that are going to strike. Faults are crash-stop: reads
    that have failed keep failing, and so do writes. What arrives, arrives in order and is
    cut between lines. */
module Connection {
  import opened Basics
  import opened Strings
  import opened Server
  import opened Pipeline
  import Schedule

  /** `writes` buffer operations will succeed, `reach` bytes will get to the server and
      `lines` lines to the client before `fault` strikes; a reliable link has no faults.
      `pending` is what the server has of an unfinished command line. */
  datatype Link = Link(
    server: Session,
    pending: string,
    inbound: string,
    reliable: bool,
    writes: nat,
    reach: nat,
    lines: nat,
    fault: Fault,
    lost: bool,
    readDead: bool,
    writeDead: bool)

  /** The server takes in bytes and answers each line as soon as it is complete. */
  function Feed(s: Session, pending: string, bytes: string): (Session, string, string)
    decreases |bytes|
  {
    if bytes == "" then (s, pending, "")
    else if bytes[0] == '\n' then
      var (s', reply) := Handle(s, StripCr(pending));
      var (s'', p, out) := Feed(s', "", bytes[1..]);
      (s'', p, reply + out)
    else Feed(s, pending + [bytes[0]], bytes[1..])
  }

  /** Bytes leave the client's write buffer; those within reach get to the server. */
  function Receive(l: Link, bytes: string): Link {
    var n := if l.lost then 0 else if l.reliable || |bytes| <= l.reach then |bytes| else l.reach;
    var (s, p, out) := Feed(l.server, l.pending, bytes[..n]);
    l.(server := s, pending := p, inbound := l.inbound + out,
       reach := if l.reach >= n then l.reach - n else 0,
       lost := l.lost || n < |bytes|)
  }

  /** A write has failed, after part of the bytes had left: nothing more will. */
  function Sever(l: Link, bytes: string): Link {
    Receive(l, bytes).(writeDead := true, lost := true)
  }

  /** Only a link that has lost bytes holds an unfinished command line. */
  predicate Tidy(l: Link) {
    (l.pending != "" ==> l.lost)
    && (l.writeDead ==> l.lost)
    && (l.reliable ==> !l.lost)
  }

  predicate Broken(l: Link) { l.readDead || l.writeDead }

  // ---- what a link holds out for ----

  function Less(a: nat, b: nat): nat { if a >= b then a - b else 0 }

  /** The lines of an answer. */
  function ReplyLines(r: Reply): nat { if r.Data? then |r.lines| + 2 else 1 }

  /** A command takes three operations of the writer: the line, CRLF, the flush. */
  predicate CanSend(l: Link) { !l.writeDead && (l.reliable || l.writes >= 3) }

  /** All bytes of the command get to the server. */
  predicate GetsThrough(l: Link, c: Command) { !l.lost && (l.reliable || |Sent(c)| <= l.reach) }

  /** The link holds out for a command and for n lines of its answer. */
  predicate HoldsFor(l: Link, c: Command, n: nat) {
    !Broken(l) && CanSend(l) && GetsThrough(l, c) && (l.reliable || n <= l.lines)
  }

  /** The link after a command and n lines of its answer. */
  function WornBy(l: Link, c: Command, n: nat): Link {
    l.(server := Next(l.server, c), writes := Less(l.writes, 3), reach := Less(l.reach, |Sent(c)|),
       lines := Less(l.lines, n))
  }

  /** The link holds out for a command and all of its answer. */
  predicate Survives(l: Link, c: Command) { HoldsFor(l, c, ReplyLines(ReplyTo(l.server, c))) }

  function Worn(l: Link, c: Command): Link { WornBy(l, c, ReplyLines(ReplyTo(l.server, c))) }

  /** The server took the first d of the commands and nothing else happened to it. */
  predicate Took(l0: Link, l1: Link, cs: seq<Command>, d: nat) {
    d <= |cs|
    && l1.server == After(l0.server, cs[..d])
    && l1.inbound == l0.inbound + Answers(l0.server, cs[..d])
    && l1.reliable == l0.reliable && l1.readDead == l0.readDead && l1.fault == l0.fault
    && (l0.lost ==> d == 0 && l1.lost)
    && (l0.writeDead ==> l1.writeDead)
  }

  lemma {:induction false} FeedText(s: Session, pending: string, x: string, more: string)
    requires '\n' !in x
    ensures Feed(s, pending, x + more) == Feed(s, pending + x, more)
    decreases |x|
  {
    if x == "" {
      assert x + more == more && pending + x == pending;
    } else {
      assert (x + more)[1..] == x[1..] + more && (x + more)[0] == x[0];
      FeedText(s, pending + [x[0]], x[1..], more);
      assert pending + [x[0]] + x[1..] == pending + x;
    }
  }

  lemma FeedLine(s: Session, line: string, more: string)
    requires Clean(line)
    ensures var (s1, reply) := Handle(s, line);
            var (s', p, out) := Feed(s1, "", more);
            Feed(s, "", line + "\r\n" + more) == (s', p, reply + out)
  {
    var x := line + "\r";
    assert line + "\r\n" + more == x + ("\n" + more);
    FeedText(s, "", x, "\n" + more);
    assert "" + x == x && x[..|x| - 1] == line;
    assert ("\n" + more)[1..] == more;
  }

  lemma FeedCommand(s: Session, c: Command, more: string)
    requires Sendable(c)
    ensures var (s', p, out) := Feed(Next(s, c), "", more);
            Feed(s, "", Sent(c) + more) == (s', p, Render(ReplyTo(s, c)) + out)
  {
    CommandRoundTrip(c);
    FeedLine(s, CommandLine(c), more);
  }

  lemma FeedPart(s: Session, c: Command, n: nat)
    requires Sendable(c) && n < |Sent(c)|
    ensures Feed(s, "", Sent(c)[..n]) == (s, Sent(c)[..n], "")
  {
    CommandRoundTrip(c);
    var x := Sent(c)[..n];
    assert '\n' !in x by { assert forall i :: 0 <= i < n ==> x[i] == (CommandLine(c) + "\r")[i]; }
    FeedText(s, "", x, "");
    assert x + "" == x && "" + x == x;
  }

  /** Of the bytes `all` of a batch the server has taken in the first n, and executed d
      commands. */
  predicate FedBytes(s: Session, cs: seq<Command>, all: string, n: nat, d: nat) {
    n <= |all| && d <= |cs| &&
    var (s', p, out) := Feed(s, "", all[..n]);
    s' == After(s, cs[..d]) && out == Answers(s, cs[..d]) && (n == |all| ==> d == |cs| && p == "")
  }

  predicate Fed(s: Session, cs: seq<Command>, n: nat, d: nat) {
    FedBytes(s, cs, Schedule.Concat(SentAll(cs)), n, d)
  }

  lemma FeedFirst(s: Session, c: Command, rest: string, n: nat)
    requires Sendable(c) && n <= |Sent(c)| + |rest|
    ensures n < |Sent(c)| ==> Feed(s, "", (Sent(c) + rest)[..n]) == (s, Sent(c)[..n], "")
    ensures n >= |Sent(c)| ==>
      var (s', p, out) := Feed(Next(s, c), "", rest[..n - |Sent(c)|]);
      Feed(s, "", (Sent(c) + rest)[..n]) == (s', p, Render(ReplyTo(s, c)) + out)
  {
    TakeOfSum(Sent(c), rest, n);
    if n < |Sent(c)| {
      FeedPart(s, c, n);
    } else {
      assert n == |Sent(c)| ==> Sent(c)[..n] == Sent(c) + rest[..0];
      FeedCommand(s, c, rest[..n - |Sent(c)|]);
    }
  }

  /** What one whole command does to the link. */
  lemma ReceiveCommand(l: Link, c: Command)
    requires Tidy(l) && Sendable(c)
    ensures GetsThrough(l, c) ==>
      Receive(l, Sent(c)) == l.(server := Next(l.server, c), inbound := l.inbound + Render(ReplyTo(l.server, c)),
                                reach := Less(l.reach, |Sent(c)|))
    ensures !GetsThrough(l, c) ==>
      Receive(l, Sent(c)).lost && Receive(l, Sent(c)).server == l.server && Receive(l, Sent(c)).inbound == l.inbound
  {
    var w := Sent(c);
    assert w[..|w|] == w && w[..0] == "" && w + "" == w;
    assert l.inbound + "" == l.inbound && Render(ReplyTo(l.server, c)) + "" == Render(ReplyTo(l.server, c));
    if GetsThrough(l, c) {
      FeedCommand(l.server, c, "");
    } else if !l.lost {
      FeedPart(l.server, c, l.reach);
    }
  }

  /** However many bytes of a batch of commands get through, the server executes a prefix
      of the batch, and all of it only if all bytes do. */
  lemma {:induction false} FeedBatch(s: Session, cs: seq<Command>, n: nat) returns (d: nat)
    requires forall i :: 0 <= i < |cs| ==> Sendable(cs[i])
    requires n <= |Schedule.Concat(SentAll(cs))|
    ensures Fed(s, cs, n, d)
    decreases |cs|
  {
    d := 0;
    if cs != [] {
      var w, rest := Sent(cs[0]), Schedule.Concat(SentAll(cs[1..]));
      ConcatSent(cs);
      if n < |w| {
        FedLess(s, cs, rest, n);
      } else {
        var d' := FeedBatch(Next(s, cs[0]), cs[1..], n - |w|);
        FeedFirst(s, cs[0], rest, n);
        FedMore(s, cs, w, rest, n, d');
        d := d' + 1;
      }
    }
  }

  lemma ConcatSent(cs: seq<Command>)
    requires cs != []
    ensures Schedule.Concat(SentAll(cs)) == Sent(cs[0]) + Schedule.Concat(SentAll(cs[1..]))
  {
    assert SentAll(cs)[0] == Sent(cs[0]) && SentAll(cs)[1..] == SentAll(cs[1..]);
  }

  lemma FedLess(s: Session, cs: seq<Command>, rest: string, n: nat)
    requires cs != [] && Sendable(cs[0]) && n < |Sent(cs[0])|
    ensures FedBytes(s, cs, Sent(cs[0]) + rest, n, 0)
  {
    FeedFirst(s, cs[0], rest, n);
    assert cs[..0] == [];
  }

  lemma FedMore(s: Session, cs: seq<Command>, w: string, rest: string, n: nat, d: nat)
    requires cs != [] && n >= |w| && FedBytes(Next(s, cs[0]), cs[1..], rest, n - |w|, d)
    requires var (s', p, out) := Feed(Next(s, cs[0]), "", rest[..n - |w|]);
             Feed(s, "", (w + rest)[..n]) == (s', p, Render(ReplyTo(s, cs[0])) + out)
    ensures FedBytes(s, cs, w + rest, n, d + 1)
  {
    RunCons(s, cs, d);
  }

  lemma RunCons(s: Session, cs: seq<Command>, d: nat)
    requires d < |cs|
    ensures After(s, cs[..d + 1]) == After(Next(s, cs[0]), cs[1..][..d])
    ensures Answers(s, cs[..d + 1]) == Render(ReplyTo(s, cs[0])) + Answers(Next(s, cs[0]), cs[1..][..d])
  {
    TakeCons(cs, d);
  }

  lemma TakeCons(cs: seq<Command>, d: nat)
    requires d < |cs|
    ensures cs[..d + 1] != [] && cs[..d + 1][0] == cs[0] && cs[..d + 1][1..] == cs[1..][..d]
  {}

  /** What receiving a first part of a batch does to the link. */
  lemma ReceiveBatch(l: Link, cs: seq<Command>, bytes: string) returns (d: nat)
    requires Tidy(l)
    requires forall i :: 0 <= i < |cs| ==> Sendable(cs[i])
    requires bytes <= Schedule.Concat(SentAll(cs))
    ensures Took(l, Receive(l, bytes), cs, d) && Took(l, Sever(l, bytes), cs, d)
    ensures bytes == Schedule.Concat(SentAll(cs)) ==>
      Tidy(Receive(l, bytes)) && (Receive(l, bytes).lost || d == |cs|)
  {
    var all := Schedule.Concat(SentAll(cs));
    var n := if l.lost then 0 else if l.reliable || |bytes| <= l.reach then |bytes| else l.reach;
    assert bytes[..n] == all[..n];
    if l.lost {
      d := 0;
      assert bytes[..n] == "";
      assert l.inbound + "" == l.inbound;
    } else {
      d := FeedBatch(l.server, cs, n);
    }
  }

  /** The link after an attempt to send; the server has taken d of the commands. */
  predicate SendOver(l0: Link, l1: Link, cs: seq<Command>, ok: bool, d: nat) {
    Tidy(l1) && Took(l0, l1, cs, d)
    && (ok && d < |cs| ==> l1.lost)
    && (!ok ==> l1.writeDead)
    && (ok ==> !l1.writeDead)
    && (l0.reliable ==> ok && d == |cs|)
  }

  lemma BytesOfOne(c: Command)
    ensures Schedule.Concat(SentAll([c])) == Sent(c)
  {
    Schedule.ConcatOne(Sent(c));
    assert SentAll([c]) == [Sent(c)];
  }

  lemma SendSevered(l0: Link, l: Link, l1: Link, c: Command, bytes: string) returns (d: nat)
    requires Tidy(l0) && l == l0.(writes := l.writes) && Sendable(c) && bytes <= Sent(c)
    requires l1 == Sever(l, bytes) && !l.reliable
    ensures SendOver(l0, l1, [c], false, d)
  {
    BytesOfOne(c);
    d := ReceiveBatch(l, [c], bytes);
  }

  lemma SendFlushed(l0: Link, l: Link, l1: Link, c: Command) returns (d: nat)
    requires Tidy(l0) && l == l0.(writes := Less(l0.writes, 2)) && Sendable(c) && !l0.writeDead
    requires l1 == Receive(l, Sent(c)).(writes := Less(l.writes, 1))
    ensures SendOver(l0, l1, [c], true, d)
    ensures l1 == Receive(l0, Sent(c)).(writes := Less(l0.writes, 3))
  {
    BytesOfOne(c);
    d := ReceiveBatch(l, [c], Sent(c));
  }
}
