/** The windowed batch commands RETR and DELE as instances of the two-process model. */
module Pipeline {
  import opened Basics
  import opened Strings
  import opened Wire
  import opened Response
  import opened Server
  import Schedule

  /** At most this many commands are sent before their replies are drained. */
  const PIPELINE_WINDOW: nat := 4

  /** `slice::chunks`. */
  function Chunks<T>(xs: seq<T>, n: nat): seq<seq<T>>
    requires n >= 1
  {
    if xs == [] then []
    else if |xs| <= n then [xs]
    else [xs[..n]] + Chunks(xs[n..], n)
  }

  function Sent(c: Command): string { CommandLine(c) + "\r\n" }

  function SentAll(cs: seq<Command>): (ws: seq<string>)
    ensures |ws| == |cs|
    ensures forall i :: 0 <= i < |ws| ==> ws[i] == Sent(cs[i])
  {
    seq(|cs|, i requires 0 <= i < |cs| => Sent(cs[i]))
  }

  function Windows(cs: seq<Command>): seq<seq<string>> {
    Chunks(SentAll(cs), PIPELINE_WINDOW)
  }

  lemma {:induction false} ChunksFlat(xs: seq<string>, n: nat)
    requires n >= 1
    ensures Schedule.Flat(Chunks(xs, n)) == xs
    ensures forall i :: 0 <= i < |Chunks(xs, n)| ==> Chunks(xs, n)[i] != [] && |Chunks(xs, n)[i]| <= n
    ensures forall i, j :: 0 <= i < |Chunks(xs, n)| && 0 <= j < |Chunks(xs, n)[i]| ==> Chunks(xs, n)[i][j] in xs
  {
    if |xs| > n {
      ChunksFlat(xs[n..], n);
      assert xs == xs[..n] + xs[n..];
    }
  }

  // ---- when a reply is complete, as the batch readers decide it ----

  predicate EndsInLf(buf: string) { buf != "" && buf[|buf| - 1] == '\n' }

  /** `read_retr_response` has all it needs: a status line, and after a positive one a
      terminated body. */
  predicate RetrDone(buf: string) {
    EndsInLf(buf) &&
    match TakeLine(buf)
    case None => false
    case Some((line, rest)) =>
      if ParseStatus(line).Ok? then Decode(rest) != None && Decode(rest).value.1 == "" else rest == ""
  }

  /** One `read_line` has all it needs. */
  predicate LineDone(buf: string) { EndsInLf(buf) }

  lemma LfPosition(t: string, k: nat)
    requires '\n' !in t && k <= |t| + 2
    ensures EndsInLf((t + "\r\n")[..k]) <==> k == |t| + 2
  {
    var s := t + "\r\n";
    assert forall i :: 0 <= i < |t| ==> s[i] == t[i];
    assert s[|t|] == '\r' && s[|t| + 1] == '\n';
  }

  lemma LineFramed(t: string)
    requires '\n' !in t
    ensures Schedule.Framed(LineDone, t + "\r\n")
  {
    var s := t + "\r\n";
    LfPosition(t, |s|);
    assert s[..|s|] == s;
    forall k | 0 <= k < |s| ensures !LineDone(s[..k]) { LfPosition(t, k); }
  }

  /** A prefix of an encoded body that ends in a line feed is a number of whole lines. */
  lemma {:induction false} PrefixAtLf(lines: seq<Line>, k: nat) returns (j: nat)
    requires k < |Encode(lines)| && (k == 0 || EndsInLf(Encode(lines)[..k]))
    ensures j <= |lines| && Encode(lines)[..k] == Body(lines[..j])
    decreases lines
  {
    j := 0;
    if lines == [] {
      assert Encode(lines) == "." + "\r\n";
      assert Encode(lines)[..|Encode(lines)|] == Encode(lines);
      LfPosition(".", k);
    } else if k > 0 {
      var head, tail := Stuff(lines[0]) + "\r\n", Encode(lines[1..]);
      assert Encode(lines) == head + tail by { Associative(head, Body(lines[1..]), ".\r\n"); }
      StuffInverse(lines[0]);
      PrefixPassesLine(Stuff(lines[0]), tail, k);
      var j' := PrefixAtLf(lines[1..], k - |head|);
      j := j' + 1;
      BodyCons(lines, j');
    }
  }

  /** A prefix that ends in a line feed contains all of the first line. */
  lemma PrefixPassesLine(t: string, tail: string, k: nat)
    requires '\n' !in t && 0 < k <= |t| + 2 + |tail| && EndsInLf((t + "\r\n" + tail)[..k])
    ensures k >= |t| + 2
    ensures (t + "\r\n" + tail)[..k] == t + "\r\n" + tail[..k - |t| - 2]
    ensures k == |t| + 2 || EndsInLf(tail[..k - |t| - 2])
  {
    TakeOfSum(t + "\r\n", tail, k);
    if k <= |t| + 2 { LfPosition(t, k); }
  }

  lemma BodyCons(lines: seq<string>, j: nat)
    requires j < |lines|
    ensures Body(lines[..j + 1]) == Stuff(lines[0]) + "\r\n" + Body(lines[1..][..j])
  {
    assert lines[..j + 1][0] == lines[0] && lines[..j + 1][1..] == lines[1..][..j];
  }

  lemma RetrStatusOnly(t: string)
    requires '\n' !in t
    ensures var s := t + "\r\n";
            RetrDone(s) <==> !ParseStatus(s).Ok?
  {
    var s := t + "\r\n";
    TakeLineOf(t, "");
    assert s + "" == s;
    RetrOneLine(s);
  }

  lemma RetrOneLine(s: string)
    requires EndsInLf(s) && TakeLine(s) == Some((s, ""))
    ensures RetrDone(s) <==> !ParseStatus(s).Ok?
  {
    assert Decode("") == None;
  }

  lemma RetrWithBody(t: string, rest: string)
    requires '\n' !in t && rest != "" && ParseStatus(t + "\r\n").Ok?
    ensures RetrDone(t + "\r\n" + rest) <==> EndsInLf(rest) && Decode(rest) != None && Decode(rest).value.1 == ""
  {
    TakeLineOf(t, rest);
    assert (t + "\r\n" + rest)[|t + "\r\n" + rest| - 1] == rest[|rest| - 1];
  }

  lemma DataFramed(text: StatusText, lines: seq<Line>)
    ensures Schedule.Framed(RetrDone, Render(Data(text, lines)))
  {
    var t := "+OK" + Sp(text);
    StatusOk(text);
    var body := Encode(lines);
    var r := Render(Data(text, lines));
    assert r == t + "\r\n" + body;
    RoundTrip(lines, "");
    assert body + "" == body;
    RetrWithBody(t, body);
    assert body[|body| - 1] == '\n';
    forall k | 0 <= k < |r| ensures !RetrDone(r[..k]) { DataPrefix(t, lines, k, r[..k]); }
  }

  lemma DataPrefix(t: string, lines: seq<Line>, k: nat, p: string)
    requires '\n' !in t && ParseStatus(t + "\r\n").Ok?
    requires k < |t + "\r\n" + Encode(lines)| && p == (t + "\r\n" + Encode(lines))[..k]
    ensures !RetrDone(p)
  {
    var head, body := t + "\r\n", Encode(lines);
    TakeOfSum(head, body, k);
    if k <= |head| { StatusPrefix(t, k, p); } else { BodyPrefix(t, lines, k - |head|, p); }
  }

  lemma TakeOfSum(a: string, b: string, k: nat)
    requires k <= |a| + |b|
    ensures (a + b)[..k] == if k <= |a| then a[..k] else a + b[..k - |a|]
  {}

  lemma StatusPrefix(t: string, k: nat, p: string)
    requires '\n' !in t && k <= |t| + 2 && ParseStatus(t + "\r\n").Ok? && p == (t + "\r\n")[..k]
    ensures !RetrDone(p)
  {
    LfPosition(t, k);
    if k == |t| + 2 {
      RetrStatusOnly(t);
      assert p == t + "\r\n";
    }
  }

  lemma BodyPrefix(t: string, lines: seq<Line>, n: nat, p: string)
    requires '\n' !in t && ParseStatus(t + "\r\n").Ok? && 0 < n < |Encode(lines)|
    requires p == t + "\r\n" + Encode(lines)[..n]
    ensures !RetrDone(p)
  {
    var part := Encode(lines)[..n];
    RetrWithBody(t, part);
    if EndsInLf(part) {
      var j := PrefixAtLf(lines, n);
      CutAtLineBoundary(lines, j);
    }
  }

  lemma ErrFramed(why: Refusal)
    ensures Schedule.Framed(RetrDone, Render(Minus(why)))
  {
    var t := "-ERR" + Sp(RefusalText(why));
    StatusErr(why);
    var r := t + "\r\n";
    RetrStatusOnly(t);
    forall k | 0 <= k < |r| ensures !RetrDone(r[..k]) { LfPosition(t, k); }
  }

  // ---- the instances ----

  datatype Kind = Retrieve | Delete

  function CommandOf(kind: Kind, id: nat): Command {
    match kind case Retrieve => Retr(id) case Delete => Dele(id)
  }

  function Commands(kind: Kind, ids: seq<nat>): (cs: seq<Command>)
    ensures |cs| == |ids|
    ensures forall i :: 0 <= i < |cs| ==> cs[i] == CommandOf(kind, ids[i])
  {
    seq(|ids|, i requires 0 <= i < |ids| => CommandOf(kind, ids[i]))
  }

  predicate IsRetr(line: string) { ParseCommand(line).Retr? }
  predicate IsDele(line: string) { ParseCommand(line).Dele? }

  function World(kind: Kind, C: nat, D: nat): Schedule.Env<Session> {
    match kind
    case Retrieve => Schedule.Env(Handle, IsRetr, RetrDone, C, D)
    case Delete => Schedule.Env(Handle, IsDele, LineDone, C, D)
  }

  lemma ServerConforms(kind: Kind, C: nat, D: nat)
    ensures Schedule.Conforming(World(kind, C, D))
  {
    var e := World(kind, C, D);
    forall s, l | e.issues(l) ensures Schedule.Framed(e.done, e.exec(s, l).1) {
      var c := ParseCommand(l);
      ReplyShape(s, c);
      match ReplyTo(s, c)
      case Plus(text) => StatusOk(text); LineFramed("+OK" + Sp(text));
      case Data(text, lines) => DataFramed(text, lines);
      case Minus(why) =>
        StatusErr(why);
        if kind.Retrieve? { ErrFramed(why); } else { LineFramed("-ERR" + Sp(RefusalText(why))); }
    }
  }

  lemma SentIsCommand(c: Command)
    requires Sendable(c)
    ensures Schedule.IsCommand(Sent(c)) && Schedule.Bare(Sent(c)) == CommandLine(c)
  {
    CommandRoundTrip(c);
    var w := Sent(c);
    assert w[|w| - 2..] == "\r\n" && w[..|w| - 2] == CommandLine(c);
  }

  lemma {:induction false} ConcatBound(ws: seq<string>, b: nat)
    requires forall i :: 0 <= i < |ws| ==> |ws[i]| <= b
    ensures |Schedule.Concat(ws)| <= |ws| * b
  {
    if ws != [] {
      ConcatBound(ws[1..], b);
      assert |ws| * b == b + |ws[1..]| * b;
    }
  }

  /** A batch command for a u32 id takes at most 17 bytes on the wire. */
  lemma CommandBytes(kind: Kind, id: nat)
    requires id <= U32_MAX
    ensures |Sent(CommandOf(kind, id))| <= 17
    ensures id >= 1_000_000_000 ==> |Sent(CommandOf(kind, id))| == 17
  {
    assert Pow10(9) == 1_000_000_000 && Pow10(10) == 10_000_000_000 by {
      assert Pow10(2) == 100;
      assert Pow10(4) == 10_000 by { assert Pow10(3) == 1000; }
      assert Pow10(6) == 1_000_000 by { assert Pow10(5) == 100_000; }
      assert Pow10(8) == 100_000_000 by { assert Pow10(7) == 10_000_000; }
    }
    DecLength(id, 10, 10_000_000_000);
    if id >= 1_000_000_000 { DecLengthAtLeast(id, 10, 1_000_000_000); }
  }

  lemma WindowsFit(kind: Kind, ids: seq<nat>, C: nat, D: nat)
    requires forall i :: 0 <= i < |ids| ==> ids[i] <= U32_MAX
    requires C >= 51
    ensures Schedule.AllFit(World(kind, C, D), Windows(Commands(kind, ids)))
  {
    var e := World(kind, C, D);
    var sent := SentAll(Commands(kind, ids));
    ChunksFlat(sent, PIPELINE_WINDOW);
    forall w | w in sent ensures Schedule.Issued(e, w) && |w| <= 17 {
      var i :| 0 <= i < |sent| && sent[i] == w;
      BatchCommandIssued(kind, ids[i], C, D);
    }
    forall w | w in Windows(Commands(kind, ids)) ensures Schedule.Fits(e, w) {
      ConcatBound(w[1..], 17);
      assert |w[1..]| <= 3;
    }
  }

  lemma BatchCommandIssued(kind: Kind, id: nat, C: nat, D: nat)
    requires id <= U32_MAX
    ensures var w := Sent(CommandOf(kind, id)); Schedule.Issued(World(kind, C, D), w) && |w| <= 17
  {
    SentIsCommand(CommandOf(kind, id));
    CommandRoundTrip(CommandOf(kind, id));
    CommandBytes(kind, id);
  }

  lemma ExecOne(s: Session, c: Command)
    requires Sendable(c)
    ensures Handle(s, Schedule.Bare(Sent(c))) == (Next(s, c), Render(ReplyTo(s, c)))
  {
    SentIsCommand(c);
    CommandRoundTrip(c);
  }

  lemma {:induction false} SequentialReplies(e: Schedule.Env<Session>, s: Session, cs: seq<Command>)
    requires e.exec == Handle
    requires forall i :: 0 <= i < |cs| ==> Sendable(cs[i])
    ensures Schedule.Final(e, s, SentAll(cs)) == After(s, cs)
    ensures Schedule.Replies(e, s, SentAll(cs)) == RenderAll(Replies(s, cs))
    decreases |cs|
  {
    if cs != [] {
      var s' := Next(s, cs[0]);
      ExecOne(s, cs[0]);
      assert SentAll(cs)[0] == Sent(cs[0]) && SentAll(cs)[1..] == SentAll(cs[1..]);
      SequentialReplies(e, s', cs[1..]);
      RenderCons(ReplyTo(s, cs[0]), Replies(s', cs[1..]));
    }
  }

  function RenderAll(rs: seq<Reply>): (ws: seq<string>)
    ensures |ws| == |rs|
    ensures forall i :: 0 <= i < |ws| ==> ws[i] == Render(rs[i])
  {
    seq(|rs|, i requires 0 <= i < |rs| => Render(rs[i]))
  }

  lemma RenderCons(r: Reply, rs: seq<Reply>)
    ensures RenderAll([r] + rs) == [Render(r)] + RenderAll(rs)
  {}

  /** A windowed RETR or DELE batch over pipes of at least 51 bytes towards the server and
      at least one byte towards the client: whatever the list of ids, the mailbox, the
      server's choices and the schedule, the batch never blocks, takes a bounded number of
      steps, and delivers the answers of the one-by-one run and its effect on the session. */
  lemma BatchUnderEverySchedule(kind: Kind, ids: seq<nat>, s: Session, C: nat, D: nat,
                                moves: seq<Schedule.Move>, t: Schedule.Sys<Session>)
    requires forall i :: 0 <= i < |ids| ==> ids[i] <= U32_MAX
    requires C >= 51 && D >= 1
    requires Schedule.Runs(World(kind, C, D), Schedule.Start(s, Windows(Commands(kind, ids))), moves, t)
    ensures !Schedule.Stuck(World(kind, C, D), t)
    ensures Schedule.Finished(t) ==> t.srv == After(s, Commands(kind, ids)) && t.s2c == t.pend == t.got == ""
    ensures |moves| <= 2 * |Schedule.Concat(RenderAll(Replies(s, Commands(kind, ids))))|
                       + 2 * |Schedule.Concat(SentAll(Commands(kind, ids)))| + |Windows(Commands(kind, ids))|
    ensures Schedule.Finished(t) ==> |t.replies| == |ids|
    ensures Schedule.Finished(t) ==>
      forall i :: 0 <= i < |ids| ==> t.replies[i] == Render(ReplyAt(s, Commands(kind, ids), i))
  {
    var e, cs := World(kind, C, D), Commands(kind, ids);
    ServerConforms(kind, C, D);
    WindowsFit(kind, ids, C, D);
    Schedule.EverySchedule(e, s, Windows(cs), moves, t);
    ChunksFlat(SentAll(cs), PIPELINE_WINDOW);
    SequentialReplies(e, s, cs);
  }

  /** The 51 bytes cannot be spared: over a pipe of 50, a window of four RETR with ids of ten
      digits can block for good, if the first message is longer than the pipe back. */
  lemma FiftyBytesAreTooFew(D: nat, s: Session, ids: seq<nat>)
    returns (moves: seq<Schedule.Move>, t: Schedule.Sys<Session>)
    requires |ids| == PIPELINE_WINDOW && forall i :: 0 <= i < |ids| ==> 1_000_000_000 <= ids[i] <= U32_MAX
    requires |Render(ReplyTo(s, Retr(ids[0])))| > D
    ensures Schedule.Runs(World(Retrieve, 50, D), Schedule.Start(s, Windows(Commands(Retrieve, ids))), moves, t)
    ensures Schedule.Stuck(World(Retrieve, 50, D), t)
  {
    var e, cs := World(Retrieve, 50, D), Commands(Retrieve, ids);
    var w := SentAll(cs);
    assert Windows(cs) == [w];
    FourCommands(ids, w);
    SentIsCommand(cs[0]);
    ExecOne(s, cs[0]);
    moves, t := Schedule.TooLongAWindowSticks(e, Schedule.Start(s, Windows(cs)));
  }

  lemma FourCommands(ids: seq<nat>, w: seq<string>)
    requires |ids| == PIPELINE_WINDOW && w == SentAll(Commands(Retrieve, ids))
    requires forall i :: 0 <= i < |ids| ==> 1_000_000_000 <= ids[i] <= U32_MAX
    ensures |Schedule.Concat(w[1..])| == 51
  {
    CommandBytes(Retrieve, ids[1]);
    CommandBytes(Retrieve, ids[2]);
    CommandBytes(Retrieve, ids[3]);
    assert w[1..][0] == w[1] && w[1..][1..] == w[2..] && w[2..][1..] == w[3..] && w[3..][1..] == [];
    assert Schedule.Concat(w[3..]) == w[3] + "";
  }
}
