/** Client and server as two processes that exchange single bytes through bounded pipes.
    The client writes a window of commands, then reads as many replies; the server reads
    until it has a command line, executes it, and writes the whole reply before it reads
    on. Any interleaving of the steps is a schedule. */
module Schedule {
  import opened Strings

  /** `exec` is the server's reaction to one command line, `issues` the command lines that
      the client may send, `done` its test that the bytes read so far are one whole reply;
      `C` and `D` are the capacities of the client-to-server and server-to-client pipe. */
  datatype Env<!S> = Env(
    exec: (S, string) -> (S, string),
    issues: string -> bool,
    done: string -> bool,
    C: nat,
    D: nat)

  datatype Sys<S> = Sys(
    todo: seq<seq<string>>,  // windows the client has not begun
    out: string,             // bytes of the current window the client has yet to write
    owed: nat,             // replies of the current window the client has yet to finish
    got: string,             // bytes of the reply being read
    replies: seq<string>,    // replies read, in order
    c2s: string,
    line: string,            // bytes of a command line the server has read
    srv: S,
    pend: string,            // bytes of a reply the server has yet to write
    s2c: string)

  datatype Move = Begin | ClientWrite | ClientRead | ServerRead | ServerWrite

  predicate Enabled<S>(e: Env<S>, s: Sys<S>, m: Move) {
    match m
    case Begin => s.out == "" && s.owed == 0 && s.todo != []
    case ClientWrite => s.out != "" && |s.c2s| < e.C
    case ClientRead => s.out == "" && s.owed > 0 && s.s2c != ""
    case ServerRead => s.pend == "" && s.c2s != ""
    case ServerWrite => s.pend != "" && |s.s2c| < e.D
  }

  function Apply<S>(e: Env<S>, s: Sys<S>, m: Move): Sys<S>
    requires Enabled(e, s, m)
  {
    match m
    case Begin => s.(todo := s.todo[1..], out := Concat(s.todo[0]), owed := |s.todo[0]|)
    case ClientWrite => s.(out := s.out[1..], c2s := s.c2s + [s.out[0]])
    case ClientRead =>
      var g := s.got + [s.s2c[0]];
      if e.done(g) then s.(s2c := s.s2c[1..], got := "", replies := s.replies + [g], owed := s.owed - 1)
      else s.(s2c := s.s2c[1..], got := g)
    case ServerRead =>
      if s.c2s[0] == '\n' then
        var (srv, reply) := e.exec(s.srv, StripCr(s.line));
        s.(c2s := s.c2s[1..], line := "", srv := srv, pend := reply)
      else s.(c2s := s.c2s[1..], line := s.line + [s.c2s[0]])
    case ServerWrite => s.(pend := s.pend[1..], s2c := s.s2c + [s.pend[0]])
  }

  predicate Runs<S(==)>(e: Env<S>, s: Sys<S>, moves: seq<Move>, t: Sys<S>)
    decreases |moves|
  {
    if moves == [] then s == t
    else Enabled(e, s, moves[0]) && Runs(e, Apply(e, s, moves[0]), moves[1..], t)
  }

  predicate Finished<S>(s: Sys<S>) { s.todo == [] && s.out == "" && s.owed == 0 }

  predicate Stuck<S>(e: Env<S>, s: Sys<S>) { !Finished(s) && forall m :: !Enabled(e, s, m) }

  function Concat(ss: seq<string>): string { if ss == [] then "" else ss[0] + Concat(ss[1..]) }

  function Flat(ws: seq<seq<string>>): seq<string> { if ws == [] then [] else ws[0] + Flat(ws[1..]) }

  // ---- the sequential meaning: one command after the other ----

  function Replies<S>(e: Env<S>, s: S, cmds: seq<string>): seq<string> {
    if cmds == [] then []
    else var (s', r) := e.exec(s, Bare(cmds[0])); [r] + Replies(e, s', cmds[1..])
  }

  function Final<S>(e: Env<S>, s: S, cmds: seq<string>): S {
    if cmds == [] then s else Final(e, e.exec(s, Bare(cmds[0])).0, cmds[1..])
  }

  /** A command as sent is a clean line and CRLF. */
  predicate IsCommand(w: string) {
    |w| >= 2 && w[|w| - 2..] == "\r\n" && Clean(w[..|w| - 2])
  }

  function Bare(w: string): string { if |w| >= 2 then w[..|w| - 2] else w }

  /** Exactly the whole of r, and no proper prefix of it, passes for a reply. */
  predicate Framed(done: string -> bool, r: string) {
    r != "" && done(r) && forall k :: 0 <= k < |r| ==> !done(r[..k])
  }

  ghost predicate Conforming<S(!new)>(e: Env<S>) {
    forall s, l :: e.issues(l) ==> Framed(e.done, e.exec(s, l).1)
  }

  /** All commands of a window but the first fit into the client-to-server pipe. */
  predicate Fits<S>(e: Env<S>, w: seq<string>) {
    w != [] && (forall i :: 0 <= i < |w| ==> Issued(e, w[i])) && |Concat(w[1..])| <= e.C
  }

  predicate Issued<S>(e: Env<S>, w: string) { IsCommand(w) && e.issues(Bare(w)) }

  predicate AllFit<S>(e: Env<S>, ws: seq<seq<string>>) { forall i :: 0 <= i < |ws| ==> Fits(e, ws[i]) }

  function Start<S>(s: S, ws: seq<seq<string>>): Sys<S> {
    Sys(ws, "", 0, "", [], "", "", s, "", "")
  }

  // ---- the invariant ----

  /** `left` are the commands of the current window the server has not executed, `flight`
      the replies it has produced and the client has not finished. Every byte is accounted
      for, in order, by one of the buffers on its way. */
  ghost predicate Inv<S(!new)>(e: Env<S>, s: Sys<S>, left: seq<string>, flight: seq<string>) {
    s.line + s.c2s + s.out == Concat(left)
    && '\n' !in s.line
    && (forall i :: 0 <= i < |left| ==> Issued(e, left[i]))
    && s.got + s.s2c + s.pend == Concat(flight)
    && (forall i :: 0 <= i < |flight| ==> Framed(e.done, flight[i]))
    && (if flight == [] then s.got == "" else |s.got| < |flight[0]|)
    && s.owed == |left| + |flight|
    && AllFit(e, s.todo)
    && (left != [] ==> |Concat(left[1..])| <= e.C)
    && (flight != [] ==> |Concat(left)| <= e.C)
  }

  /** What the rest of the run is bound to deliver; no step changes it. */
  function Outlook<S>(e: Env<S>, s: Sys<S>, left: seq<string>, flight: seq<string>): (seq<string>, S) {
    (s.replies + flight + Replies(e, s.srv, left + Flat(s.todo)), Final(e, s.srv, left + Flat(s.todo)))
  }

  lemma {:induction false} ConcatAppend(a: seq<string>, b: seq<string>)
    ensures Concat(a + b) == Concat(a) + Concat(b)
  {
    if a == [] {
      assert a + b == b;
    } else {
      assert (a + b)[1..] == a[1..] + b;
      ConcatAppend(a[1..], b);
    }
  }

  /** Where the first line feed of a command stream is. */
  lemma CommandHead(line: string, b: char, rest: string, left: seq<string>)
    requires left != [] && IsCommand(left[0]) && '\n' !in line
    requires line + [b] + rest == Concat(left)
    ensures b == '\n' ==> left[0] == line + [b] && rest == Concat(left[1..]) && StripCr(line) == Bare(left[0])
  {
    var w := left[0];
    var s := line + [b] + rest;
    assert s == w + Concat(left[1..]);
    assert w[|w| - 1] == '\n' by { assert w[|w| - 2..][1] == '\n'; }
    assert w[|w| - 2] == '\r' by { assert w[|w| - 2..][0] == '\r'; }
    assert forall i :: 0 <= i < |w| - 1 ==> w[i] != '\n' by {
      assert forall i :: 0 <= i < |w| - 2 ==> w[i] == w[..|w| - 2][i];
    }
    if b == '\n' {
      assert s[|line|] == '\n';
      assert forall i :: 0 <= i < |line| ==> s[i] == line[i];
      assert s[|w| - 1] == '\n';
      assert |w| - 1 == |line|;
      assert w == s[..|w|] == line + [b];
      assert rest == s[|w|..];
      assert line == w[..|w| - 1];
      assert line[..|line| - 1] == w[..|w| - 2];
    }
  }

  lemma StepBegin<S(!new)>(e: Env<S>, s: Sys<S>)
    requires Inv(e, s, [], []) && Enabled(e, s, Begin)
    ensures Inv(e, Apply(e, s, Begin), s.todo[0], [])
    ensures Outlook(e, Apply(e, s, Begin), s.todo[0], []) == Outlook(e, s, [], [])
  {
    assert Fits(e, s.todo[0]);
    assert [] + Flat(s.todo) == s.todo[0] + Flat(s.todo[1..]);
    assert s.line + s.c2s + s.out == "";
    var t := Apply(e, s, Begin);
    assert t.line + t.c2s + t.out == t.out;
  }

  lemma StepClientWrite<S(!new)>(e: Env<S>, s: Sys<S>, left: seq<string>, flight: seq<string>)
    requires Inv(e, s, left, flight) && Enabled(e, s, ClientWrite)
    ensures Inv(e, Apply(e, s, ClientWrite), left, flight)
    ensures Outlook(e, Apply(e, s, ClientWrite), left, flight) == Outlook(e, s, left, flight)
  {
    var t := Apply(e, s, ClientWrite);
    assert t.line + t.c2s + t.out == s.line + s.c2s + s.out;
  }

  lemma StepServerWrite<S(!new)>(e: Env<S>, s: Sys<S>, left: seq<string>, flight: seq<string>)
    requires Inv(e, s, left, flight) && Enabled(e, s, ServerWrite)
    ensures Inv(e, Apply(e, s, ServerWrite), left, flight)
    ensures Outlook(e, Apply(e, s, ServerWrite), left, flight) == Outlook(e, s, left, flight)
  {
    var t := Apply(e, s, ServerWrite);
    assert t.got + t.s2c + t.pend == s.got + s.s2c + s.pend;
  }

  /** The next byte for the client is the next byte of the first reply in flight, and it
      completes the reply exactly if it is the last one. */
  lemma NextByte<S(!new)>(e: Env<S>, s: Sys<S>, left: seq<string>, flight: seq<string>)
    requires Inv(e, s, left, flight) && Enabled(e, s, ClientRead)
    ensures flight != []
    ensures var g := s.got + [s.s2c[0]];
            |g| <= |flight[0]| && g == flight[0][..|g|] && (e.done(g) <==> |g| == |flight[0]|) &&
            g + (s.s2c[1..] + s.pend) == Concat(flight)
  {
    var stream, g := s.got + s.s2c + s.pend, s.got + [s.s2c[0]];
    assert stream != "";
    assert g + (s.s2c[1..] + s.pend) == stream;
    var r := flight[0];
    assert stream == r + Concat(flight[1..]);
    assert |g| <= |r|;
    assert g == stream[..|g|] == r[..|g|];
    assert r[..|r|] == r;
  }

  lemma StepClientRead<S(!new)>(e: Env<S>, s: Sys<S>, left: seq<string>, flight: seq<string>)
    requires Inv(e, s, left, flight) && Enabled(e, s, ClientRead)
    ensures flight != []
    ensures var t := Apply(e, s, ClientRead);
            var flight' := if t.replies == s.replies then flight else flight[1..];
            Inv(e, t, left, flight') && Outlook(e, t, left, flight') == Outlook(e, s, left, flight)
  {
    NextByte(e, s, left, flight);
    var g := s.got + [s.s2c[0]];
    var t := Apply(e, s, ClientRead);
    if e.done(g) {
      assert g == flight[0];
      ReplyFinished(g, s.s2c[1..] + s.pend, flight);
      assert t.replies == s.replies + [g] && t.replies != s.replies;
      assert "" + t.s2c + t.pend == t.s2c + t.pend;
      assert s.replies + flight == t.replies + flight[1..];
    } else {
      assert t.got + t.s2c + t.pend == g + (t.s2c + t.pend);
    }
  }

  lemma ReplyFinished(r: string, rest: string, flight: seq<string>)
    requires flight != [] && flight[0] == r && r + rest == Concat(flight)
    ensures rest == Concat(flight[1..])
  {
    assert rest == (r + rest)[|r|..];
    assert Concat(flight[1..]) == (r + Concat(flight[1..]))[|r|..];
  }

  lemma StepServerRead<S(!new)>(e: Env<S>, s: Sys<S>, left: seq<string>, flight: seq<string>)
    requires Conforming(e)
    requires Inv(e, s, left, flight) && Enabled(e, s, ServerRead)
    ensures left != []
    ensures var t := Apply(e, s, ServerRead);
            if s.c2s[0] == '\n' then
              Inv(e, t, left[1..], flight + [t.pend]) &&
              Outlook(e, t, left[1..], flight + [t.pend]) == Outlook(e, s, left, flight)
            else
              Inv(e, t, left, flight) && Outlook(e, t, left, flight) == Outlook(e, s, left, flight)
  {
    var b, rest := s.c2s[0], s.c2s[1..] + s.out;
    assert s.line + s.c2s + s.out == s.line + [b] + rest;
    assert left != [] by { assert Concat([]) == ""; }
    CommandHead(s.line, b, rest, left);
    if b == '\n' {
      ServerExecutes(e, s, left, flight);
    } else {
      var t := Apply(e, s, ServerRead);
      assert t.line + t.c2s + t.out == s.line + [b] + rest;
    }
  }

  lemma ServerExecutes<S(!new)>(e: Env<S>, s: Sys<S>, left: seq<string>, flight: seq<string>)
    requires Conforming(e)
    requires Inv(e, s, left, flight) && Enabled(e, s, ServerRead) && s.c2s[0] == '\n'
    requires left != [] && left[0] == s.line + ['\n'] && s.c2s[1..] + s.out == Concat(left[1..])
    requires StripCr(s.line) == Bare(left[0])
    ensures var t := Apply(e, s, ServerRead);
            Inv(e, t, left[1..], flight + [t.pend]) &&
            Outlook(e, t, left[1..], flight + [t.pend]) == Outlook(e, s, left, flight)
  {
    var t := Apply(e, s, ServerRead);
    var r := t.pend;
    assert e.exec(s.srv, Bare(left[0])) == (t.srv, r);
    assert t.line + t.c2s + t.out == Concat(left[1..]);
    ConcatOne(r);
    ConcatAppend(flight, [r]);
    assert s.pend == "" && s.got + s.s2c + "" == s.got + s.s2c;
    assert t.got + t.s2c + t.pend == Concat(flight + [r]);
    Prepend(left, s.todo);
    var rest := Replies(e, t.srv, left[1..] + Flat(s.todo));
    assert Replies(e, s.srv, left + Flat(s.todo)) == [r] + rest;
    assert s.replies + flight + ([r] + rest) == s.replies + (flight + [r]) + rest;
  }

  lemma ConcatOne(r: string)
    ensures Concat([r]) == r
  {
    assert [r][1..] == [];
  }

  lemma Prepend(left: seq<string>, todo: seq<seq<string>>)
    requires left != []
    ensures var cs := left + Flat(todo); cs != [] && cs[0] == left[0] && cs[1..] == left[1..] + Flat(todo)
  {}

  // ---- no deadlock, termination, and the same outcome under every schedule ----

  /** In every state that satisfies the invariant some process can move, or all is done. */
  lemma Progress<S(!new)>(e: Env<S>, s: Sys<S>, left: seq<string>, flight: seq<string>)
    requires Inv(e, s, left, flight) && e.C >= 1 && e.D >= 1
    ensures !Stuck(e, s)
  {
    assert |s.line| + |s.c2s| + |s.out| == |Concat(left)|;
    assert |s.got| + |s.s2c| + |s.pend| == |Concat(flight)|;
    if s.out != "" {
      assert s.pend != "" ==> flight != [];
      assert Enabled(e, s, ClientWrite) || Enabled(e, s, ServerWrite) || Enabled(e, s, ServerRead);
    } else if s.owed > 0 {
      assert s.s2c == "" && s.pend == "" ==> flight == [];
      assert left != [] ==> '\n' in Concat(left) by { if left != [] { HasLf(left[0], Concat(left[1..])); } }
      assert s.c2s == "" ==> s.line + s.c2s + s.out == s.line;
      assert Enabled(e, s, ClientRead) || Enabled(e, s, ServerWrite) || Enabled(e, s, ServerRead);
    } else if s.todo != [] {
      assert Enabled(e, s, Begin);
    }
  }

  lemma HasLf(w: string, rest: string)
    requires IsCommand(w)
    ensures '\n' in w + rest
  {
    assert w[|w| - 2..][1] == '\n';
    assert (w + rest)[|w| - 1] == '\n';
  }

  /** Bytes still to be moved, each counted once per hop; `total` is the length of all
      replies together. */
  function Measure<S>(s: Sys<S>, total: nat): int {
    2 * total - 2 * (|Concat(s.replies)| + |s.got|) - |s.s2c|
    + 2 * (|s.out| + |Concat(Flat(s.todo))|) + |s.c2s| + |s.todo|
  }

  lemma MeasureStep<S(!new)>(e: Env<S>, s: Sys<S>, m: Move, total: nat)
    requires Enabled(e, s, m)
    ensures Measure(Apply(e, s, m), total) == Measure(s, total) - 1
  {
    if m.Begin? { ConcatAppend(s.todo[0], Flat(s.todo[1..])); }
    if m.ClientRead? {
      var g := s.got + [s.s2c[0]];
      ConcatOne(g);
      ConcatAppend(s.replies, [g]);
    }
  }

  lemma MeasureBound<S(!new)>(e: Env<S>, s: Sys<S>, left: seq<string>, flight: seq<string>)
    requires Inv(e, s, left, flight)
    ensures Measure(s, |Concat(Outlook(e, s, left, flight).0)|) >= 0
  {
    var rest := Replies(e, s.srv, left + Flat(s.todo));
    ConcatAppend(s.replies + flight, rest);
    ConcatAppend(s.replies, flight);
  }

  /** One step from an invariant state leads to an invariant state with the same outlook. */
  lemma Step<S(!new)>(e: Env<S>, s: Sys<S>, m: Move, left: seq<string>, flight: seq<string>)
    returns (left': seq<string>, flight': seq<string>)
    requires Conforming(e) && Inv(e, s, left, flight) && Enabled(e, s, m)
    ensures Inv(e, Apply(e, s, m), left', flight')
    ensures Outlook(e, Apply(e, s, m), left', flight') == Outlook(e, s, left, flight)
  {
    var t := Apply(e, s, m);
    match m
    case Begin =>
      assert left == [] && flight == [];
      StepBegin(e, s);
      left', flight' := s.todo[0], [];
    case ClientWrite =>
      StepClientWrite(e, s, left, flight);
      left', flight' := left, flight;
    case ServerWrite =>
      StepServerWrite(e, s, left, flight);
      left', flight' := left, flight;
    case ClientRead =>
      StepClientRead(e, s, left, flight);
      left', flight' := left, if t.replies == s.replies then flight else flight[1..];
    case ServerRead =>
      StepServerRead(e, s, left, flight);
      left', flight' := left, flight;
      if s.c2s[0] == '\n' { left', flight' := left[1..], flight + [t.pend]; }
  }

  lemma {:induction false} RunInv<S(!new)>(e: Env<S>, s: Sys<S>, moves: seq<Move>, t: Sys<S>, left: seq<string>,
                                           flight: seq<string>)
    returns (left': seq<string>, flight': seq<string>)
    requires Conforming(e) && Inv(e, s, left, flight) && Runs(e, s, moves, t)
    ensures Inv(e, t, left', flight')
    ensures Outlook(e, t, left', flight') == Outlook(e, s, left, flight)
    ensures forall total: nat :: Measure(t, total) == Measure(s, total) - |moves|
    decreases |moves|
  {
    left', flight' := left, flight;
    if moves != [] {
      var l, f := Step(e, s, moves[0], left, flight);
      forall total: nat ensures Measure(Apply(e, s, moves[0]), total) == Measure(s, total) - 1 {
        MeasureStep(e, s, moves[0], total);
      }
      left', flight' := RunInv(e, Apply(e, s, moves[0]), moves[1..], t, l, f);
    }
  }

  lemma StartInv<S(!new)>(e: Env<S>, s: S, ws: seq<seq<string>>)
    requires AllFit(e, ws)
    ensures Inv(e, Start(s, ws), [], [])
    ensures Outlook(e, Start(s, ws), [], []) == (Replies(e, s, Flat(ws)), Final(e, s, Flat(ws)))
  {
    assert [] + Flat(ws) == Flat(ws);
    assert [] + [] + Replies(e, s, Flat(ws)) == Replies(e, s, Flat(ws));
  }

  /** Main result. From the start of a windowed batch, under every schedule: nothing ever
      gets stuck; no schedule is longer than a fixed number of steps; and whenever the
      client is done, it holds exactly the replies of running the commands one by one,
      the server is in the state of running them one by one, and no byte is left over. */
  lemma EverySchedule<S(!new)>(e: Env<S>, s: S, ws: seq<seq<string>>, moves: seq<Move>, t: Sys<S>)
    requires Conforming(e) && AllFit(e, ws) && e.C >= 1 && e.D >= 1
    requires Runs(e, Start(s, ws), moves, t)
    ensures !Stuck(e, t)
    ensures |moves| <= 2 * |Concat(Replies(e, s, Flat(ws)))| + 2 * |Concat(Flat(ws))| + |ws|
    ensures Finished(t) ==> t.replies == Replies(e, s, Flat(ws)) && t.srv == Final(e, s, Flat(ws))
    ensures Finished(t) ==> t.c2s == t.s2c == t.pend == t.line == t.got == ""
    ensures Finished(t) ==> |moves| == 2 * |Concat(Replies(e, s, Flat(ws)))| + 2 * |Concat(Flat(ws))| + |ws|
  {
    StartInv(e, s, ws);
    var left, flight := RunInv(e, Start(s, ws), moves, t, [], []);
    Progress(e, t, left, flight);
    MeasureBound(e, t, left, flight);
    var total := |Concat(Replies(e, s, Flat(ws)))|;
    assert Measure(t, total) == Measure(Start(s, ws), total) - |moves|;
    if Finished(t) { AtTheEnd(e, t, left, flight); }
  }

  lemma AtTheEnd<S(!new)>(e: Env<S>, t: Sys<S>, left: seq<string>, flight: seq<string>)
    requires Inv(e, t, left, flight) && Finished(t)
    ensures Outlook(e, t, left, flight) == (t.replies, t.srv)
    ensures t.c2s == t.s2c == t.pend == t.line == t.got == ""
  {
    assert left == [] && flight == [];
    assert t.line + t.c2s + t.out == "" && t.got + t.s2c + t.pend == "";
    assert left + Flat(t.todo) == [];
    assert t.replies + flight + [] == t.replies;
  }

  // ---- the capacity bound is exact ----

  lemma {:induction false} RunsAppend<S>(e: Env<S>, s: Sys<S>, a: seq<Move>, t: Sys<S>, b: seq<Move>, u: Sys<S>)
    requires Runs(e, s, a, t) && Runs(e, t, b, u)
    ensures Runs(e, s, a + b, u)
    decreases |a|
  {
    if a == [] {
      assert a + b == b;
    } else {
      RunsAppend(e, Apply(e, s, a[0]), a[1..], t, b, u);
      assert (a + b)[0] == a[0] && (a + b)[1..] == a[1..] + b;
    }
  }

  /** The client writes n bytes into a pipe with room for them. */
  lemma {:induction false} WriteMany<S>(e: Env<S>, s: Sys<S>, n: nat) returns (moves: seq<Move>)
    requires n <= |s.out| && |s.c2s| + n <= e.C
    ensures Runs(e, s, moves, s.(out := s.out[n..], c2s := s.c2s + s.out[..n]))
    decreases n
  {
    var t := s.(out := s.out[n..], c2s := s.c2s + s.out[..n]);
    moves := [];
    if n == 0 {
      assert s.out[0..] == s.out && s.c2s + s.out[..0] == s.c2s;
    } else {
      var s' := Apply(e, s, ClientWrite);
      var rest := WriteMany(e, s', n - 1);
      assert s'.out[n - 1..] == s.out[n..];
      assert s'.c2s + s'.out[..n - 1] == s.c2s + s.out[..n];
      moves := [ClientWrite] + rest;
      assert moves[0] == ClientWrite && moves[1..] == rest;
    }
  }

  /** The server writes n bytes of a reply into a pipe with room for them. */
  lemma {:induction false} ReplyMany<S>(e: Env<S>, s: Sys<S>, n: nat) returns (moves: seq<Move>)
    requires n < |s.pend| && |s.s2c| + n <= e.D
    ensures Runs(e, s, moves, s.(pend := s.pend[n..], s2c := s.s2c + s.pend[..n]))
    decreases n
  {
    moves := [];
    if n == 0 {
      assert s.pend[0..] == s.pend && s.s2c + s.pend[..0] == s.s2c;
    } else {
      var s' := Apply(e, s, ServerWrite);
      var rest := ReplyMany(e, s', n - 1);
      assert s'.pend[n - 1..] == s.pend[n..];
      assert s'.s2c + s'.pend[..n - 1] == s.s2c + s.pend[..n];
      moves := [ServerWrite] + rest;
      assert moves[0] == ServerWrite && moves[1..] == rest;
    }
  }

  /** The client writes and the server reads n bytes without a line feed, one by one. */
  lemma {:induction false} PassMany<S>(e: Env<S>, s: Sys<S>, n: nat) returns (moves: seq<Move>)
    requires n <= |s.out| && '\n' !in s.out[..n] && s.c2s == "" && s.pend == "" && e.C >= 1
    ensures Runs(e, s, moves, s.(out := s.out[n..], line := s.line + s.out[..n]))
    decreases n
  {
    moves := [];
    if n == 0 {
      assert s.out[0..] == s.out && s.line + s.out[..0] == s.line;
    } else {
      assert s.out[..n][0] == s.out[0];
      var s1 := Apply(e, s, ClientWrite);
      assert s1.c2s == [s.out[0]];
      var s2 := Apply(e, s1, ServerRead);
      assert s2 == s.(out := s.out[1..], line := s.line + [s.out[0]]);
      assert forall i :: 0 <= i < n - 1 ==> s2.out[i] == s.out[..n][i + 1];
      var rest := PassMany(e, s2, n - 1);
      assert s2.out[n - 1..] == s.out[n..];
      assert s2.line + s2.out[..n - 1] == s.line + s.out[..n];
      moves := [ClientWrite, ServerRead] + rest;
      assert moves[0] == ClientWrite && moves[1..][0] == ServerRead && moves[1..][1..] == rest;
    }
  }

  /** The first command of a window crosses byte by byte and is executed. */
  lemma FirstCommand<S>(e: Env<S>, s: Sys<S>, first: string, tail: string) returns (moves: seq<Move>)
    requires IsCommand(first) && s.out == first + tail && e.C >= 1
    requires s.c2s == s.pend == s.line == ""
    ensures var (srv, r) := e.exec(s.srv, Bare(first)); Runs(e, s, moves, s.(out := tail, srv := srv, pend := r))
  {
    var n := |first| - 1;
    FirstBytes(first);
    assert s.out[..n] == first[..n];
    var m := PassMany(e, s, n);
    var s2 := s.(out := s.out[n..], line := s.line + s.out[..n]);
    assert s2.line == first[..n] && s2.out == ['\n'] + tail;
    var s3 := Apply(e, s2, ClientWrite);
    assert s3.out == tail && s3.c2s == ['\n'];
    var s4 := Apply(e, s3, ServerRead);
    assert s4.c2s == "";
    OneMove(e, s2, ClientWrite);
    OneMove(e, s3, ServerRead);
    RunsAppend(e, s, m, s2, [ClientWrite], s3);
    RunsAppend(e, s, m + [ClientWrite], s3, [ServerRead], s4);
    moves := m + [ClientWrite] + [ServerRead];
  }

  /** When the commands behind the first do not fit into the client-to-server pipe, and
      the first reply does not fit into the other, the window can get stuck: the window
      bound of `EverySchedule` cannot be relaxed. `s` is any moment at which the client is
      about to begin a window and all pipes are empty. */
  lemma TooLongAWindowSticks<S(!new)>(e: Env<S>, s: Sys<S>) returns (moves: seq<Move>, t: Sys<S>)
    requires e.C >= 1 && s.todo != [] && s.todo[0] != [] && IsCommand(s.todo[0][0])
    requires s.out == "" && s.owed == 0 && s.c2s == s.s2c == s.line == s.pend == ""
    requires |Concat(s.todo[0][1..])| > e.C
    requires |e.exec(s.srv, Bare(s.todo[0][0])).1| > e.D
    ensures Runs(e, s, moves, t) && Stuck(e, t)
  {
    var first, tail := s.todo[0][0], Concat(s.todo[0][1..]);
    var s1 := Apply(e, s, Begin);
    OneMove(e, s, Begin);
    var m1 := FirstCommand(e, s1, first, tail);
    var (srv, r) := e.exec(s.srv, Bare(first));
    var s4 := s1.(out := tail, srv := srv, pend := r);
    RunsAppend(e, s, [Begin], s1, m1, s4);
    var m2, u := FillPipes(e, s4);
    RunsAppend(e, s, [Begin] + m1, s4, m2, u);
    moves, t := [Begin] + m1 + m2, u;
  }

  lemma FillPipes<S(!new)>(e: Env<S>, s: Sys<S>) returns (moves: seq<Move>, t: Sys<S>)
    requires s.c2s == s.s2c == "" && |s.out| > e.C && |s.pend| > e.D
    ensures Runs(e, s, moves, t) && Stuck(e, t)
  {
    var m2 := ReplyMany(e, s, e.D);
    var s5 := s.(pend := s.pend[e.D..], s2c := s.s2c + s.pend[..e.D]);
    var m3 := WriteMany(e, s5, e.C);
    t := s5.(out := s5.out[e.C..], c2s := s5.c2s + s5.out[..e.C]);
    RunsAppend(e, s, m2, s5, m3, t);
    moves := m2 + m3;
  }

  lemma OneMove<S>(e: Env<S>, s: Sys<S>, m: Move)
    requires Enabled(e, s, m)
    ensures Runs(e, s, [m], Apply(e, s, m))
  {
    assert [m][1..] == [];
  }

  lemma FirstBytes(w: string)
    requires IsCommand(w)
    ensures var n := |w| - 1; '\n' !in w[..n] && w[n] == '\n' && StripCr(w[..n]) == Bare(w)
  {
    var n := |w| - 1;
    assert w[n] == w[|w| - 2..][1] && w[n - 1] == w[|w| - 2..][0];
    assert forall i :: 0 <= i < |w| - 2 ==> w[i] == w[..|w| - 2][i];
    assert w[..n][..n - 1] == w[..|w| - 2];
  }

  ghost predicate NeverStuck<S(!new)>(e: Env<S>, s: Sys<S>) {
    forall moves, t :: Runs(e, s, moves, t) ==> !Stuck(e, t)
  }

  /** For a single window and a first reply longer than the pipe back, the bound is exact:
      no schedule can get stuck if and only if the commands behind the first fit. */
  lemma WindowBoundIsExact<S(!new)>(e: Env<S>, s: S, w: seq<string>)
    requires Conforming(e) && e.C >= 1 && e.D >= 1
    requires w != [] && forall i :: 0 <= i < |w| ==> Issued(e, w[i])
    requires |e.exec(s, Bare(w[0])).1| > e.D
    ensures NeverStuck(e, Start(s, [w])) <==> |Concat(w[1..])| <= e.C
  {
    if |Concat(w[1..])| <= e.C {
      assert Fits(e, w);
      forall moves, t | Runs(e, Start(s, [w]), moves, t) ensures !Stuck(e, t) {
        EverySchedule(e, s, [w], moves, t);
      }
    } else {
      assert Issued(e, w[0]);
      var moves, t := TooLongAWindowSticks(e, Start(s, [w]));
    }
  }
}
