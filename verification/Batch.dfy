/** What a finished batch says about the server, whichever way it was carried out. */
module Batch {
  import opened Basics
  import opened Strings
  import opened Wire
  import opened Response
  import opened Server
  import opened Pipeline
  import opened Connection
  import opened Meaning
  import opened Exchange
  import opened Window
  import Schedule

  predicate NoLoss<T>(rs: seq<Result<T>>) { forall i :: 0 <= i < |rs| ==> !IsLost(rs[i]) }

  lemma NothingLost<T(!new)>(l0: Link, l1: Link, cs: seq<Command>, rs: seq<Result<T>>, meaning: Reply -> Result<T>,
                             k: nat, m: nat)
    requires BatchDone(l0, l1, cs, rs, meaning, k, m)
    ensures NoLoss(rs) ==> k == |cs|
    ensures k == |cs| ==> Truthful(l0.server, cs, rs, meaning) && l1.server == After(l0.server, cs)
  {
    if k < |cs| { assert IsLost(rs[k]); }
    assert rs[..|rs|] == rs && cs[..|cs|] == cs;
  }

  /** Pipelining cannot be observed. Take two executions of the same batch from the same
      session, in whatever mode and over whatever connections: if neither lost its
      connection, the results, the final sessions and the empty input are the same. */
  lemma ModesAgree<T(!new)>(a0: Link, a1: Link, b0: Link, b1: Link, cs: seq<Command>, ra: seq<Result<T>>,
                            rb: seq<Result<T>>,
                            meaning: Reply -> Result<T>, ka: nat, ma: nat, kb: nat, mb: nat)
    requires a0.server == b0.server && cs != []
    requires BatchDone(a0, a1, cs, ra, meaning, ka, ma) && BatchDone(b0, b1, cs, rb, meaning, kb, mb)
    requires NoLoss(ra) && NoLoss(rb)
    ensures ra == rb && a1.server == b1.server == After(a0.server, cs) && a1.inbound == b1.inbound == ""
  {
    NothingLost(a0, a1, cs, ra, meaning, ka, ma);
    NothingLost(b0, b1, cs, rb, meaning, kb, mb);
    assert cs[..|cs|] == cs && ra[..|cs|] == ra && rb[..|cs|] == rb;
  }

  /** On reliable connections neither mode loses anything, so they always agree. */
  lemma ReliableModesAgree<T(!new)>(a0: Link, a1: Link, b0: Link, b1: Link, cs: seq<Command>, ra: seq<Result<T>>,
                                    rb: seq<Result<T>>,
                                    meaning: Reply -> Result<T>, ka: nat, ma: nat, kb: nat, mb: nat)
    requires a0.server == b0.server && a0.reliable && b0.reliable && !Broken(a0) && !Broken(b0)
    requires BatchDone(a0, a1, cs, ra, meaning, ka, ma) && BatchDone(b0, b1, cs, rb, meaning, kb, mb)
    ensures ra == rb && a1.server == b1.server == After(a0.server, cs) && a1.inbound == b1.inbound == ""
  {
    assert cs[..|cs|] == cs && ra[..|cs|] == ra && rb[..|cs|] == rb;
  }

  /** `read_retr_response` and `read_dele_response` as functions of the bytes of one reply. */
  function ReadRetr(bytes: string): Result<Message> {
    match TakeLine(bytes)
    case None => Err(ConnectionClosed)
    case Some((line, rest)) =>
      match ParseStatus(line)
      case Err(e) => Err(e)
      case Ok(_) =>
        match Decode(rest)
        case None => Err(ConnectionClosed)
        case Some((data, _)) => Ok(Message(data))
  }

  function ReadDele(bytes: string): Result<()> {
    match TakeLine(bytes)
    case None => Err(ConnectionClosed)
    case Some((line, _)) =>
      match ParseStatus(line)
      case Err(e) => Err(e)
      case Ok(_) => Ok(())
  }

  lemma ReadersRecover(reply: Reply)
    ensures !reply.Plus? ==> ReadRetr(Render(reply)) == MessageOf(reply)
    ensures ReadDele(Render(reply)) == AckOf(reply)
  {
    RenderHead(reply);
    if reply.Data? { BodyDecodes(reply); }
  }

  /** Schedules cannot be observed either. Let client and server run as two processes over
      small pipes, byte by byte, in any order: once the client is done, the replies it has
      read mean exactly what any execution of the batch returns that starts from the same
      session and loses nothing, and the session is the same. */
  lemma RetrScheduleAgrees(ids: seq<nat>, l0: Link, l1: Link, rs: seq<Result<Message>>, k: nat, m: nat,
                           C: nat, D: nat, moves: seq<Schedule.Move>, t: Schedule.Sys<Session>)
    requires C >= 51 && D >= 1 && forall i :: 0 <= i < |ids| ==> ids[i] <= U32_MAX
    requires BatchDone(l0, l1, Commands(Retrieve, ids), rs, MessageOf, k, m) && NoLoss(rs)
    requires Schedule.Runs(World(Retrieve, C, D), Schedule.Start(l0.server, Windows(Commands(Retrieve, ids))), moves, t)
    requires Schedule.Finished(t)
    ensures t.srv == l1.server
    ensures |t.replies| == |rs| && forall i :: 0 <= i < |rs| ==> rs[i] == ReadRetr(t.replies[i])
  {
    var cs := Commands(Retrieve, ids);
    BatchUnderEverySchedule(Retrieve, ids, l0.server, C, D, moves, t);
    NothingLost(l0, l1, cs, rs, MessageOf, k, m);
    forall i | 0 <= i < |rs| ensures rs[i] == ReadRetr(t.replies[i]) {
      BatchReplyShape(l0.server, Retrieve, ids, i);
      ReadersRecover(ReplyAt(l0.server, cs, i));
    }
  }

  lemma DeleScheduleAgrees(ids: seq<nat>, l0: Link, l1: Link, rs: seq<Result<()>>, k: nat, m: nat,
                           C: nat, D: nat, moves: seq<Schedule.Move>, t: Schedule.Sys<Session>)
    requires C >= 51 && D >= 1 && forall i :: 0 <= i < |ids| ==> ids[i] <= U32_MAX
    requires BatchDone(l0, l1, Commands(Delete, ids), rs, AckOf, k, m) && NoLoss(rs)
    requires Schedule.Runs(World(Delete, C, D), Schedule.Start(l0.server, Windows(Commands(Delete, ids))), moves, t)
    requires Schedule.Finished(t)
    ensures t.srv == l1.server
    ensures |t.replies| == |rs| && forall i :: 0 <= i < |rs| ==> rs[i] == ReadDele(t.replies[i])
  {
    var cs := Commands(Delete, ids);
    BatchUnderEverySchedule(Delete, ids, l0.server, C, D, moves, t);
    NothingLost(l0, l1, cs, rs, AckOf, k, m);
    forall i | 0 <= i < |rs| ensures rs[i] == ReadDele(t.replies[i]) {
      ReadersRecover(ReplyAt(l0.server, cs, i));
    }
  }

  /** The ids whose DELE was acknowledged. */
  function Acknowledged(ids: seq<nat>, rs: seq<Result<()>>): set<nat>
    requires |rs| <= |ids|
  {
    set i | 0 <= i < |rs| && rs[i].Ok? :: ids[i]
  }

  /** The ids among the k-th to the m-th command that the server obeyed. */
  function Executed(s: Session, ids: seq<nat>, k: nat, m: nat): set<nat>
    requires k <= m <= |ids|
  {
    set i | k <= i < m && !ReplyAt(s, Commands(Delete, ids), i).Minus? :: ids[i]
  }

  lemma DeleMark(s: Session, id: nat)
    ensures var s' := Next(s, Command.Dele(id));
            s'.box == s.box && s'.ended == s.ended &&
            s'.marked == if ReplyTo(s, Command.Dele(id)).Minus? then s.marked else s.marked + {id}
    ensures !ReplyTo(s, Command.Dele(id)).Minus? ==> Live(s, id)
  {}

  lemma {:induction false} MarksAfter(s: Session, ids: seq<nat>, n: nat)
    requires n <= |ids|
    ensures var cs := Commands(Delete, ids); var s' := After(s, cs[..n]);
            s'.box == s.box && s'.ended == s.ended && s'.marked == s.marked + Executed(s, ids, 0, n)
  {
    var cs := Commands(Delete, ids);
    if n == 0 {
      assert Executed(s, ids, 0, 0) == {};
    } else {
      MarksAfter(s, ids, n - 1);
      var before, id := After(s, cs[..n - 1]), ids[n - 1];
      assert After(s, cs[..n]) == Next(before, Command.Dele(id)) by { AfterSnoc(s, cs, n - 1); }
      assert ReplyAt(s, cs, n - 1) == ReplyTo(before, Command.Dele(id)) by { ReplyAtState(s, cs, n - 1); }
      DeleMark(before, id);
      ExecutedSnoc(s, ids, 0, n - 1);
    }
  }

  /** A command that the server refused changed nothing. */
  lemma RefusedUnmarked(s: Session, ids: seq<nat>, i: nat)
    requires i < |ids| && ReplyAt(s, Commands(Delete, ids), i).Minus?
    ensures var cs := Commands(Delete, ids); After(s, cs[..i + 1]).marked == After(s, cs[..i]).marked
  {
    var cs := Commands(Delete, ids);
    AfterSnoc(s, cs, i);
    ReplyAtState(s, cs, i);
    DeleMark(After(s, cs[..i]), ids[i]);
  }

  lemma ExecutedSize(s: Session, ids: seq<nat>, k: nat, m: nat)
    requires k <= m <= |ids|
    ensures |Executed(s, ids, k, m)| <= m - k
  {
    ImageSize(ids, Executed(s, ids, k, m), k, m);
  }

  /** At most m - k elements lie in m - k places. */
  lemma {:induction false} ImageSize(ids: seq<nat>, a: set<nat>, k: nat, m: nat)
    requires k <= m <= |ids| && forall x :: x in a ==> x in ids[k..m]
    ensures |a| <= m - k
  {
    if k == m {
      assert a == {};
    } else {
      var x := ids[m - 1];
      forall y | y in a - {x} ensures y in ids[k..m - 1] {
        var i :| k <= i < m && ids[i] == y;
      }
      ImageSize(ids, a - {x}, k, m - 1);
      SubsetSize(a, (a - {x}) + {x});
    }
  }

  lemma ExecutedSnoc(s: Session, ids: seq<nat>, k: nat, m: nat)
    requires k <= m < |ids|
    ensures Executed(s, ids, k, m + 1) ==
            Executed(s, ids, k, m) + if ReplyAt(s, Commands(Delete, ids), m).Minus? then {} else {ids[m]}
  {}

  /** Acknowledged and executed is the same thing for the answered part of a batch. */
  lemma AnsweredPart(l0: Link, l1: Link, ids: seq<nat>, rs: seq<Result<()>>, k: nat, m: nat)
    requires BatchDone(l0, l1, Commands(Delete, ids), rs, AckOf, k, m)
    ensures forall i :: 0 <= i < k ==> rs[i] == AckOf(ReplyAt(l0.server, Commands(Delete, ids), i))
    ensures Executed(l0.server, ids, 0, k) == Acknowledged(ids, rs)
  {
    var s, cs := l0.server, Commands(Delete, ids);
    forall i | 0 <= i < k ensures rs[i] == AckOf(ReplyAt(s, cs, i)) { assert rs[..k][i] == rs[i]; }
    forall id | id in Acknowledged(ids, rs) ensures id in Executed(s, ids, 0, k) {
      var i :| 0 <= i < |rs| && rs[i].Ok? && id == ids[i];
      assert i < k;
    }
  }

  /** An item that carries an answer of the server carries the answer to its command. */
  lemma RefusedItem(l0: Link, l1: Link, ids: seq<nat>, rs: seq<Result<()>>, k: nat, m: nat, i: nat)
    requires BatchDone(l0, l1, Commands(Delete, ids), rs, AckOf, k, m) && i < |ids|
    requires rs[i].Err? && !IsLost(rs[i])
    ensures ReplyAt(l0.server, Commands(Delete, ids), i).Minus?
    ensures var cs := Commands(Delete, ids); After(l0.server, cs[..i + 1]).marked == After(l0.server, cs[..i]).marked
  {
    AnsweredPart(l0, l1, ids, rs, k, m);
    assert i < k;
    RefusedUnmarked(l0.server, ids, i);
  }

  /** Exact account of a DELE batch, failed or not: the marks are the old ones, the
      acknowledged ids, and those of a stretch of m - k commands in doubt. */
  lemma DeleBatchAccount(l0: Link, l1: Link, ids: seq<nat>, rs: seq<Result<()>>, k: nat, m: nat)
    requires BatchDone(l0, l1, Commands(Delete, ids), rs, AckOf, k, m)
    ensures l1.server.box == l0.server.box && l1.server.ended == l0.server.ended
    ensures l1.server.marked == l0.server.marked + Acknowledged(ids, rs) + Executed(l0.server, ids, k, m)
    ensures |Executed(l0.server, ids, k, m)| <= m - k
    ensures k == |ids| ==> Executed(l0.server, ids, k, m) == {}
  {
    var s := l0.server;
    var acked, doubt := Acknowledged(ids, rs), Executed(s, ids, k, m);
    assert Executed(s, ids, 0, k) == acked by { AnsweredPart(l0, l1, ids, rs, k, m); }
    assert Executed(s, ids, 0, m) == acked + doubt by { ExecutedSplits(s, ids, k, m); }
    ExecutedSize(s, ids, k, m);
    ExecutedSplits(s, ids, k, m);
    MarksAfter(s, ids, m);
  }

  lemma ExecutedSplits(s: Session, ids: seq<nat>, k: nat, m: nat)
    requires k <= m <= |ids|
    ensures Executed(s, ids, 0, m) == Executed(s, ids, 0, k) + Executed(s, ids, k, m)
    ensures k == m ==> Executed(s, ids, k, m) == {}
  {}

  /** A pipelined DELE batch that fails leaves at most one window of ids in doubt. */
  lemma FailedPipelineDoubt(l0: Link, l1: Link, ids: seq<nat>, rs: seq<Result<()>>, k: nat, m: nat)
    requires BatchDone(l0, l1, Commands(Delete, ids), rs, AckOf, k, m) && m - k <= PIPELINE_WINDOW
    ensures Acknowledged(ids, rs) <= l1.server.marked
    ensures |l1.server.marked - l0.server.marked - Acknowledged(ids, rs)| <= PIPELINE_WINDOW
  {
    DeleBatchAccount(l0, l1, ids, rs, k, m);
    var d := Executed(l0.server, ids, k, m);
    var x := l1.server.marked - l0.server.marked - Acknowledged(ids, rs);
    assert x <= d;
    SubsetSize(x, d);
  }

  lemma {:induction false} SubsetSize(a: set<nat>, b: set<nat>)
    requires a <= b
    ensures |a| <= |b|
  {
    assert b == a + (b - a);
  }

  /** RETR batches never touch the mailbox. */
  lemma {:induction false} RetrKeepsMail(s: Session, ids: seq<nat>)
    ensures SameMail(s, After(s, Commands(Retrieve, ids)))
    decreases |ids|
  {
    if ids != [] {
      var cs := Commands(Retrieve, ids);
      assert cs[1..] == Commands(Retrieve, ids[1..]);
      RetrKeepsMail(Next(s, cs[0]), ids[1..]);
    }
  }

  lemma RetrBatchAccount(l0: Link, l1: Link, ids: seq<nat>, rs: seq<Result<Message>>, k: nat, m: nat)
    requires BatchDone(l0, l1, Commands(Retrieve, ids), rs, MessageOf, k, m)
    ensures SameMail(l0.server, l1.server)
  {
    assert Commands(Retrieve, ids)[..m] == Commands(Retrieve, ids[..m]);
    RetrKeepsMail(l0.server, ids[..m]);
  }

  /** Every message of a RETR batch is the whole of the message that was asked for. */
  lemma RetrBatchContent(l0: Link, l1: Link, ids: seq<nat>, rs: seq<Result<Message>>, k: nat, m: nat, i: nat)
    requires BatchDone(l0, l1, Commands(Retrieve, ids), rs, MessageOf, k, m) && i < |ids|
    ensures rs[i].Ok? ==> Live(l0.server, ids[i]) && rs[i].value == Content(l0.server, ids[i])
  {
    if rs[i].Ok? {
      var cs := Commands(Retrieve, ids);
      assert i < k && rs[i] == rs[..k][i];
      ReplyAtState(l0.server, cs, i);
      assert cs[..i] == Commands(Retrieve, ids[..i]);
      RetrKeepsMail(l0.server, ids[..i]);
      RetrContent(After(l0.server, cs[..i]), ids[i]);
    }
  }
}
