/** Batches of RETR or DELE: the outcome they promise, and the bookkeeping of the windowed
    and of the sequential execution. */
module Window {
  import opened Basics
  import opened Strings
  import opened Response
  import opened Server
  import opened Pipeline
  import opened Connection
  import opened Meaning
  import opened Exchange
  import Net = Transport

  // ---- outcome of a batch, window by window ----

  /** The outcome of a batch. The first k results are the server's true answers to the first
      k commands, in order; all others report a lost connection. The server has executed
      the first m commands, k <= m, and no others. */
  ghost predicate BatchDone<T(!new)>(l0: Link, l1: Link, cs: seq<Command>, rs: seq<Result<T>>,
                                     meaning: Reply -> Result<T>,
                                     k: nat, m: nat)
  {
    |rs| == |cs| && k <= m <= |cs|
    && l1.server == After(l0.server, cs[..m])
    && l1.reliable == l0.reliable
    && Truthful(l0.server, cs, rs[..k], meaning)
    && (forall i :: k <= i < |cs| ==> IsLost(rs[i]))
    && (if k == |cs| then !Broken(l0) && !Broken(l1) && l1.inbound == "" else Broken(l1))
    && (Broken(l0) ==> k == 0)
    && (l0.reliable && !Broken(l0) ==> k == |cs|)
  }

  /** Every result is the meaning of the answer to its command. */
  ghost predicate Truthful<T(!new)>(s: Session, cs: seq<Command>, rs: seq<Result<T>>, meaning: Reply -> Result<T>) {
    |rs| <= |cs| && forall i :: 0 <= i < |rs| ==> rs[i] == meaning(ReplyAt(s, cs, i))
  }

  function Failures<T>(e: Error, n: nat): seq<Result<T>> { seq(n, i => Err(e)) }

  /** All commands so far have been answered. */
  ghost predicate SoFar<T(!new)>(l0: Link, l: Link, cs: seq<Command>, rs: seq<Result<T>>, meaning: Reply -> Result<T>) {
    |rs| <= |cs|
    && l.server == After(l0.server, cs[..|rs|])
    && l.reliable == l0.reliable
    && Truthful(l0.server, cs, rs, meaning)
    && (if rs == [] then l == l0 else !Broken(l0) && !Broken(l) && l.inbound == "")
  }

  lemma AllSoFar<T(!new)>(l0: Link, l: Link, cs: seq<Command>, rs: seq<Result<T>>, meaning: Reply -> Result<T>)
    requires SoFar(l0, l, cs, rs, meaning) && |rs| == |cs| > 0
    ensures BatchDone(l0, l, cs, rs, meaning, |cs|, |cs|)
  {
    assert cs[..|cs|] == cs && rs[..|rs|] == rs;
  }

  lemma AfterNothing(s: Session, cs: seq<Command>)
    ensures After(s, cs[..0]) == s
  {}

  /** A run in the middle of a run. */
  lemma Inner(s: Session, cs: seq<Command>, i: nat, n: nat, j: nat)
    requires j <= n && i + n <= |cs|
    ensures After(After(s, cs[..i]), cs[i..i + n][..j]) == After(s, cs[..i + j])
  {
    assert cs[..i + j] == cs[..i] + cs[i..i + n][..j];
    AfterAppend(s, cs[..i], cs[i..i + n][..j]);
  }

  lemma InnerReply(s: Session, cs: seq<Command>, i: nat, n: nat, j: nat)
    requires j < n && i + n <= |cs|
    ensures ReplyAt(After(s, cs[..i]), cs[i..i + n], j) == ReplyAt(s, cs, i + j)
  {
    var s' := After(s, cs[..i]);
    assert cs[i..i + n][j] == cs[i + j];
    assert ReplyAt(s, cs, i + j) == ReplyTo(After(s, cs[..i + j]), cs[i + j]) by { ReplyAtState(s, cs, i + j); }
    assert ReplyAt(s', cs[i..i + n], j) == ReplyTo(After(s', cs[i..i + n][..j]), cs[i + j]) by {
      ReplyAtState(s', cs[i..i + n], j);
    }
    Inner(s, cs, i, n, j);
  }

  lemma TruthfulAppend<T(!new)>(s: Session, cs: seq<Command>, rs: seq<Result<T>>, ws: seq<Result<T>>, n: nat,
                                meaning: Reply -> Result<T>)
    requires Truthful(s, cs, rs, meaning) && |rs| + n <= |cs|
    requires Truthful(After(s, cs[..|rs|]), cs[|rs|..|rs| + n], ws, meaning)
    ensures Truthful(s, cs, rs + ws, meaning)
  {
    var i := |rs|;
    forall j | i <= j < i + |ws| ensures (rs + ws)[j] == meaning(ReplyAt(s, cs, j)) {
      InnerReply(s, cs, i, n, j - i);
      assert ws[j - i] == meaning(ReplyAt(After(s, cs[..i]), cs[i..i + n], j - i));
    }
  }

  lemma TruthfulOne<T(!new)>(s: Session, cs: seq<Command>, rs: seq<Result<T>>, r: Result<T>,
                             meaning: Reply -> Result<T>)
    requires Truthful(s, cs, rs, meaning) && |rs| < |cs|
    ensures r == meaning(ReplyAt(s, cs, |rs|)) ==> Truthful(s, cs, rs + [r], meaning)
  {}

  lemma CommandsSlice(kind: Kind, ids: seq<nat>, i: nat, n: nat)
    requires i + n <= |ids|
    ensures Commands(kind, ids[i..i + n]) == Commands(kind, ids)[i..i + n]
  {}

  function WindowSize(total: nat, done: nat): nat
    requires done <= total
  {
    if total - done < PIPELINE_WINDOW then total - done else PIPELINE_WINDOW
  }

  /** The windows of a batch are the chunks of which the byte-level model speaks. */
  lemma WindowIsChunk(kind: Kind, ids: seq<nat>, done: nat)
    requires done < |ids|
    ensures var n := WindowSize(|ids|, done);
            Windows(Commands(kind, ids[done..])) ==
              [SentAll(Commands(kind, ids[done..done + n]))] + Windows(Commands(kind, ids[done + n..]))
  {
    var n, rest := WindowSize(|ids|, done), ids[done..];
    var ws := SentAll(Commands(kind, rest));
    assert SentAll(Commands(kind, ids[done..done + n])) == ws[..n];
    assert SentAll(Commands(kind, ids[done + n..])) == ws[n..];
    assert n == |ws| ==> ws[..n] == ws && ws[n..] == [];
  }

  /** The results after a window; if it failed, all that is missing counts as lost. */
  function Extend<T>(rs: seq<Result<T>>, ws: seq<Result<T>>, n: nat, total: nat, e: Error): seq<Result<T>> {
    if |ws| < n && |rs| + |ws| <= total then rs + ws + Failures(e, total - |rs| - |ws|) else rs + ws
  }

  /** Where a pipelined batch stands: all answered so far, or over after k answers and m
      executed commands. */
  datatype Progress = Going | Over(k: nat, m: nat)

  ghost predicate ChunkDone<T(!new)>(l0: Link, l1: Link, cs: seq<Command>, rs: seq<Result<T>>,
                                     meaning: Reply -> Result<T>, done: nat, p: Progress)
  {
    match p
    case Going => SoFar(l0, l1, cs, rs, meaning) && |rs| > done
    case Over(k, m) => BatchDone(l0, l1, cs, rs, meaning, k, m) && m - k <= PIPELINE_WINDOW
  }

  lemma WindowNext<T(!new)>(kind: Kind, ids: seq<nat>, chunk: seq<nat>, n: nat, l0: Link, l: Link, l1: Link,
                            rs: seq<Result<T>>, ws: seq<Result<T>>, rs': seq<Result<T>>,
                            meaning: Reply -> Result<T>, m: nat, e: Error, p: Progress)
    requires |rs| < |ids| && SoFar(l0, l, Commands(kind, ids), rs, meaning) && IsIo(e)
    requires n == WindowSize(|ids|, |rs|) && chunk == ids[|rs|..|rs| + n]
    requires WindowDone(l, l1, Commands(kind, chunk), ws, meaning, m)
    requires rs' == Extend(rs, ws, n, |ids|, e)
    requires p == if |ws| < n then Over(|rs| + |ws|, |rs| + m) else Going
    ensures ChunkDone(l0, l1, Commands(kind, ids), rs', meaning, |rs|, p)
  {
    CommandsSlice(kind, ids, |rs|, n);
    if |ws| < n {
      WindowCut(l0, l, l1, Commands(kind, ids), rs, ws, n, meaning, m, e);
    } else {
      WindowWhole(l0, l, l1, Commands(kind, ids), rs, ws, n, meaning, m);
    }
  }

  /** How a window ends. If it is cut short, the results are to be filled up with Io if it
      could not be written and with ConnectionClosed otherwise, whatever the fault was; the
      closed flag is set exactly if a reply was lost to the end of the stream. */
  predicate WindowLost(l0: Link, l1: Link, short: bool, e: Error, closed0: bool, closed1: bool) {
    l1.fault == l0.fault
    && (short ==> e == if l1.writeDead then Io else ConnectionClosed)
    && (closed1 <==> closed0 || (short && !l1.writeDead && l0.fault.ConnectionClosed?))
  }

  /** The same for a batch that stands at p. */
  predicate CutShort<T(==)>(l0: Link, l1: Link, rs: seq<Result<T>>, p: Progress, closed0: bool, closed1: bool) {
    var k := if p.Over? then p.k else |rs|;
    WindowLost(l0, l1, k < |rs|, if l1.writeDead then Io else ConnectionClosed, closed0, closed1)
    && forall i :: k <= i < |rs| ==> rs[i] == Err(if l1.writeDead then Io else ConnectionClosed)
  }

  lemma WindowFills<T>(l0: Link, l: Link, l1: Link, rs: seq<Result<T>>, ws: seq<Result<T>>, n: nat, total: nat,
                       e: Error, rs': seq<Result<T>>, m: nat, p: Progress, closed0: bool, closed1: bool)
    requires WindowLost(l, l1, |ws| < n, e, closed0, closed1) && l.fault == l0.fault && |rs| + |ws| <= total
    requires |ws| < n ==> |rs| + |ws| < total
    requires rs' == Extend(rs, ws, n, total, e) && p == if |ws| < n then Over(|rs| + |ws|, m) else Going
    ensures CutShort(l0, l1, rs', p, closed0, closed1)
  {}

  lemma WindowWhole<T(!new)>(l0: Link, l: Link, l1: Link, cs: seq<Command>, rs: seq<Result<T>>, ws: seq<Result<T>>,
                             n: nat,
                             meaning: Reply -> Result<T>, m: nat)
    requires SoFar(l0, l, cs, rs, meaning) && 0 < n && |rs| + n <= |cs|
    requires WindowDone(l, l1, cs[|rs|..|rs| + n], ws, meaning, m) && |ws| == n
    ensures SoFar(l0, l1, cs, rs + ws, meaning)
  {
    Inner(l0.server, cs, |rs|, n, m);
    TruthfulAppend(l0.server, cs, rs, ws, n, meaning);
  }

  lemma WindowCut<T(!new)>(l0: Link, l: Link, l1: Link, cs: seq<Command>, rs: seq<Result<T>>, ws: seq<Result<T>>,
                           n: nat,
                           meaning: Reply -> Result<T>, m: nat, e: Error)
    requires SoFar(l0, l, cs, rs, meaning) && 0 < n && |rs| + n <= |cs| && IsIo(e)
    requires WindowDone(l, l1, cs[|rs|..|rs| + n], ws, meaning, m) && |ws| < n
    ensures BatchDone(l0, l1, cs, rs + ws + Failures(e, |cs| - |rs| - |ws|), meaning, |rs| + |ws|, |rs| + m)
  {
    Inner(l0.server, cs, |rs|, n, m);
    TruthfulAppend(l0.server, cs, rs, ws, n, meaning);
    assert forall i :: 0 <= i < |rs + ws| ==> (rs + ws + Failures(e, |cs| - |rs| - |ws|))[i] == (rs + ws)[i];
  }

  /** The outcome of `retr_many` or `dele_many` on an authenticated client. */
  ghost predicate ManyDone<T(!new)>(l0: Link, l1: Link, kind: Kind, ids: seq<nat>, rs: seq<Result<T>>,
                                    meaning: Reply -> Result<T>, k: nat, m: nat)
  {
    if ids == [] then rs == [] && l1 == l0 else BatchDone(l0, l1, Commands(kind, ids), rs, meaning, k, m)
  }

  // ---- sequential execution ----

  /** Sequential execution so far: the first k results are answers, the rest are losses,
      and the server has executed m commands. */
  ghost predicate OneByOne<T(!new)>(l0: Link, l: Link, cs: seq<Command>, rs: seq<Result<T>>,
                                    meaning: Reply -> Result<T>, k: nat, m: nat) {
    k <= m <= |rs| <= |cs|
    && l.server == After(l0.server, cs[..m])
    && l.reliable == l0.reliable
    && Truthful(l0.server, cs, rs[..k], meaning)
    && (forall i :: k <= i < |rs| ==> IsLost(rs[i]))
    && (m < |rs| ==> l.lost)
    && (if rs == [] then l == l0
        else if k == |rs| then !Broken(l0) && !Broken(l) && l.inbound == ""
        else Broken(l))
    && (Broken(l0) ==> k == 0)
    && (l0.reliable && !Broken(l0) ==> k == |rs|)
  }

  lemma OneMore<T(!new)>(l0: Link, l: Link, l1: Link, cs: seq<Command>, rs: seq<Result<T>>, meaning: Reply -> Result<T>,
                         k: nat, m: nat, r: Result<T>) returns (k': nat, m': nat)
    requires OneByOne(l0, l, cs, rs, meaning, k, m) && |rs| < |cs|
    requires Exchanged(l, l1, cs[|rs|], IsLost(r))
    requires !IsLost(r) ==> r == meaning(ReplyTo(l.server, cs[|rs|]))
    ensures OneByOne(l0, l1, cs, rs + [r], meaning, k', m')
    ensures k' == if IsLost(r) then k else |rs| + 1
  {
    var n := |rs|;
    k' := if IsLost(r) then k else n + 1;
    m' := if m < n || l1.server != Next(l.server, cs[n]) then m else n + 1;
    assert m == n ==> After(l0.server, cs[..n + 1]) == Next(l.server, cs[n]) by { AfterSnoc(l0.server, cs, n); }
    assert m == n ==> ReplyAt(l0.server, cs, n) == ReplyTo(l.server, cs[n]) by { ReplyAtState(l0.server, cs, n); }
    var all := rs + [r];
    assert all[..k] == rs[..k];
    if !IsLost(r) {
      assert k == n && rs[..k] == rs && all[..k'] == all;
      TruthfulOne(l0.server, cs, rs, r, meaning);
    }
  }

  /** How many of the commands, each with its answer, the link holds out for in turn. */
  function Lasting(l: Link, cs: seq<Command>): (k: nat)
    ensures k <= |cs|
    decreases |cs|
  {
    if cs == [] || !Survives(l, cs[0]) then 0 else 1 + Lasting(Worn(l, cs[0]), cs[1..])
  }

  /** One command at a time: exactly as many are answered as the link holds out for, and every
      lost one fails by itself, with Io or with the fault of the link. */
  ghost predicate InTurn<T(!new)>(l0: Link, l: Link, cs: seq<Command>, rs: seq<Result<T>>, k: nat, closed0: bool,
                                  closed1: bool)
  {
    k <= |rs| <= |cs| && l.fault == l0.fault
    && Lasting(l0, cs) == (if k == |rs| then k + Lasting(l, cs[k..]) else k)
    && (forall i :: k <= i < |rs| ==> rs[i] == Err(Io) || rs[i] == Err(l0.fault))
    && (closed1 <==> closed0 || exists i :: k <= i < |rs| && rs[i] == Err(ConnectionClosed))
  }

  lemma InTurnMore<T(!new)>(l0: Link, l: Link, l1: Link, cs: seq<Command>, rs: seq<Result<T>>, k: nat, r: Result<T>,
                            k': nat, closed0: bool, closed: bool, closed1: bool)
    requires InTurn(l0, l, cs, rs, k, closed0, closed) && |rs| < |cs| && (k < |rs| ==> Broken(l))
    requires Exchanged(l, l1, cs[|rs|], IsLost(r)) && LostBy(l, r, closed, closed1)
    requires k' == if IsLost(r) then k else |rs| + 1
    ensures InTurn(l0, l1, cs, rs + [r], k', closed0, closed1)
  {
    var n, all := |rs|, rs + [r];
    assert cs[n..][0] == cs[n] && cs[n..][1..] == cs[n + 1..];
    assert all[n] == r && forall i :: 0 <= i < n ==> all[i] == rs[i];
  }

  /** Where a sequential batch stands. */
  ghost predicate Sequential<T(!new)>(l0: Link, l: Link, cs: seq<Command>, rs: seq<Result<T>>,
                                      meaning: Reply -> Result<T>, k: nat, m: nat, closed0: bool, closed: bool)
  {
    OneByOne(l0, l, cs, rs, meaning, k, m) && InTurn(l0, l, cs, rs, k, closed0, closed)
  }

  lemma SequentialStart<T(!new)>(l0: Link, cs: seq<Command>, rs: seq<Result<T>>, meaning: Reply -> Result<T>,
                                 closed0: bool)
    requires rs == []
    ensures Sequential(l0, l0, cs, rs, meaning, 0, 0, closed0, closed0)
  {
    assert cs[0..] == cs && cs[..0] == [] && rs[..0] == [];
  }

  /** The next command of a sequential batch. */
  lemma NextInTurn<T(!new)>(l0: Link, l: Link, l1: Link, cs: seq<Command>, rs: seq<Result<T>>,
                            meaning: Reply -> Result<T>, k: nat, m: nat, r: Result<T>, rs': seq<Result<T>>,
                            closed0: bool, closed: bool, closed1: bool)
    returns (k': nat, m': nat)
    requires Sequential(l0, l, cs, rs, meaning, k, m, closed0, closed) && |rs| < |cs|
    requires Exchanged(l, l1, cs[|rs|], IsLost(r)) && LostBy(l, r, closed, closed1) && rs' == rs + [r]
    requires !IsLost(r) ==> r == meaning(ReplyTo(l.server, cs[|rs|]))
    ensures Sequential(l0, l1, cs, rs', meaning, k', m', closed0, closed1)
  {
    k', m' := OneMore(l0, l, l1, cs, rs, meaning, k, m, r);
    InTurnMore(l0, l, l1, cs, rs, k, r, k', closed0, closed, closed1);
  }

  lemma SequentialEnd<T(!new)>(l0: Link, l1: Link, cs: seq<Command>, rs: seq<Result<T>>,
                               meaning: Reply -> Result<T>, k: nat, m: nat, closed0: bool, closed1: bool)
    requires Sequential(l0, l1, cs, rs, meaning, k, m, closed0, closed1) && |rs| == |cs| > 0
    ensures BatchDone(l0, l1, cs, rs, meaning, k, m) && LostItems(false, l0, l1, cs, rs, k, m, closed0, closed1)
  {}

  /** What is to be known of the errors of a batch: a pipelined one is filled up, a sequential
      one goes through all commands in turn. */
  ghost predicate LostItems<T(!new)>(pipelining: bool, l0: Link, l1: Link, cs: seq<Command>, rs: seq<Result<T>>,
                                     k: nat, m: nat, closed0: bool, closed1: bool)
  {
    if pipelining then m - k <= PIPELINE_WINDOW && CutShort(l0, l1, rs, Over(k, m), closed0, closed1)
    else InTurn(l0, l1, cs, rs, k, closed0, closed1)
  }

  // ---- fetching what is new ----

  function Numbers(es: seq<UidlEntry>): (ns: seq<nat>)
    ensures |ns| == |es| && forall i :: 0 <= i < |ns| ==> ns[i] == es[i].messageId
  {
    seq(|es|, i requires 0 <= i < |es| => es[i].messageId)
  }

  /** UIDL, and a RETR for every unseen entry. */
  function FetchCommands(s: Session, seen: set<string>): seq<Command> {
    [Uidl] + Commands(Retrieve, Numbers(Unseen(Entries(s), seen)))
  }

  lemma FetchStopsBehind(l: Link, seen: set<string>)
    ensures Survives(l, Uidl) ==>
      StopOf(l, FetchCommands(l.server, seen)) ==
        StopOf(Worn(l, Uidl), Commands(Retrieve, Numbers(Unseen(Entries(l.server), seen))))
    ensures !Survives(l, Uidl) ==> StopOf(l, FetchCommands(l.server, seen)) == l
  {
    var cs := Commands(Retrieve, Numbers(Unseen(Entries(l.server), seen)));
    assert ([Uidl] + cs)[1..] == cs;
  }

  /** The answer to the i-th RETR of a fetch. */
  function FetchAnswer(s: Session, news: seq<UidlEntry>, i: nat): Result<Message>
    requires i < |news|
  {
    MessageOf(ReplyAt(s, Commands(Retrieve, Numbers(news)), i))
  }

  /** The answer to the first RETR from the i-th on that was not obeyed. */
  function FirstError(s: Session, news: seq<UidlEntry>, i: nat): Option<Error>
    requires i <= |news|
    decreases |news| - i
  {
    if i == |news| then None
    else if FetchAnswer(s, news, i).Err? then Some(FetchAnswer(s, news, i).error)
    else FirstError(s, news, i + 1)
  }

  /** How a fetch on a live connection fails, if it does: by the listing, or by the first
      RETR that is not obeyed. */
  function FetchVerdict(s: Session, seen: set<string>): Option<Error> {
    match UnseenOf(s, seen)
    case Err(e) => Some(e)
    case Ok(news) => FirstError(Next(s, Uidl), news, 0)
  }

  /** The link holds out for the RETRs of a fetch from the i-th on, up to the first that is
      not obeyed. */
  predicate EachLasts(l: Link, news: seq<UidlEntry>, i: nat)
    requires i <= |news|
    decreases |news| - i
  {
    i == |news|
    || (var c := Command.Retr(news[i].messageId);
        Survives(l, c) && (ReplyTo(l.server, c).Minus? || EachLasts(Worn(l, c), news, i + 1)))
  }

  /** The link holds out for a whole fetch. */
  predicate FetchLasts(l: Link, seen: set<string>) {
    Survives(l, Uidl) &&
    match UnseenOf(l.server, seen)
    case Err(_) => true
    case Ok(news) => EachLasts(Worn(l, Uidl), news, 0)
  }

  /** The first i messages of a fetch have been read. */
  ghost predicate FetchedSoFar(s: Session, l: Session, news: seq<UidlEntry>, i: nat) {
    i <= |news| && l == After(s, Commands(Retrieve, Numbers(news))[..i])
    && FirstError(s, news, 0) == FirstError(s, news, i)
  }

  lemma FetchOneMore(s: Session, l: Session, news: seq<UidlEntry>, i: nat)
    requires FetchedSoFar(s, l, news, i) && i < |news|
    ensures FetchAnswer(s, news, i) == MessageOf(ReplyTo(l, Command.Retr(news[i].messageId)))
    ensures FetchAnswer(s, news, i).Ok? ==> FetchedSoFar(s, Next(l, Command.Retr(news[i].messageId)), news, i + 1)
    ensures FetchAnswer(s, news, i).Err? ==> FirstError(s, news, 0) == Some(FetchAnswer(s, news, i).error)
  {
    var cs := Commands(Retrieve, Numbers(news));
    ReplyAtState(s, cs, i);
    AfterSnoc(s, cs, i);
  }

  /** A fetch that has gone well so far; `s` is a session with the same mail. */
  ghost predicate Fetching(l0: Link, l: Link, s: Session, news: seq<UidlEntry>, pairs: seq<(UidlEntry, Message)>) {
    ReadOnly<()>(l0, l, Ok(())) && !Broken(l) && SameMail(s, l.server)
    && Paired(s, news, pairs) && FetchedSoFar(l0.server, l.server, news, |pairs|)
    && (EachLasts(l0, news, 0) <==> EachLasts(l, news, |pairs|))
    && StopsAlike(l0, l, news, |pairs|)
  }

  /** The fetch is going to stop where it was going to stop from the start. */
  ghost predicate StopsAlike(l0: Link, l: Link, news: seq<UidlEntry>, i: nat) {
    var cs := Commands(Retrieve, Numbers(news));
    i <= |news| && StopOf(l0, cs) == StopOf(l, cs[i..])
  }

  lemma StopsLater(l0: Link, l: Link, news: seq<UidlEntry>, i: nat)
    requires StopsAlike(l0, l, news, i) && i < |news|
    ensures var c := Command.Retr(news[i].messageId);
            if Survives(l, c) then StopsAlike(l0, Worn(l, c), news, i + 1)
            else StopOf(l0, Commands(Retrieve, Numbers(news))) == l
  {
    var cs := Commands(Retrieve, Numbers(news));
    assert cs[i..][0] == Command.Retr(news[i].messageId) && cs[i..][1..] == cs[i + 1..];
  }

  /** How a fetch ends. */
  ghost predicate FetchEnd(l0: Link, l: Link, s: Session, news: seq<UidlEntry>,
                           r: Result<seq<(UidlEntry, Message)>>)
  {
    ReadOnly(l0, l, r)
    && (r.Ok? ==> |r.value| == |news| && Paired(s, news, r.value))
    && (!IsLost(r) ==> Failure(r) == FirstError(l0.server, news, 0))
    && (IsLost(r) <==> !EachLasts(l0, news, 0))
  }

  /** What one RETR of a fetch returns. */
  ghost predicate FetchedOne(l: Link, l1: Link, s: Session, entry: UidlEntry, msg: Result<Message>) {
    var c := Command.Retr(entry.messageId);
    ReadOnly(l, l1, msg)
    && (msg.Ok? ==> msg.value == Content(s, entry.messageId))
    && (IsLost(msg) <==> !Survives(l, c))
    && (!IsLost(msg) ==> msg == MessageOf(ReplyTo(l.server, c)) && l1 == Worn(l, c))
  }

  lemma FetchStep(l0: Link, l: Link, l1: Link, s: Session, news: seq<UidlEntry>, pairs: seq<(UidlEntry, Message)>,
                  msg: Result<Message>, pairs': seq<(UidlEntry, Message)>)
    requires Fetching(l0, l, s, news, pairs) && |pairs| < |news| && FetchedOne(l, l1, s, news[|pairs|], msg)
    requires msg.Ok? && pairs' == pairs + [(news[|pairs|], msg.value)]
    ensures Fetching(l0, l1, s, news, pairs')
  {
    ReplyShape(l.server, Command.Retr(news[|pairs|].messageId));
    FetchOneMore(l0.server, l.server, news, |pairs|);
    StopsLater(l0, l, news, |pairs|);
    ReadOnlyChain(l0, l, l1, msg);
    PairedOne(s, news, pairs, msg.value);
  }

  lemma FetchStops(l0: Link, l: Link, l1: Link, s: Session, news: seq<UidlEntry>, pairs: seq<(UidlEntry, Message)>,
                   msg: Result<Message>, r: Result<seq<(UidlEntry, Message)>>)
    requires Fetching(l0, l, s, news, pairs) && |pairs| < |news| && FetchedOne(l, l1, s, news[|pairs|], msg)
    requires msg.Err? && r == Err(msg.error)
    ensures FetchEnd(l0, l1, s, news, r)
    ensures IsLost(r) ==> StopOf(l0, Commands(Retrieve, Numbers(news))) == l
  {
    ReplyShape(l.server, Command.Retr(news[|pairs|].messageId));
    FetchOneMore(l0.server, l.server, news, |pairs|);
    StopsLater(l0, l, news, |pairs|);
    ReadOnlyChain(l0, l, l1, msg);
  }

  lemma FetchIsOver(l0: Link, l: Link, s: Session, news: seq<UidlEntry>, pairs: seq<(UidlEntry, Message)>,
                    r: Result<seq<(UidlEntry, Message)>>)
    requires Fetching(l0, l, s, news, pairs) && |pairs| == |news| && r == Ok(pairs)
    ensures FetchEnd(l0, l, s, news, r)
  {}

  // ---- inside a window ----

  lemma WindowBytes(kind: Kind, chunk: seq<nat>, i: nat)
    requires i < |chunk|
    ensures Bytes(Commands(kind, chunk[..i + 1])) == Bytes(Commands(kind, chunk[..i])) + Sent(CommandOf(kind, chunk[i]))
    ensures Bytes(Commands(kind, chunk[..i + 1])) <= Bytes(Commands(kind, chunk))
  {
    var cs := Commands(kind, chunk);
    BytesTake(cs, i);
    assert cs[..i] == Commands(kind, chunk[..i]) && cs[..i + 1] == Commands(kind, chunk[..i + 1]);
  }

  /** The line of a batch command, as the source formats it. */
  function BatchLine(kind: Kind, id: nat): (s: string)
    ensures s == Sent(CommandOf(kind, id))
  {
    Verb(if kind.Retrieve? then "RETR" else "DELE", Dec(id)) + "\r\n"
  }

  /** A failing write in the middle of a window leaves the server with a prefix of it. */
  lemma WindowSevered(l0: Link, l: Link, kind: Kind, chunk: seq<nat>, i: nat, buffer: string) returns (d: nat)
    requires i < |chunk| && Tidy(l0) && l == l0.(writes := l.writes) && buffer == Bytes(Commands(kind, chunk[..i]))
    ensures buffer + BatchLine(kind, chunk[i]) == Bytes(Commands(kind, chunk[..i + 1]))
    ensures var l1 := Sever(l, buffer + BatchLine(kind, chunk[i]));
            Took(l0, l1, Commands(kind, chunk), d) && l1.writeDead && (!l.reliable ==> Tidy(l1) && !l1.reliable)
  {
    WindowBytes(kind, chunk, i);
    d := ReceiveBatch(l, Commands(kind, chunk), Bytes(Commands(kind, chunk[..i + 1])));
  }

  /** The link after the send phase of a window; the server has taken d of the commands. */
  ghost predicate WindowSent(l0: Link, l1: Link, cs: seq<Command>, r: Result<()>, d: nat) {
    Took(l0, l1, cs, d)
    && (r.Err? ==> r.error.Io? && l1.writeDead)
    && (r.Ok? ==> !l0.writeDead && !l1.writeDead && (d < |cs| ==> l1.lost))
    && (l0.reliable ==> r.Ok? && d == |cs|)
  }

  /** The flush of a whole window reaches the server with all or a prefix of it. */
  lemma WindowFlushed(l0: Link, l: Link, l1: Link, cs: seq<Command>, buffer: string, r: Result<()>)
    returns (d: nat)
    requires Tidy(l0) && l == l0.(writes := l.writes) && !l.writeDead && buffer == Bytes(cs)
    requires forall i :: 0 <= i < |cs| ==> Sendable(cs[i])
    requires if r.Ok? then l1 == Receive(l, buffer).(writes := Less(l.writes, 1))
             else r.error.Io? && l1 == Sever(l, buffer) && !l.reliable
    ensures WindowSent(l0, l1, cs, r, d) && Tidy(l1)
  {
    d := ReceiveBatch(l, cs, buffer);
  }

  /** The link after an attempt to read one due reply. */
  ghost predicate ReplyRead<T(!new)>(l0: Link, l1: Link, rest: string, r: Result<T>, meaning: Result<T>) {
    Net.Transport.OnlyRead(l0, l1)
    && (IsLost(r) ==> l1.readDead)
    && (!IsLost(r) ==> !l0.readDead && !l1.readDead && l0.inbound != "" && l1.inbound == rest && r == meaning)
    && (l0.reliable && !l0.readDead && l0.inbound != "" ==> !IsLost(r))
  }

  /** In the receive phase: the first |rs| of the m executed commands are answered, the
      answers to the others are still on their way. */
  ghost predicate Receiving<T(!new)>(l0: Link, l1: Link, cs: seq<Command>, rs: seq<Result<T>>,
                                     meaning: Reply -> Result<T>, m: nat) {
    |rs| <= m <= |cs|
    && l1.server == After(l0.server, cs[..m])
    && l1.reliable == l0.reliable && l1.readDead == l0.readDead && !l1.writeDead && !l0.writeDead
    && (l0.lost ==> m == 0) && (m < |cs| ==> l1.lost) && (l0.lost ==> l1.lost)
    && (rs != [] ==> !l0.readDead)
    && (!l0.readDead ==> l1.inbound == OnTheWay(l0.server, cs, |rs|, m))
    && Truthful(l0.server, cs, rs, meaning)
    && (l0.reliable ==> m == |cs|)
  }

  ghost predicate WindowDone<T(!new)>(l0: Link, l1: Link, cs: seq<Command>, rs: seq<Result<T>>,
                                      meaning: Reply -> Result<T>, m: nat) {
    |rs| <= m <= |cs|
    && l1.server == After(l0.server, cs[..m])
    && l1.reliable == l0.reliable
    && (l0.lost ==> m == 0 && l1.lost) && (m < |cs| ==> l1.lost)
    && Truthful(l0.server, cs, rs, meaning)
    && (if |rs| == |cs| then !Broken(l0) && !Broken(l1) && l1.inbound == "" else Broken(l1))
    && (Broken(l0) ==> rs == [])
    && (l0.reliable && !Broken(l0) ==> |rs| == |cs|)
  }

  /** The answers to the commands j to m of a run. */
  function OnTheWay(s: Session, cs: seq<Command>, j: nat, m: nat): string {
    if j <= m <= |cs| then Answers(After(s, cs[..j]), cs[j..m]) else ""
  }

  lemma StartReceiving<T(!new)>(l0: Link, l1: Link, cs: seq<Command>, meaning: Reply -> Result<T>, sent: Result<()>,
                                m: nat)
    requires WindowSent(l0, l1, cs, sent, m) && Tidy(l1) && Tidy(l0) && cs != []
    requires !Broken(l0) ==> l0.inbound == ""
    ensures sent.Ok? ==> Receiving(l0, l1, cs, [], meaning, m)
    ensures sent.Err? ==> WindowDone(l0, l1, cs, [], meaning, m)
  {
    assert cs[0..m] == cs[..m] && cs[..0] == [];
    assert "" + Answers(l0.server, cs[..m]) == Answers(l0.server, cs[..m]);
  }

  lemma Received<T(!new)>(l0: Link, l1: Link, l2: Link, cs: seq<Command>, rs: seq<Result<T>>,
                          meaning: Reply -> Result<T>, m: nat,
                          r: Result<T>)
    requires Receiving(l0, l1, cs, rs, meaning, m) && |rs| < |cs|
    requires ReplyRead(l1, l2, OnTheWay(l0.server, cs, |rs| + 1, m), r, meaning(ReplyAt(l0.server, cs, |rs|)))
    ensures IsLost(r) ==> WindowDone(l0, l2, cs, rs, meaning, m)
    ensures !IsLost(r) ==> Receiving(l0, l2, cs, rs + [r], meaning, m)
  {
    var n := |rs|;
    var due := OnTheWay(l0.server, cs, n, m);
    assert (n == m ==> due == "") && (n < m ==> due != "") by { ReceiveOne(l0.server, cs, n, m); }
    ReceivedNext(l0, l1, l2, cs, rs, m, due, OnTheWay(l0.server, cs, n + 1, m), r, meaning(ReplyAt(l0.server, cs, n)));
    TruthfulOne(l0.server, cs, rs, r, meaning);
  }

  /** The bookkeeping of one receive step, with the answers on their way as plain bytes. */
  lemma ReceivedNext<T(!new)>(l0: Link, l1: Link, l2: Link, cs: seq<Command>, rs: seq<Result<T>>, m: nat,
                              due: string, rest: string, r: Result<T>, meaning: Result<T>)
    requires |rs| <= m <= |cs| && |rs| < |cs| && (|rs| == m ==> due == "") && (|rs| < m ==> due != "")
    requires l1.readDead == l0.readDead && (rs != [] ==> !l0.readDead) && (!l0.readDead ==> l1.inbound == due)
    requires l1.reliable == l0.reliable && (l0.reliable ==> m == |cs|)
    requires ReplyRead(l1, l2, rest, r, meaning)
    ensures !IsLost(r) ==> |rs| < m && !l0.readDead && !l2.readDead && l2.inbound == rest && r == meaning
    ensures IsLost(r) ==> Broken(l2)
    ensures l0.reliable && !l0.readDead ==> !IsLost(r)
    ensures l2.server == l1.server && l2.reliable == l1.reliable && l2.lost == l1.lost && l2.writeDead == l1.writeDead
  {}

  lemma ReceivedAll<T(!new)>(l0: Link, l1: Link, cs: seq<Command>, rs: seq<Result<T>>, meaning: Reply -> Result<T>,
                             m: nat)
    requires Receiving(l0, l1, cs, rs, meaning, m) && |rs| == |cs| > 0
    ensures WindowDone(l0, l1, cs, rs, meaning, m)
  {
    assert cs[|cs|..m] == [];
  }

  lemma BatchReplyShape(s: Session, kind: Kind, ids: seq<nat>, j: nat)
    requires j < |ids|
    ensures var r := ReplyAt(s, Commands(kind, ids), j); if kind.Retrieve? then !r.Plus? else !r.Data?
  {
    ReplyAtState(s, Commands(kind, ids), j);
    ReplyShape(After(s, Commands(kind, ids)[..j]), CommandOf(kind, ids[j]));
  }

  /** The next answer due is at the head of what is on its way. */
  lemma ReceiveOne(s: Session, cs: seq<Command>, j: nat, m: nat)
    requires j <= m <= |cs| && j < |cs|
    ensures j < m ==> OnTheWay(s, cs, j, m) == Render(ReplyAt(s, cs, j)) + OnTheWay(s, cs, j + 1, m)
    ensures j == m ==> OnTheWay(s, cs, j, m) == ""
    ensures Render(ReplyAt(s, cs, j)) != ""
  {
    AfterSnoc(s, cs, j);
    ReplyAtState(s, cs, j);
    if j < m {
      assert cs[j..m][0] == cs[j] && cs[j..m][1..] == cs[j + 1..m];
    }
  }
}
