/** A call of the reconnecting client as a story: a first attempt, a reconnect if it failed
    for the moment, a second attempt on the new session. What the caller is told, what has
    become of the marks, and when an error hides that the session was replaced. */
module Calls {
  import opened Basics
  import opened Server
  import opened Response
  import opened Pipeline
  import opened Connection
  import opened Meaning
  import opened Exchange
  import opened Window
  import opened Batch
  import opened Builder
  import opened Redial
  import opened Attempts

  datatype Outcome<+T> = Fresh(value: T) | Reconnected(value: T)

  /** Three endings: the first attempt stands; it does not, but reconnecting failed; the
      session was replaced. `left` is the old link when it is given up. */
  datatype Story<T> =
    | Stayed(first: Result<T>)
    | Stranded(first: Result<T>, errors: seq<Error>, error: Error)
    | Moved(first: Result<T>, left: Link, errors: seq<Error>, joined: Link, second: Result<T>)

  function First<T>(v: Result<T>): Result<Outcome<T>> {
    match v case Ok(x) => Ok(Fresh(x)) case Err(e) => Err(e)
  }

  function Second<T>(v: Result<T>): Result<Outcome<T>> {
    match v case Ok(x) => Ok(Reconnected(x)) case Err(e) => Err(e)
  }

  /** What the caller is told. */
  function OutcomeOf<T>(s: Story<T>): Result<Outcome<T>> {
    match s
    case Stayed(v) => First(v)
    case Stranded(_, _, e) => Err(e)
    case Moved(_, _, _, _, w) => Second(w)
  }

  /** How many connections have been tried. */
  function Redials<T>(s: Story<T>): nat {
    match s
    case Stayed(_) => 0
    case Stranded(_, errors, _) => |errors| + 1
    case Moved(_, _, errors, _, _) => |errors| + 1
  }

  /** What the callback, if there is one, has been told: the attempts that were retried. */
  function Notices<T>(callback: bool, s: Story<T>): seq<(nat, Error)> {
    if s.Stayed? || !callback then [] else Numbered(s.errors)
  }

  /** The first attempt calls for a new connection. */
  predicate Wants<T>(v: Result<T>, spoilt: T -> bool) {
    match v case Err(e) => IsRetryable(e) case Ok(x) => spoilt(x)
  }

  /** The story is true of a call that has taken l0 to l1. */
  ghost predicate Told<T(!new)>(p: Plan, did: Attempt<T>, spoilt: T -> bool, l0: Link, l1: Link, s: Story<T>) {
    match s
    case Stayed(v) => did(l0, l1, v) && !Wants(v, spoilt)
    case Stranded(v, errors, e) => did(l0, l1, v) && Wants(v, spoilt) && GaveUp(p, errors, e) && e != NotAuthenticated
    case Moved(v, left, errors, joined, w) =>
      did(l0, left, v) && Wants(v, spoilt) && Arrived(p, errors, joined) && did(joined, l1, w)
  }

  /** The first attempt is over, on a link now at l; the second has not begun. */
  ghost predicate Begun<T(!new)>(p: Plan, spoilt: T -> bool, l: Link, s: Story<T>) {
    match s
    case Stayed(v) => !Wants(v, spoilt)
    case Stranded(v, errors, e) => Wants(v, spoilt) && GaveUp(p, errors, e) && e != NotAuthenticated
    case Moved(v, left, errors, joined, _) => Wants(v, spoilt) && left == l && Arrived(p, errors, joined)
  }

  lemma ToldAtOnce<T(!new)>(p: Plan, did: Attempt<T>, spoilt: T -> bool, l0: Link, l1: Link, s: Story<T>)
    requires did(l0, l1, s.first) && Begun(p, spoilt, l1, s) && !s.Moved?
    ensures Told(p, did, spoilt, l0, l1, s)
  {}

  lemma ToldAfterMove<T(!new)>(p: Plan, did: Attempt<T>, spoilt: T -> bool, l0: Link, left: Link, l1: Link,
                               begun: Story<T>, v: Result<T>, s: Story<T>)
    requires did(l0, left, begun.first) && Begun(p, spoilt, left, begun) && begun.Moved?
    requires did(begun.joined, l1, v) && s == begun.(second := v)
    ensures Told(p, did, spoilt, l0, l1, s) && s.Moved? && OutcomeOf(s) == Second(v)
  {}

  // ---- the marks ----

  lemma AccountSecond(l0: Link, l: Link, l1: Link, ok: bool, e: Effect, doubt: set<nat>)
    requires Untouched(l.server) && Attempted(l, l1, ok, e, doubt)
    ensures Accounted(l0, l1, true, ok, e, doubt)
  {}

  lemma AccountStranded(l0: Link, l1: Link, ok: bool, e: Effect, doubt: set<nat>, named: set<nat>)
    requires Attempted(l0, l1, ok, e, doubt) && doubt <= named && (ok ==> e.Keep?)
    ensures Accounted(l0, l1, false, false, e, named)
  {}

  /** The marks after a call with a fixed effect. */
  lemma StoryAccount<T(!new)>(p: Plan, did: Attempt<T>, spoilt: T -> bool, l0: Link, l1: Link, s: Story<T>,
                              e: Effect, named: set<nat>)
    requires Told(p, did, spoilt, l0, l1, s) && Harmless(did, e, named)
    requires e.Keep? || forall x :: !spoilt(x)
    ensures var ok := OutcomeOf(s).Ok?; Accounted(l0, l1, s.Moved?, ok, e, Unless(ok, named))
    ensures NotTurnedDown(OutcomeOf(s))
  {
    match s
    case Stayed(v) =>
    case Stranded(v, _, _) => AccountStranded(l0, l1, v.Ok?, e, Unless(v.Ok?, named), named);
    case Moved(_, _, _, joined, w) => AccountSecond(l0, joined, l1, w.Ok?, e, Unless(w.Ok?, named));
  }

  function Bare<T>(r: Result<Outcome<T>>): Result<T> {
    match r case Ok(o) => Ok(o.value) case Err(e) => Err(e)
  }

  /** The marks after a DELE batch; and a batch that returns an error has not replaced the
      session. */
  lemma DeleManyAccount(p: Plan, ids: seq<nat>, l0: Link, l1: Link, s: Story<seq<Result<()>>>)
    requires Told(p, ManyDid(Delete, ids, AckOf), Spoilt(), l0, l1, s)
    ensures var r := Bare(OutcomeOf(s)); Accounted(l0, l1, s.Moved?, r.Ok?, Acks(ids, r), InDoubt(ids, r))
    ensures NotTurnedDown(OutcomeOf(s))
  {
    match s
    case Stayed(v) => DeleManyAttempt(l0, l1, ids, v, Acks(ids, v), InDoubt(ids, v));
    case Stranded(v, _, _) => DeleManyAttempt(l0, l1, ids, v, Acks(ids, v), InDoubt(ids, v));
    case Moved(_, _, _, joined, w) =>
      DeleManyAttempt(joined, l1, ids, w, Acks(ids, w), InDoubt(ids, w));
      AccountSecond(l0, joined, l1, w.Ok?, Acks(ids, w), InDoubt(ids, w));
  }

  /** The messages of a RETR batch, Fresh or not, are those of the session the call ends in. */
  lemma RetrManyTold(p: Plan, ids: seq<nat>, l0: Link, l1: Link, s: Story<seq<Result<Message>>>)
    requires Told(p, ManyDid(Retrieve, ids, MessageOf), Spoilt(), l0, l1, s)
    ensures OutcomeOf(s).Ok? ==> ShowsMessages(l1.server, ids, OutcomeOf(s).value.value)
  {
    if OutcomeOf(s).Ok? {
      var l := LastAttempt(p, ManyDid(Retrieve, ids, MessageOf), Spoilt(), l0, l1, s);
      assert ManyAttempt(l, l1, Retrieve, ids, Bare(OutcomeOf(s)), MessageOf);
      RetrManyAttempt(l, l1, ids, Bare(OutcomeOf(s)));
    }
  }

  /** An error of a batch call never hides anything: it means an id of zero, or that
      reconnecting failed. A Fresh batch contains no retryable item. */
  lemma BatchErrors<T(!new)>(p: Plan, kind: Kind, ids: seq<nat>, meaning: Reply -> Result<T>, l0: Link, l1: Link,
                             s: Story<seq<Result<T>>>)
    requires Told(p, ManyDid(kind, ids, meaning), Spoilt(), l0, l1, s)
    ensures OutcomeOf(s).Err? ==> !s.Moved?
    ensures 0 in ids ==> OutcomeOf(s) == Err(InvalidInput)
    ensures OutcomeOf(s).Ok? ==> |OutcomeOf(s).value.value| == |ids|
    ensures OutcomeOf(s).Ok? && OutcomeOf(s).value.Fresh? ==> !AnyRetryable(OutcomeOf(s).value.value)
  {
    if s.Moved? {
      assert ManyAttempt(l0, s.left, kind, ids, s.first, meaning);
      assert ManyAttempt(s.joined, l1, kind, ids, s.second, meaning);
    } else {
      assert ManyAttempt(l0, l1, kind, ids, s.first, meaning);
    }
  }

  /** The item tells of a lost connection, or of a server that is busy for the moment. */
  predicate Passing<T>(r: Result<T>) {
    match r
    case Ok(_) => false
    case Err(e) => e.Io? || e.ConnectionClosed? || e.Timeout? || e.SysTemp?
  }

  /** Every item is the server's own answer to its command, and none of them passing. */
  ghost predicate Answered<T(!new)>(s: Session, kind: Kind, ids: seq<nat>, meaning: Reply -> Result<T>,
                                    rs: seq<Result<T>>)
  {
    |rs| == |ids|
    && forall i :: 0 <= i < |ids| ==> rs[i] == meaning(ReplyAt(s, Commands(kind, ids), i)) && !Passing(rs[i])
  }

  /** What makes a batch stay on its connection, and what a Fresh one consists of: the first
      attempt stands exactly if no item of it, at whatever index, is passing; and then every
      item is the server's own answer, over a connection that is alive. */
  ghost predicate FreshBatch<T(!new)>(kind: Kind, ids: seq<nat>, meaning: Reply -> Result<T>, l0: Link, l1: Link,
                                      s: Story<seq<Result<T>>>)
  {
    (s.Stayed? <==> s.first.Err? || forall i :: 0 <= i < |s.first.value| ==> !Passing(s.first.value[i]))
    && (s.first.Err? <==> 0 in ids)
    && (s.Stayed? && s.first.Ok? ==> Answered(l0.server, kind, ids, meaning, s.first.value))
    && (s.Stayed? && s.first.Ok? && ids != [] ==> !Broken(l0) && !Broken(l1))
  }

  lemma BatchFresh<T(!new)>(p: Plan, kind: Kind, ids: seq<nat>, meaning: Reply -> Result<T>, l0: Link, l1: Link,
                            s: Story<seq<Result<T>>>)
    requires Told(p, ManyDid(kind, ids, meaning), Spoilt(), l0, l1, s)
    ensures FreshBatch(kind, ids, meaning, l0, l1, s)
    ensures OutcomeOf(s).Ok? && OutcomeOf(s).value.Fresh? <==> s.Stayed? && s.first.Ok?
  {
    var l := if s.Moved? then s.left else l1;
    assert ManyAttempt(l0, l, kind, ids, s.first, meaning);
    if s.first.Ok? {
      var rs := s.first.value;
      assert AnyRetryable(rs) <==> exists i :: 0 <= i < |rs| && Passing(rs[i]);
      if s.Stayed? {
        var k: nat, m: nat :| ManyDone(l0, l1, kind, ids, rs, meaning, k, m);
        if ids != [] { NoneLost(l0, l1, kind, ids, rs, meaning, k, m); }
      }
    }
  }

  lemma NoneLost<T(!new)>(l0: Link, l1: Link, kind: Kind, ids: seq<nat>, rs: seq<Result<T>>,
                          meaning: Reply -> Result<T>, k: nat, m: nat)
    requires BatchDone(l0, l1, Commands(kind, ids), rs, meaning, k, m)
    requires forall i :: 0 <= i < |rs| ==> !Passing(rs[i])
    ensures Answered(l0.server, kind, ids, meaning, rs) && !Broken(l0) && !Broken(l1)
  {
    assert k < |ids| ==> IsLost(rs[k]);
    assert rs[..|rs|] == rs;
  }

  /** The attempt whose result the caller gets: on the old session, or on the new one. */
  lemma LastAttempt<T(!new)>(p: Plan, did: Attempt<T>, spoilt: T -> bool, l0: Link, l1: Link, s: Story<T>)
    returns (l: Link)
    requires Told(p, did, spoilt, l0, l1, s)
    ensures !s.Stranded? ==> did(l, l1, Bare(OutcomeOf(s)))
    ensures l == if s.Moved? then s.joined else l0
    ensures s.Moved? ==> Untouched(l.server)
  {
    match s
    case Stayed(v) => l := l0; assert Bare(OutcomeOf(s)) == v;
    case Stranded(_, _, _) => l := l0;
    case Moved(_, _, _, joined, w) => l := joined; assert Bare(OutcomeOf(s)) == w;
  }

  /** An Ok value of a single command is what the command means in the session of the last
      attempt, and that command is the last the session has executed. */
  lemma ValueTold<T(!new)>(p: Plan, c: Command, meaning: Session -> Result<T>, l0: Link, l1: Link, s: Story<T>)
    returns (q: Session)
    requires Told(p, Single(c, meaning), Never(), l0, l1, s)
    ensures OutcomeOf(s).Ok? ==> meaning(q) == Ok(OutcomeOf(s).value.value) && l1.server == Next(q, c) && !Broken(l1)
    ensures q == if s.Moved? then s.joined.server else l0.server
    ensures s.Moved? ==> Untouched(q)
  {
    var l := LastAttempt(p, Single(c, meaning), Never(), l0, l1, s);
    q := l.server;
    if OutcomeOf(s).Ok? { assert Did(l, l1, GuardOf(c), c, Bare(OutcomeOf(s)), meaning(q)); }
  }

  // ---- what an Ok value of each command tells ----

  lemma StatTold(p: Plan, l0: Link, l1: Link, s: Story<Response.Stat>)
    requires Told(p, Single(Command.Stat, StatMeaning()), Never(), l0, l1, s)
    ensures var q := l1.server;
            OutcomeOf(s).Ok? ==> OutcomeOf(s).value.value == Response.Stat(|Scans(q)|, Total(Scans(q)))
  {
    var q := ValueTold(p, Command.Stat, StatMeaning(), l0, l1, s);
    StatShown(q);
  }

  lemma ListTold(p: Plan, l0: Link, l1: Link, s: Story<seq<ListEntry>>)
    requires Told(p, Single(List, ListMeaning()), Never(), l0, l1, s)
    ensures OutcomeOf(s).Ok? ==> OutcomeOf(s).value.value == Scans(l1.server)
  {
    var q := ValueTold(p, List, ListMeaning(), l0, l1, s);
    ListShown(q);
  }

  lemma ScanTold(p: Plan, n: nat, l0: Link, l1: Link, s: Story<seq<ListEntry>>)
    requires Told(p, Single(ListOne(n), ScanMeaning(n)), Never(), l0, l1, s)
    ensures OutcomeOf(s).Ok? ==> Live(l1.server, n) && OutcomeOf(s).value.value == [ScanOf(l1.server, n)]
  {
    var q := ValueTold(p, ListOne(n), ScanMeaning(n), l0, l1, s);
    OneShown(q, n);
  }

  lemma UidlTold(p: Plan, l0: Link, l1: Link, s: Story<seq<UidlEntry>>)
    requires Told(p, Single(Uidl, UidlMeaning()), Never(), l0, l1, s)
    ensures OutcomeOf(s).Ok? ==> OutcomeOf(s).value.value == Entries(l1.server)
  {
    var q := ValueTold(p, Uidl, UidlMeaning(), l0, l1, s);
    UidlShown(q, {});
  }

  lemma UidTold(p: Plan, n: nat, l0: Link, l1: Link, s: Story<seq<UidlEntry>>)
    requires Told(p, Single(UidlOne(n), UidMeaning(n)), Never(), l0, l1, s)
    ensures OutcomeOf(s).Ok? ==> Live(l1.server, n) && OutcomeOf(s).value.value == [EntryOf(l1.server, n)]
  {
    var q := ValueTold(p, UidlOne(n), UidMeaning(n), l0, l1, s);
    OneShown(q, n);
  }

  lemma UnseenTold(p: Plan, seen: set<string>, l0: Link, l1: Link, s: Story<seq<UidlEntry>>)
    requires Told(p, Single(Uidl, UnseenMeaning(seen)), Never(), l0, l1, s)
    ensures OutcomeOf(s).Ok? ==> OutcomeOf(s).value.value == Unseen(Entries(l1.server), seen)
    ensures OutcomeOf(s).Ok? ==> AllNew(l1.server, seen, OutcomeOf(s).value.value)
  {
    UnseenIsAllNew(l1.server, seen);
    var q := ValueTold(p, Uidl, UnseenMeaning(seen), l0, l1, s);
    UidlShown(q, seen);
  }

  lemma CapaTold(p: Plan, l0: Link, l1: Link, s: Story<seq<Capability>>)
    requires Told(p, Single(Command.Capa, CapaMeaning()), Never(), l0, l1, s)
    ensures OutcomeOf(s).Ok? ==> OutcomeOf(s).value.value == Announce(l1.server.caps)
  {
    var q := ValueTold(p, Command.Capa, CapaMeaning(), l0, l1, s);
    CapaShown(q);
  }

  lemma RetrTold(p: Plan, n: nat, l0: Link, l1: Link, s: Story<Message>)
    requires Told(p, Single(Command.Retr(n), MessageMeaning(Command.Retr(n))), Never(), l0, l1, s)
    ensures OutcomeOf(s).Ok? ==> ShowsMessage(l1.server, n, OutcomeOf(s).value.value)
  {
    var q := ValueTold(p, Command.Retr(n), MessageMeaning(Command.Retr(n)), l0, l1, s);
    MessagesShown(q, n, 0);
  }

  lemma TopTold(p: Plan, n: nat, k: nat, l0: Link, l1: Link, s: Story<Message>)
    requires Told(p, Single(Command.Top(n, k), MessageMeaning(Command.Top(n, k))), Never(), l0, l1, s)
    ensures OutcomeOf(s).Ok? ==> ShowsTop(l1.server, n, k, OutcomeOf(s).value.value)
  {
    var q := ValueTold(p, Command.Top(n, k), MessageMeaning(Command.Top(n, k)), l0, l1, s);
    MessagesShown(q, n, k);
  }

  // ---- which message a DELE marks ----

  function UidAt(s: Session, n: nat): Option<string> {
    if 1 <= n <= |s.box| then Some(s.box[n - 1].uid) else None
  }

  function MarkedUids(s: Session): set<Option<string>> { set n | n in s.marked :: UidAt(s, n) }

  /** In terms of unique-ids: an Ok DELE has marked the message that has the number in the
      session the call ends in, on top of the earlier ones or of none. That is another
      message than the one that had the number before exactly if the session was replaced
      and the number has passed to another message. */
  lemma DeleTold(p: Plan, n: nat, l0: Link, l1: Link, s: Story<()>)
    requires Told(p, Single(Command.Dele(n), AckMeaning(Command.Dele(n))), Never(), l0, l1, s)
    requires OutcomeOf(s).Ok?
    ensures 1 <= n <= |l1.server.box| && UidAt(l1.server, n) == Some(l1.server.box[n - 1].uid)
    ensures MarkedUids(l1.server) == (if s.Moved? then {} else MarkedUids(l0.server)) + {UidAt(l1.server, n)}
    ensures UidAt(l1.server, n) != UidAt(l0.server, n) <==>
      s.Moved? && UidAt(s.joined.server, n) != UidAt(l0.server, n)
  {
    var q := ValueTold(p, Command.Dele(n), AckMeaning(Command.Dele(n)), l0, l1, s);
    DeleMark(q, n);
    MarkedUidsAfter(q, l1.server, n);
  }

  lemma MarkedUidsAfter(q: Session, q1: Session, n: nat)
    requires q1.box == q.box && q1.marked == q.marked + {n}
    ensures MarkedUids(q1) == MarkedUids(q) + {UidAt(q1, n)}
  {
    assert forall k :: UidAt(q1, k) == UidAt(q, k);
  }

  // ---- when an error hides that the session was replaced ----

  /** The first attempt will call for a new connection. */
  predicate Departs(l: Link, course: Course) {
    !course.lasts(l) || (course.verdict(l.server).Some? && IsRetryable(course.verdict(l.server).value))
  }

  /** The link on which the client will be logged in. */
  function Arriving(p: Plan): Link
    requires Arrival(p, 0).Some?
  {
    Fare(DialAt(p.dials, Arrival(p, 0).value), p.account).link
  }

  /** The call will fail after the login: the capability probe breaks the connection, or the
      link does not hold out for the call, or the session fails it. */
  predicate FailsThere(l: Link, course: Course) {
    !Survives(l, Command.Capa)
    || (var l1 := Worn(l, Command.Capa); !course.lasts(l1) || course.verdict(l1.server).Some?)
  }

  /** The first attempt fails for the moment, reconnecting succeeds, and the call fails on
      the new connection. */
  predicate Hides(p: Plan, l: Link, course: Course) {
    Departs(l, course) && Arrival(p, 0).Some? && FailsThere(Arriving(p), course)
  }

  /** The session is replaced, and the caller gets a plain error. */
  predicate Hidden<T>(s: Story<T>) { s.Moved? && OutcomeOf(s).Err? }

  /** For every call but the batches, every connection and every future, whatever faults they
      hold: exactly when the session is replaced, and exactly when the caller is not told. */
  lemma HiddenExactly<T(!new)>(p: Plan, did: Attempt<T>, course: Course, l0: Link, l1: Link, s: Story<T>)
    requires Told(p, did, Never(), l0, l1, s) && Settles(did, course)
    ensures s.Moved? <==> Departs(l0, course) && Arrival(p, 0).Some?
    ensures Hidden(s) <==> Hides(p, l0, course)
  {
    match s
    case Stayed(v) => WantsExactly(did, course, l0, l1, v);
    case Stranded(v, errors, e) => ArrivesExactly(p, errors, Some(e));
    case Moved(v, left, errors, joined, w) =>
      WantsExactly(did, course, l0, left, v);
      ArrivesExactly(p, errors, None);
      FailsExactly(did, course, Arriving(p), joined, l1, w);
  }

  /** The call will return Ok: the first attempt goes well, or it fails for the moment and the
      second one, on the session at which the loop arrives, goes well. */
  predicate Succeeds(p: Plan, l: Link, course: Course) {
    if Departs(l, course) then Arrival(p, 0).Some? && !FailsThere(Arriving(p), course)
    else course.verdict(l.server).None?
  }

  /** For every call but the batches, every connection and every future: exactly when the call
      returns Ok. */
  lemma OkExactly<T(!new)>(p: Plan, did: Attempt<T>, course: Course, l0: Link, l1: Link, s: Story<T>)
    requires Told(p, did, Never(), l0, l1, s) && Settles(did, course)
    ensures OutcomeOf(s).Ok? <==> Succeeds(p, l0, course)
  {
    HiddenExactly(p, did, course, l0, l1, s);
    if s.Stayed? { StaysExactly(did, course, l0, l1, s.first); }
  }

  lemma StaysExactly<T(!new)>(did: Attempt<T>, course: Course, l0: Link, l1: Link, v: Result<T>)
    requires did(l0, l1, v) && Settles(did, course) && !Wants(v, Never())
    ensures !Departs(l0, course) && (v.Ok? <==> course.verdict(l0.server).None?)
  {}

  lemma WantsExactly<T(!new)>(did: Attempt<T>, course: Course, l0: Link, l1: Link, v: Result<T>)
    requires did(l0, l1, v) && Settles(did, course)
    ensures Wants(v, Never()) <==> Departs(l0, course)
  {}

  lemma FailsExactly<T(!new)>(did: Attempt<T>, course: Course, l: Link, joined: Link, l1: Link, w: Result<T>)
    requires did(joined, l1, w) && Settles(did, course) && AfterProbe(l, joined)
    ensures w.Err? <==> FailsThere(l, course)
  {}

  /** Seen from the first attempt: the session is replaced exactly if that failed for the
      moment and a new one is reached. */
  lemma MovedExactly<T(!new)>(p: Plan, did: Attempt<T>, spoilt: T -> bool, l0: Link, l1: Link, s: Story<T>)
    requires Told(p, did, spoilt, l0, l1, s)
    ensures s.Moved? <==> Wants(s.first, spoilt) && Arrival(p, 0).Some?
  {
    match s
    case Stayed(v) =>
    case Stranded(v, errors, e) => ArrivesExactly(p, errors, Some(e));
    case Moved(v, left, errors, joined, w) => ArrivesExactly(p, errors, None);
  }

  /** A session that has replaced another without telling holds no marks, if the connection
      is alive. */
  lemma HiddenMarks<T(!new)>(p: Plan, c: Command, meaning: Session -> Result<T>, l0: Link, l1: Link, s: Story<T>)
    requires Told(p, Single(c, meaning), Never(), l0, l1, s) && Proper(c, meaning) && (ForMailbox(c) || c.Capa?)
    requires Hidden(s) && !Broken(l1)
    ensures l1.server.marked == {}
  {
    var l := s.joined;
    assert Did(l, l1, GuardOf(c), c, s.second, meaning(l.server));
    ProperMeaning(c, meaning, l.server);
    NothingNewMarked(l, l1, c, s.second, meaning(l.server));
  }

  lemma NothingNewMarked<T(!new)>(l: Link, l1: Link, c: Command, v: Result<T>, meant: Result<T>)
    requires Did(l, l1, GuardOf(c), c, v, meant) && v.Err? && !Broken(l1) && l.server.marked == {}
    requires c.Dele? ==> (meant.Err? <==> ReplyTo(l.server, c).Minus?)
    ensures l1.server.marked == {}
  {}

  /** The first attempt, whatever came of it. */
  lemma FirstAttempt<T(!new)>(p: Plan, c: Command, meaning: Session -> Result<T>, l0: Link, l1: Link, s: Story<T>)
    returns (l: Link)
    requires Told(p, Single(c, meaning), Never(), l0, l1, s)
    ensures Did(l0, l, GuardOf(c), c, s.first, meaning(l0.server))
  {
    l := if s.Moved? then s.left else l1;
    assert Single(c, meaning)(l0, l, s.first);
  }

  /** A command that the client turns down itself never replaces the session. */
  lemma TurnedDown<T(!new)>(p: Plan, c: Command, meaning: Session -> Result<T>, l0: Link, l1: Link, s: Story<T>)
    requires Told(p, Single(c, meaning), Never(), l0, l1, s) && GuardOf(c).Some?
    ensures s == Stayed(Err(InvalidInput))
  {
    var l := FirstAttempt(p, c, meaning, l0, l1, s);
  }

  // ---- the same in terms of the commands ----

  /** The connection does not hold out for the command, or the server puts it off. */
  predicate DepartsBy(l: Link, c: Command) { !Survives(l, c) || PutOff(l.server, c) }

  /** After the login the connection does not hold out for the probe and the command, or the
      server does not obey, or a number in the answer does not fit. */
  predicate FailsThereBy(l: Link, c: Command, fits: Session -> bool) {
    !Survives(l, Command.Capa)
    || (var l1 := Worn(l, Command.Capa); !Survives(l1, c) || !Obeyed(l1.server, c) || !fits(l1.server))
  }

  predicate HidesBy(p: Plan, l: Link, c: Command, fits: Session -> bool) {
    DepartsBy(l, c) && Arrival(p, 0).Some? && FailsThereBy(Arriving(p), c, fits)
  }

  ghost predicate FailsAlways<T(!new)>(c: Command, meaning: Session -> Result<T>, fits: Session -> bool) {
    forall s: Session :: FailsBy(s, c, fits(s), Failure(meaning(s)))
  }

  lemma SingleDeparts<T(!new)>(l: Link, c: Command, meaning: Session -> Result<T>, fits: Session -> bool)
    requires FailsAlways(c, meaning, fits)
    ensures Departs(l, SingleCourse(c, meaning)) <==> DepartsBy(l, c)
  {
    assert FailsBy(l.server, c, fits(l.server), Failure(meaning(l.server)));
  }

  lemma SingleFailsThere<T(!new)>(l: Link, c: Command, meaning: Session -> Result<T>, fits: Session -> bool)
    requires FailsAlways(c, meaning, fits)
    ensures FailsThere(l, SingleCourse(c, meaning)) <==> FailsThereBy(l, c, fits)
  {
    var l1 := Worn(l, Command.Capa);
    assert FailsBy(l1.server, c, fits(l1.server), Failure(meaning(l1.server)));
  }

  lemma SingleHides<T(!new)>(p: Plan, l: Link, c: Command, meaning: Session -> Result<T>, fits: Session -> bool)
    requires FailsAlways(c, meaning, fits)
    ensures Hides(p, l, SingleCourse(c, meaning)) <==> HidesBy(p, l, c, fits)
  {
    SingleDeparts(l, c, meaning, fits);
    if Arrival(p, 0).Some? { SingleFailsThere(Arriving(p), c, meaning, fits); }
  }

  /** In terms of a command: it returns Ok exactly if it is obeyed with an answer in range, at
      once, or after a reconnect by which the loop arrives and the connection holds out. */
  predicate SucceedsBy(p: Plan, l: Link, c: Command, fits: Session -> bool) {
    if DepartsBy(l, c) then Arrival(p, 0).Some? && !FailsThereBy(Arriving(p), c, fits)
    else Obeyed(l.server, c) && fits(l.server)
  }

  lemma SingleSucceeds<T(!new)>(p: Plan, l: Link, c: Command, meaning: Session -> Result<T>, fits: Session -> bool)
    requires FailsAlways(c, meaning, fits)
    ensures Succeeds(p, l, SingleCourse(c, meaning)) <==> SucceedsBy(p, l, c, fits)
  {
    SingleDeparts(l, c, meaning, fits);
    assert FailsBy(l.server, c, fits(l.server), Failure(meaning(l.server)));
    if Arrival(p, 0).Some? { SingleFailsThere(Arriving(p), c, meaning, fits); }
  }

  lemma StatHides(p: Plan, l: Link)
    ensures Hides(p, l, SingleCourse(Command.Stat, StatMeaning())) <==> HidesBy(p, l, Command.Stat, StatFits())
  {
    forall s: Session ensures FailsBy(s, Command.Stat, StatFits()(s), Failure(StatMeaning()(s))) { StatVerdict(s); }
    SingleHides(p, l, Command.Stat, StatMeaning(), StatFits());
  }

  lemma ListHides(p: Plan, l: Link)
    ensures Hides(p, l, SingleCourse(List, ListMeaning())) <==> HidesBy(p, l, List, ListFits())
  {
    forall s: Session ensures FailsBy(s, List, ListFits()(s), Failure(ListMeaning()(s))) { ListVerdict(s); }
    SingleHides(p, l, List, ListMeaning(), ListFits());
  }

  lemma ScanHides(p: Plan, l: Link, n: nat)
    ensures Hides(p, l, SingleCourse(ListOne(n), ScanMeaning(n))) <==> HidesBy(p, l, ListOne(n), ScanFits(n))
  {
    forall s: Session ensures FailsBy(s, ListOne(n), ScanFits(n)(s), Failure(ScanMeaning(n)(s))) { OneVerdict(s, n); }
    SingleHides(p, l, ListOne(n), ScanMeaning(n), ScanFits(n));
  }

  lemma UidHides(p: Plan, l: Link, n: nat)
    ensures Hides(p, l, SingleCourse(UidlOne(n), UidMeaning(n))) <==> HidesBy(p, l, UidlOne(n), UidFits(n))
  {
    forall s: Session ensures FailsBy(s, UidlOne(n), UidFits(n)(s), Failure(UidMeaning(n)(s))) { OneVerdict(s, n); }
    SingleHides(p, l, UidlOne(n), UidMeaning(n), UidFits(n));
  }

  /** UIDL, and with it the pruning of the seen set. */
  lemma UidlHides(p: Plan, l: Link)
    ensures Hides(p, l, SingleCourse(Uidl, UidlMeaning())) <==> HidesBy(p, l, Uidl, UidlFits())
  {
    forall s: Session ensures FailsBy(s, Uidl, UidlFits()(s), Failure(UidlMeaning()(s))) { UidlVerdict(s); }
    SingleHides(p, l, Uidl, UidlMeaning(), UidlFits());
  }

  lemma UnseenHides(p: Plan, l: Link, seen: set<string>)
    ensures Hides(p, l, SingleCourse(Uidl, UnseenMeaning(seen))) <==> HidesBy(p, l, Uidl, UidlFits())
  {
    forall s: Session ensures FailsBy(s, Uidl, UidlFits()(s), Failure(UnseenMeaning(seen)(s))) {
      UnseenVerdict(s, seen);
    }
    SingleHides(p, l, Uidl, UnseenMeaning(seen), UidlFits());
  }

  lemma CapaHides(p: Plan, l: Link)
    ensures Hides(p, l, SingleCourse(Command.Capa, CapaMeaning())) <==> HidesBy(p, l, Command.Capa, AlwaysFits())
  {
    forall s: Session ensures FailsBy(s, Command.Capa, AlwaysFits()(s), Failure(CapaMeaning()(s))) {
      PlainVerdicts(s, Command.Capa);
    }
    SingleHides(p, l, Command.Capa, CapaMeaning(), AlwaysFits());
  }

  lemma MessageHides(p: Plan, l: Link, c: Command)
    requires c.Retr? || c.Top?
    ensures Hides(p, l, SingleCourse(c, MessageMeaning(c))) <==> HidesBy(p, l, c, AlwaysFits())
  {
    forall s: Session ensures FailsBy(s, c, AlwaysFits()(s), Failure(MessageMeaning(c)(s))) { PlainVerdicts(s, c); }
    SingleHides(p, l, c, MessageMeaning(c), AlwaysFits());
  }

  lemma AckHides(p: Plan, l: Link, c: Command)
    requires c.Noop? || c.Rset? || c.Dele?
    ensures Hides(p, l, SingleCourse(c, AckMeaning(c))) <==> HidesBy(p, l, c, AlwaysFits())
  {
    forall s: Session ensures FailsBy(s, c, AlwaysFits()(s), Failure(AckMeaning(c)(s))) { PlainVerdicts(s, c); }
    SingleHides(p, l, c, AckMeaning(c), AlwaysFits());
  }

  /** The connection does not hold out for the fetch or the server puts off one of its
      commands; a new session is reached; and there the connection does not hold out, or one
      of its commands is not obeyed, or the listing is out of range. */
  ghost predicate FetchHidesBy(p: Plan, l: Link, seen: set<string>) {
    (!FetchLasts(l, seen) || PutsOffFetch(l.server, seen)) && Arrival(p, 0).Some?
    && (!Survives(Arriving(p), Command.Capa)
        || (var l1 := Worn(Arriving(p), Command.Capa); !FetchLasts(l1, seen) || FailsFetch(l1.server, seen)))
  }

  lemma FetchHides(p: Plan, l: Link, seen: set<string>)
    ensures Hides(p, l, FetchCourse(seen)) <==> FetchHidesBy(p, l, seen)
  {
    FetchFailsBy(l.server, seen);
    if Arrival(p, 0).Some? { FetchFailsBy(Worn(Arriving(p), Command.Capa).server, seen); }
  }

  /** A connection that is broken, or that brings no more lines, holds out for nothing: it is
      enough that it has dropped, noticed or not. */
  lemma Dropped(l: Link, c: Command)
    requires Broken(l) || l.lost || (!l.reliable && l.lines == 0)
    ensures DepartsBy(l, c)
  {}

  // ---- the smallest cases ----

  /** A server that accepts a login, and then has `mood` for the next command. */
  function Host(box: seq<Msg>, mood: Mood): Dial {
    Reached(box, [], [Comply(""), Comply(""), Comply(""), mood], Hello(""), None, true, 0, 0, 0, Io)
  }

  function OneDial(d: Dial): Plan { Plan([d], Account(Plain, "u", "p"), 0) }

  function LoggedInAt(box: seq<Msg>, mood: Mood): Session {
    Session(box, {}, true, true, false, [], [Comply(""), mood])
  }

  lemma HostEntered(box: seq<Msg>, mood: Mood)
    ensures var p := OneDial(Host(box, mood));
            Arrival(p, 0) == Some(0) && Arriving(p).reliable && !Broken(Arriving(p)) && !Arriving(p).lost
            && Arriving(p).server == LoggedInAt(box, mood)
  {
    var d, a := Host(box, mood), Account(Plain, "u", "p");
    var l0 := Greeted(d);
    var s1 := Next(l0.server, User("u"));
    assert s1.script == [Comply(""), Comply(""), mood] && s1.user;
    var s2 := Next(s1, Pass("p"));
    assert s2 == LoggedInAt(box, mood);
    ReliableStep(l0, User("u"));
    ReliableStep(Worn(l0, User("u")), Pass("p"));
    assert LoginCommands(a) == [User("u")] + [Pass("p")] && [Pass("p")][1..] == [];
    assert LoginCommands(a)[1..] == [Pass("p")];
    assert DialAt(OneDial(d).dials, 0) == d;
    assert Fare(d, a) == Through(Worn(Worn(l0, User("u")), Pass("p")));
  }

  /** Concrete inputs for DELE on a connection that has dropped, noticed or not: the new
      session has no message 7; or has it, and refuses; but not if it has it and obeys. */
  lemma HiddenExamples(l: Link, box: seq<Msg>, why: Refusal)
    requires Broken(l) || l.lost || (!l.reliable && l.lines == 0)
    ensures |box| < 7 ==> Hides(OneDial(Host(box, Comply(""))), l, DeleCourse(7))
    ensures Hides(OneDial(Host(box, Refuse(why))), l, DeleCourse(7))
    ensures |box| >= 7 ==> !Hides(OneDial(Host(box, Comply(""))), l, DeleCourse(7))
  {
    HostHides(l, box, Comply(""));
    HostHides(l, box, Refuse(why));
  }

  function DeleCourse(n: nat): Course { SingleCourse(Command.Dele(n), AckMeaning(Command.Dele(n))) }

  lemma HostHides(l: Link, box: seq<Msg>, mood: Mood)
    requires Broken(l) || l.lost || (!l.reliable && l.lines == 0)
    ensures Hides(OneDial(Host(box, mood)), l, DeleCourse(7)) <==> mood.Refuse? || |box| < 7
  {
    var p, c := OneDial(Host(box, mood)), Command.Dele(7);
    Dropped(l, c);
    HostEntered(box, mood);
    ReliableStep(Arriving(p), Command.Capa);
    ReliableStep(Worn(Arriving(p), Command.Capa), c);
    assert Next(LoggedInAt(box, mood), Command.Capa).script == [mood];
    AckHides(p, l, c);
  }
}
