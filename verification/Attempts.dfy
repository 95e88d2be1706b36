/** One attempt at a call on one connection: what it does to the marks, what it returns, and
    when it fails. */
module Attempts {
  import opened Basics
  import opened Strings
  import opened Response
  import opened Server
  import opened Pipeline
  import opened Connection
  import opened Meaning
  import opened Exchange
  import opened Window
  import opened Batch
  import opened Builder
  import opened Redial

  // ---- what a call does to the marks of the session ----

  datatype Effect = Keep | Clear | Add(ids: set<nat>)

  function Applied(marks: set<nat>, replaced: bool, e: Effect): set<nat> {
    var base := if replaced then {} else marks;
    match e case Keep => base case Clear => {} case Add(ids) => base + ids
  }

  /** What a call does to the session. Unless replaced, it keeps its mailbox. The marks
      never exceed what the effect says and the ids left in doubt; after an error the
      effect counts for nothing. Unless the connection is broken now, it was not broken
      before or has been replaced, and a call that returned Ok has set the marks to exactly
      what its effect says. */
  ghost predicate Accounted(l0: Link, l1: Link, replaced: bool, ok: bool, e: Effect, doubt: set<nat>) {
    (replaced || l1.server.box == l0.server.box)
    && l1.server.marked <= Applied(l0.server.marked, replaced, if ok then e else Keep) + doubt
    && (Broken(l1)
        || ((replaced || !Broken(l0)) && (ok ==> l1.server.marked == Applied(l0.server.marked, replaced, e))))
  }

  /** The same for one attempt on one connection. */
  ghost predicate Attempted(l0: Link, l1: Link, ok: bool, e: Effect, doubt: set<nat>) {
    l1.server.ended == l0.server.ended && (Broken(l0) ==> Broken(l1)) && Accounted(l0, l1, false, ok, e, doubt)
  }

  function EffectOfCommand(c: Command): Effect {
    match c case Dele(n) => Add({n}) case Rset => Clear case _ => Keep
  }

  function Named(c: Command): set<nat> { if c.Dele? then {c.n} else {} }

  /** The ids a failed call leaves in doubt: those it named. */
  function Unless(ok: bool, named: set<nat>): set<nat> { if ok then {} else named }

  predicate NotTurnedDown<T>(r: Result<T>) { !(r.Err? && r.error.NotAuthenticated?) }

  /** A single command: refused ones change nothing, others do what they are for. */
  lemma DidAttempt<T(!new)>(l0: Link, l1: Link, guard: Option<Error>, c: Command, r: Result<T>, meaning: Result<T>)
    requires Did(l0, l1, guard, c, r, meaning)
    requires ForMailbox(c) || c.Capa?
    requires (c.Dele? || c.Rset?) ==> (meaning.Err? <==> ReplyTo(l0.server, c).Minus?)
    requires guard != Some(NotAuthenticated) && NotTurnedDown(meaning)
    ensures Attempted(l0, l1, r.Ok?, EffectOfCommand(c), Unless(r.Ok?, Named(c)))
    ensures NotTurnedDown(r) && (r.Ok? ==> r == meaning && l1.server == Next(l0.server, c))
  {
    NextMarks(l0.server, c);
  }

  lemma NextMarks(s: Session, c: Command)
    requires ForMailbox(c) || c.Capa?
    ensures Next(s, c).box == s.box && Next(s, c).ended == s.ended
    ensures Next(s, c).marked ==
      if ReplyTo(s, c).Minus? then s.marked else Applied(s.marked, false, EffectOfCommand(c))
    ensures Next(s, c).marked <= s.marked + Named(c)
  {
    ReplyShape(s, c);
  }

  // ---- single commands ----

  function StatMeaning(): Session -> Result<Response.Stat> { s => StatOfReply(s, ReplyTo(s, Command.Stat)) }
  function ListMeaning(): Session -> Result<seq<ListEntry>> { s => ScansOf(ReplyTo(s, List), Scans(s)) }
  function UidlMeaning(): Session -> Result<seq<UidlEntry>> { s => UidsOf(ReplyTo(s, Uidl), Entries(s)) }
  function CapaMeaning(): Session -> Result<seq<Capability>> { s => CapsOf(s, ReplyTo(s, Command.Capa)) }
  function ScanMeaning(id: nat): Session -> Result<seq<ListEntry>> { s => ListOneOf(s, id) }
  function UidMeaning(id: nat): Session -> Result<seq<UidlEntry>> { s => UidlOneOf(s, id) }
  function UnseenMeaning(seen: set<string>): Session -> Result<seq<UidlEntry>> { s => UnseenOf(s, seen) }
  function MessageMeaning(c: Command): Session -> Result<Message> { s => MessageOf(ReplyTo(s, c)) }
  function AckMeaning(c: Command): Session -> Result<()> { s => AckOf(ReplyTo(s, c)) }

  type Attempt<!T> = (Link, Link, Result<T>) -> bool

  /** Commands for a message number zero are turned down before anything is sent. */
  function GuardOf(c: Command): Option<Error> {
    if (c.ListOne? || c.UidlOne? || c.Retr? || c.Dele? || c.Top?) && c.n == 0 then Some(InvalidInput) else None
  }

  /** An attempt at a single command, as a relation between connections. */
  ghost function Single<T(!new)>(c: Command, meaning: Session -> Result<T>): Attempt<T> {
    (l: Link, l1: Link, v: Result<T>) => Did(l, l1, GuardOf(c), c, v, meaning(l.server))
  }

  lemma SingleDone<T(!new)>(l: Link, l1: Link, guard: Option<Error>, c: Command, v: Result<T>, meant: Result<T>,
                            meaning: Session -> Result<T>)
    requires Did(l, l1, guard, c, v, meant) && (ForMailbox(c) || c.Capa?)
    requires guard == GuardOf(c) && meant == meaning(l.server)
    ensures Single(c, meaning)(l, l1, v)
    ensures l1.server.box == l.server.box && l1.server.ended == l.server.ended
  {}

  /** Every attempt has the effect on the marks, or leaves the named ids in doubt. */
  ghost predicate Harmless<T(!new)>(did: Attempt<T>, e: Effect, named: set<nat>) {
    forall l: Link, l1: Link, v: Result<T> :: did(l, l1, v) ==>
      Attempted(l, l1, v.Ok?, e, Unless(v.Ok?, named)) && NotTurnedDown(v)
  }

  /** A meaning is a value, the server's refusal, or an answer out of range. */
  ghost predicate Meant<T(!new)>(reply: Reply, c: Command, r: Result<T>) {
    match r
    case Ok(_) => !reply.Minus?
    case Err(e) => if reply.Minus? then e == ErrorOf(reply.why) else e == Parse && !c.Dele? && !c.Rset?
  }

  ghost predicate Proper<T(!new)>(c: Command, meaning: Session -> Result<T>) {
    forall s: Session :: Meant(ReplyTo(s, c), c, meaning(s))
  }

  /** No proper meaning is an error of the client itself. */
  lemma ProperMeaning<T(!new)>(c: Command, meaning: Session -> Result<T>, s: Session)
    requires Proper(c, meaning)
    ensures NotTurnedDown(meaning(s)) && !IsLost(meaning(s))
    ensures c.Dele? || c.Rset? ==> (meaning(s).Err? <==> ReplyTo(s, c).Minus?)
  {
    assert Meant(ReplyTo(s, c), c, meaning(s));
    if ReplyTo(s, c).Minus? { NeverNotAuthenticated(ReplyTo(s, c).why); }
  }

  lemma SingleHarmless<T(!new)>(c: Command, meaning: Session -> Result<T>)
    requires (ForMailbox(c) || c.Capa?) && Proper(c, meaning)
    ensures Harmless(Single(c, meaning), EffectOfCommand(c), Named(c))
  {
    forall l: Link, l1: Link, v: Result<T> | Single(c, meaning)(l, l1, v)
      ensures Attempted(l, l1, v.Ok?, EffectOfCommand(c), Unless(v.Ok?, Named(c))) && NotTurnedDown(v)
    {
      ProperMeaning(c, meaning, l.server);
      DidAttempt(l, l1, GuardOf(c), c, v, meaning(l.server));
    }
  }

  lemma ProperListings(n: nat)
    ensures Proper(Command.Stat, StatMeaning()) && Proper(List, ListMeaning()) && Proper(ListOne(n), ScanMeaning(n))
  {}

  lemma ProperUids(n: nat, seen: set<string>)
    ensures Proper(Uidl, UidlMeaning()) && Proper(Uidl, UnseenMeaning(seen)) && Proper(UidlOne(n), UidMeaning(n))
  {}

  lemma ProperAnswers(c: Command)
    ensures Proper(Command.Capa, CapaMeaning())
    ensures c.Retr? || c.Top? ==> Proper(c, MessageMeaning(c))
    ensures c.Noop? || c.Rset? || c.Dele? ==> Proper(c, AckMeaning(c))
  {}

  // ---- batches ----

  predicate AnyRetryable<T>(rs: seq<Result<T>>) { exists i :: 0 <= i < |rs| && rs[i].Err? && IsRetryable(rs[i].error) }

  function Spoilt<T>(): seq<Result<T>> -> bool { (rs: seq<Result<T>>) => AnyRetryable(rs) }

  function Never<T>(): T -> bool { (x: T) => false }

  /** An attempt at a batch: turned down for an id of zero, or carried out. */
  ghost predicate ManyAttempt<T(!new)>(l: Link, l1: Link, kind: Kind, ids: seq<nat>, v: Result<seq<Result<T>>>,
                                       meaning: Reply -> Result<T>)
  {
    if 0 in ids then v == Err(InvalidInput) && l1 == l
    else v.Ok? && exists k: nat, m: nat :: ManyDone(l, l1, kind, ids, v.value, meaning, k, m)
  }

  ghost function ManyDid<T(!new)>(kind: Kind, ids: seq<nat>, meaning: Reply -> Result<T>): Attempt<seq<Result<T>>> {
    (l: Link, l1: Link, v: Result<seq<Result<T>>>) => ManyAttempt(l, l1, kind, ids, v, meaning)
  }

  lemma ManyTaken<T(!new)>(l: Link, l1: Link, kind: Kind, ids: seq<nat>, v: Result<seq<Result<T>>>,
                           meaning: Reply -> Result<T>, k: nat, m: nat)
    requires if 0 in ids then v == Err(InvalidInput) && l1 == l
             else v.Ok? && ManyDone(l, l1, kind, ids, v.value, meaning, k, m)
    ensures ManyDid(kind, ids, meaning)(l, l1, v) && ManyAttempt(l, l1, kind, ids, v, meaning)
  {
    assert ManyAttempt(l, l1, kind, ids, v, meaning);
  }

  function Ids(ids: seq<nat>): set<nat> { set i | 0 <= i < |ids| :: ids[i] }

  /** The ids of the items that report a lost connection. */
  function LostIds(ids: seq<nat>, rs: seq<Result<()>>): set<nat>
    requires |rs| <= |ids|
  {
    set i | 0 <= i < |rs| && IsLost(rs[i]) :: ids[i]
  }

  /** The marks a DELE batch is known to have set. */
  function Acks(ids: seq<nat>, r: Result<seq<Result<()>>>): Effect {
    if r.Ok? && |r.value| <= |ids| then Add(Acknowledged(ids, r.value)) else Keep
  }

  /** What a DELE batch leaves in doubt: its lost items, or all of it if it failed. */
  function InDoubt(ids: seq<nat>, r: Result<seq<Result<()>>>): set<nat> {
    if r.Ok? && |r.value| <= |ids| then LostIds(ids, r.value) else Ids(ids)
  }

  lemma BatchIds(l0: Link, l1: Link, ids: seq<nat>, rs: seq<Result<()>>, k: nat, m: nat)
    requires BatchDone(l0, l1, Commands(Delete, ids), rs, AckOf, k, m)
    ensures Acknowledged(ids, rs) + Executed(l0.server, ids, k, m) <= Ids(ids)
    ensures Executed(l0.server, ids, k, m) <= LostIds(ids, rs)
  {}

  lemma DeleManyAttempt(l0: Link, l1: Link, ids: seq<nat>, v: Result<seq<Result<()>>>, e: Effect, doubt: set<nat>)
    requires ManyAttempt(l0, l1, Delete, ids, v, AckOf) && e == Acks(ids, v) && doubt == InDoubt(ids, v)
    ensures NotTurnedDown(v) && (v.Ok? ==> |v.value| == |ids|)
    ensures Attempted(l0, l1, v.Ok?, e, doubt) && l1.server.marked <= l0.server.marked + Ids(ids)
  {
    if v.Ok? {
      var k: nat, m: nat :| ManyDone(l0, l1, Delete, ids, v.value, AckOf, k, m);
      if ids == [] { NothingMarked(l0, ids, v.value); } else { DeleBatchAttempt(l0, l1, ids, v.value, k, m); }
    }
  }

  lemma NothingMarked(l: Link, ids: seq<nat>, rs: seq<Result<()>>)
    requires ids == [] && rs == []
    ensures Attempted(l, l, true, Add(Acknowledged(ids, rs)), LostIds(ids, rs))
  {
    assert Acknowledged(ids, rs) == {};
  }

  lemma DeleBatchAttempt(l0: Link, l1: Link, ids: seq<nat>, rs: seq<Result<()>>, k: nat, m: nat)
    requires BatchDone(l0, l1, Commands(Delete, ids), rs, AckOf, k, m)
    ensures Attempted(l0, l1, true, Add(Acknowledged(ids, rs)), LostIds(ids, rs))
    ensures l1.server.marked <= l0.server.marked + Ids(ids)
  {
    var acked, doubt := Acknowledged(ids, rs), Executed(l0.server, ids, k, m);
    DeleBatchAccount(l0, l1, ids, rs, k, m);
    BatchIds(l0, l1, ids, rs, k, m);
    MarkedAttempt(l0, l1, acked, doubt, LostIds(ids, rs));
  }

  lemma MarkedAttempt(l0: Link, l1: Link, acked: set<nat>, doubt: set<nat>, lost: set<nat>)
    requires l1.server.box == l0.server.box && l1.server.ended == l0.server.ended
    requires l1.server.marked == l0.server.marked + acked + doubt && doubt <= lost
    requires Broken(l1) || (!Broken(l0) && doubt == {})
    ensures Attempted(l0, l1, true, Add(acked), lost)
  {}

  lemma RetrManyAttempt(l0: Link, l1: Link, ids: seq<nat>, v: Result<seq<Result<Message>>>)
    requires ManyAttempt(l0, l1, Retrieve, ids, v, MessageOf)
    ensures Attempted(l0, l1, v.Ok?, Keep, {}) && NotTurnedDown(v)
    ensures v.Ok? ==> ShowsMessages(l1.server, ids, v.value)
  {
    if v.Ok? {
      var k: nat, m: nat :| ManyDone(l0, l1, Retrieve, ids, v.value, MessageOf, k, m);
      if ids != [] { RetrBatchShown(l0, l1, ids, v.value, k, m); }
    }
  }

  lemma RetrBatchShown(l0: Link, l1: Link, ids: seq<nat>, rs: seq<Result<Message>>, k: nat, m: nat)
    requires BatchDone(l0, l1, Commands(Retrieve, ids), rs, MessageOf, k, m)
    ensures Attempted(l0, l1, true, Keep, {}) && ShowsMessages(l1.server, ids, rs)
  {
    RetrBatchAccount(l0, l1, ids, rs, k, m);
    forall i | 0 <= i < |ids| && rs[i].Ok? ensures ShowsMessage(l1.server, ids[i], rs[i].value) {
      RetrBatchContent(l0, l1, ids, rs, k, m, i);
    }
  }

  lemma RetrManyHarmless(ids: seq<nat>)
    ensures Harmless(ManyDid(Retrieve, ids, MessageOf), Keep, {})
  {
    forall l: Link, l1: Link, v: Result<seq<Result<Message>>> | ManyDid(Retrieve, ids, MessageOf)(l, l1, v)
      ensures Attempted(l, l1, v.Ok?, Keep, Unless(v.Ok?, {})) && NotTurnedDown(v)
    {
      assert ManyAttempt(l, l1, Retrieve, ids, v, MessageOf);
      RetrManyAttempt(l, l1, ids, v);
    }
  }

  // ---- sync ----

  ghost predicate FetchAttempt(l: Link, l1: Link, seen: set<string>, v: Result<seq<(UidlEntry, Message)>>) {
    ReadOnly(l, l1, v) && NotTurnedDown(v) && (IsLost(v) <==> !FetchLasts(l, seen))
    && (v.Ok? ==> Fetched(l.server, seen, v.value))
    && (!IsLost(v) ==> Failure(v) == FetchVerdict(l.server, seen))
  }

  ghost predicate PruneAttempt(l: Link, l1: Link, before: set<string>, v: Result<seq<string>>) {
    ReadOnly(l, l1, v) && NotTurnedDown(v) && (IsLost(v) <==> !Survives(l, Uidl))
    && (v.Ok? ==> Range(v.value) == before - ListedUids(l.server) && NoRepeats(v.value))
    && (!IsLost(v) ==> Failure(v) == Failure(UidlMeaning()(l.server)))
  }

  ghost function FetchDid(seen: set<string>): Attempt<seq<(UidlEntry, Message)>> {
    (l: Link, l1: Link, v: Result<seq<(UidlEntry, Message)>>) => FetchAttempt(l, l1, seen, v)
  }

  ghost function PruneDid(before: set<string>): Attempt<seq<string>> {
    (l: Link, l1: Link, v: Result<seq<string>>) => PruneAttempt(l, l1, before, v)
  }

  lemma SyncHarmless(seen: set<string>)
    ensures Harmless(FetchDid(seen), Keep, {}) && Harmless(PruneDid(seen), Keep, {})
  {}

  // ---- when an attempt fails ----

  /** What a call is bound to come to: the links that hold out for it, and how the session
      fails it, if it does, when the link holds out. */
  datatype Course = Course(lasts: Link -> bool, verdict: Session -> Option<Error>)

  /** An attempt is lost exactly if the link does not hold out, which a broken one never
      does; otherwise the session alone decides whether and how it fails. */
  ghost predicate Settles<T(!new)>(did: Attempt<T>, course: Course) {
    (forall l: Link :: Broken(l) ==> !course.lasts(l))
    && forall l: Link, l1: Link, v: Result<T> :: did(l, l1, v) ==>
      (IsLost(v) <==> !course.lasts(l)) && (!IsLost(v) ==> Failure(v) == course.verdict(l.server))
  }

  function SingleCourse<T>(c: Command, meaning: Session -> Result<T>): Course {
    Course(l => Survives(l, c), s => Failure(meaning(s)))
  }

  function FetchCourse(seen: set<string>): Course { Course(l => FetchLasts(l, seen), s => FetchVerdict(s, seen)) }

  lemma SingleSettles<T(!new)>(c: Command, meaning: Session -> Result<T>)
    requires GuardOf(c).None?
    ensures Settles(Single(c, meaning), SingleCourse(c, meaning))
  {
    forall l: Link, l1: Link, v: Result<T> | Single(c, meaning)(l, l1, v)
      ensures IsLost(v) <==> !SingleCourse(c, meaning).lasts(l)
      ensures !IsLost(v) ==> Failure(v) == SingleCourse(c, meaning).verdict(l.server)
    {
      assert Did(l, l1, None, c, v, meaning(l.server));
    }
  }

  lemma FetchSettles(seen: set<string>)
    ensures Settles(FetchDid(seen), FetchCourse(seen))
  {}

  lemma PruneSettles(seen: set<string>)
    ensures Settles(PruneDid(seen), SingleCourse(Uidl, UidlMeaning()))
  {}

  /** The server refuses the command, and says that this may pass. */
  predicate PutOff(s: Session, c: Command) { !Obeyed(s, c) && Cannot(NextMood(s)).code.SysTempCode? }

  /** A command fails on a link that holds out exactly if the server does not obey it or a
      number in the answer does not fit its type, and for the moment exactly if it is put
      off. */
  predicate FailsBy(s: Session, c: Command, fits: bool, failure: Option<Error>) {
    (failure.Some? <==> !Obeyed(s, c) || !fits)
    && (failure.Some? && IsRetryable(failure.value) <==> PutOff(s, c))
  }

  function StatFits(): Session -> bool { s => |Scans(s)| <= U32_MAX && Total(Scans(s)) <= U64_MAX }
  function ListFits(): Session -> bool { s => forall i :: 0 <= i < |Scans(s)| ==> InRange(Scans(s)[i]) }
  function UidlFits(): Session -> bool { s => forall i :: 0 <= i < |Entries(s)| ==> IdInRange(Entries(s)[i]) }
  function ScanFits(n: nat): Session -> bool { s => Live(s, n) ==> InRange(ScanOf(s, n)) }
  function UidFits(n: nat): Session -> bool { s => Live(s, n) ==> IdInRange(EntryOf(s, n)) }
  function AlwaysFits(): Session -> bool { s => true }

  lemma PlainVerdicts(s: Session, c: Command)
    ensures c.Capa? ==> FailsBy(s, c, true, Failure(CapaMeaning()(s)))
    ensures c.Retr? || c.Top? ==> FailsBy(s, c, true, Failure(MessageMeaning(c)(s)))
    ensures c.Noop? || c.Rset? || c.Dele? ==> FailsBy(s, c, true, Failure(AckMeaning(c)(s)))
  {
    ReplyShape(s, c);
  }

  lemma StatVerdict(s: Session)
    ensures FailsBy(s, Command.Stat, StatFits()(s), Failure(StatMeaning()(s)))
  {
    ReplyShape(s, Command.Stat);
  }

  lemma ListVerdict(s: Session)
    ensures FailsBy(s, List, ListFits()(s), Failure(ListMeaning()(s)))
  {
    ReplyShape(s, List);
  }

  lemma OneVerdict(s: Session, n: nat)
    ensures FailsBy(s, ListOne(n), ScanFits(n)(s), Failure(ScanMeaning(n)(s)))
    ensures FailsBy(s, UidlOne(n), UidFits(n)(s), Failure(UidMeaning(n)(s)))
  {
    ReplyShape(s, ListOne(n));
    ReplyShape(s, UidlOne(n));
  }

  lemma UidlVerdict(s: Session)
    ensures FailsBy(s, Uidl, UidlFits()(s), Failure(UidlMeaning()(s)))
  {
    ReplyShape(s, Uidl);
  }

  lemma UnseenVerdict(s: Session, seen: set<string>)
    ensures FailsBy(s, Uidl, UidlFits()(s), Failure(UnseenMeaning(seen)(s)))
  {
    UidlVerdict(s);
  }

  // ---- a fetch in terms of its commands ----

  /** The commands of a fetch behind the UIDL. */
  function Retrs(s: Session, seen: set<string>): seq<Command> {
    Commands(Retrieve, Numbers(Unseen(Entries(s), seen)))
  }

  /** The session before the j-th RETR of a fetch. */
  function Before(s: Session, seen: set<string>, j: nat): Session
    requires j <= |Retrs(s, seen)|
  {
    After(Next(s, Uidl), Retrs(s, seen)[..j])
  }

  predicate ObeysRetr(s: Session, seen: set<string>, j: nat)
    requires j < |Retrs(s, seen)|
  {
    Obeyed(Before(s, seen, j), Retrs(s, seen)[j])
  }

  predicate PutsOffRetr(s: Session, seen: set<string>, j: nat)
    requires j < |Retrs(s, seen)|
  {
    PutOff(Before(s, seen, j), Retrs(s, seen)[j])
  }

  /** The j-th RETR is the first that is not obeyed. */
  predicate StopsAt(s: Session, seen: set<string>, j: nat) {
    j < |Retrs(s, seen)| && !ObeysRetr(s, seen, j) && forall i :: 0 <= i < j ==> ObeysRetr(s, seen, i)
  }

  /** The session fails a fetch: at the UIDL, or at one of the RETRs. */
  predicate FailsFetch(s: Session, seen: set<string>) {
    !Obeyed(s, Uidl) || !UidlFits()(s) || exists j :: 0 <= j < |Retrs(s, seen)| && !ObeysRetr(s, seen, j)
  }

  /** It does so by putting it off. */
  ghost predicate PutsOffFetch(s: Session, seen: set<string>) {
    PutOff(s, Uidl)
    || (Obeyed(s, Uidl) && UidlFits()(s) && exists j: nat :: StopsAt(s, seen, j) && PutsOffRetr(s, seen, j))
  }

  lemma RetrAnswer(s: Session, seen: set<string>, j: nat)
    requires j < |Retrs(s, seen)|
    ensures var failure := Failure(FetchAnswer(Next(s, Uidl), Unseen(Entries(s), seen), j));
            (failure.Some? <==> !ObeysRetr(s, seen, j))
            && (failure.Some? && IsRetryable(failure.value) <==> PutsOffRetr(s, seen, j))
  {
    ReplyAtState(Next(s, Uidl), Retrs(s, seen), j);
    PlainVerdicts(Before(s, seen, j), Retrs(s, seen)[j]);
  }

  predicate FirstErrorIs(s: Session, news: seq<UidlEntry>, i: nat, j: nat, e: Error) {
    i <= j < |news| && FetchAnswer(s, news, j) == Err(e) && forall k :: i <= k < j ==> FetchAnswer(s, news, k).Ok?
  }

  /** `FirstError` is what its name says. */
  lemma {:induction false} FirstErrorAt(s: Session, news: seq<UidlEntry>, i: nat) returns (j: nat)
    requires i <= |news|
    ensures match FirstError(s, news, i)
            case None => forall k :: i <= k < |news| ==> FetchAnswer(s, news, k).Ok?
            case Some(e) => FirstErrorIs(s, news, i, j, e)
    decreases |news| - i
  {
    j := i;
    if i < |news| && FetchAnswer(s, news, i).Ok? { j := FirstErrorAt(s, news, i + 1); }
  }

  lemma StopsOnce(s: Session, seen: set<string>, i: nat, j: nat)
    requires StopsAt(s, seen, i) && StopsAt(s, seen, j)
    ensures i == j
  {}

  /** A fetch fails exactly if UIDL or some RETR is not obeyed or a number is out of range,
      and for the moment exactly if the first refusal says so. */
  lemma FetchFailsBy(s: Session, seen: set<string>)
    ensures FetchVerdict(s, seen).Some? <==> FailsFetch(s, seen)
    ensures FetchVerdict(s, seen).Some? && IsRetryable(FetchVerdict(s, seen).value) <==> PutsOffFetch(s, seen)
  {
    UnseenVerdict(s, seen);
    if UnseenOf(s, seen).Ok? {
      var news := Unseen(Entries(s), seen);
      assert UnseenOf(s, seen).value == news;
      var j := FirstErrorAt(Next(s, Uidl), news, 0);
      forall k | 0 <= k < |news|
        ensures FetchAnswer(Next(s, Uidl), news, k).Err? <==> !ObeysRetr(s, seen, k)
      {
        RetrAnswer(s, seen, k);
      }
      if FetchVerdict(s, seen).Some? {
        RetrAnswer(s, seen, j);
        assert StopsAt(s, seen, j);
        forall i: nat | StopsAt(s, seen, i) ensures i == j { StopsOnce(s, seen, i, j); }
      }
    }
  }

  // ---- answers described by the session they leave behind ----

  /** The functions of a session that the mailbox and the marks determine. */
  lemma SameView(s0: Session, s1: Session)
    requires SameMail(s0, s1)
    ensures Entries(s0) == Entries(s1) && Scans(s0) == Scans(s1) && ListedUids(s0) == ListedUids(s1)
  {
    SameLive(s0, s1, 1);
    assert Entries(s0) == Entries(s1);
  }

  /** What an Ok value tells about the session that the call ends in. */
  lemma StatShown(s: Session)
    ensures var s1 := Next(s, Command.Stat);
            StatMeaning()(s).Ok? ==> StatMeaning()(s).value == Response.Stat(|Scans(s1)|, Total(Scans(s1)))
  {
    SameView(s, Next(s, Command.Stat));
  }

  lemma ListShown(s: Session)
    ensures ListMeaning()(s).Ok? ==> ListMeaning()(s).value == Scans(Next(s, List))
  {
    SameView(s, Next(s, List));
  }

  lemma UidlShown(s: Session, seen: set<string>)
    ensures UidlMeaning()(s).Ok? ==> UidlMeaning()(s).value == Entries(Next(s, Uidl))
    ensures UnseenOf(s, seen).Ok? ==> UnseenOf(s, seen).value == Unseen(Entries(Next(s, Uidl)), seen)
  {
    SameView(s, Next(s, Uidl));
  }

  lemma CapaShown(s: Session)
    ensures CapaMeaning()(s).Ok? ==> CapaMeaning()(s).value == Announce(Next(s, Command.Capa).caps)
  {}

  lemma OneShown(s: Session, n: nat)
    ensures ScanMeaning(n)(s).Ok? ==> Live(s, n) && ScanMeaning(n)(s).value == [ScanOf(s, n)]
    ensures UidMeaning(n)(s).Ok? ==> Live(s, n) && UidMeaning(n)(s).value == [EntryOf(s, n)]
  {}

  predicate ShowsMessage(s: Session, id: nat, v: Message) { Live(s, id) && v == Content(s, id) }

  predicate ShowsTop(s: Session, id: nat, k: nat, v: Message) {
    Live(s, id) && v == Message(Unlines(TopLines(s.box[id - 1].lines, k)))
  }

  lemma MessagesShown(s: Session, id: nat, k: nat)
    ensures var v := MessageOf(ReplyTo(s, Command.Retr(id)));
            v.Ok? ==> ShowsMessage(Next(s, Command.Retr(id)), id, v.value)
    ensures var v := MessageOf(ReplyTo(s, Command.Top(id, k)));
            v.Ok? ==> ShowsTop(Next(s, Command.Top(id, k)), id, k, v.value)
  {}

  lemma FetchedShown(s0: Session, s1: Session, seen: set<string>, pairs: seq<(UidlEntry, Message)>)
    requires SameMail(s0, s1) && Fetched(s0, seen, pairs)
    ensures Fetched(s1, seen, pairs)
  {
    SameView(s0, s1);
    assert forall n :: Content(s0, n) == Content(s1, n);
  }

  /** Every pair is an unseen UID and that UID's own message, whatever number it had. */
  ghost predicate OwnMail(pairs: seq<(UidlEntry, Message)>, mail: string -> seq<string>, seen: set<string>) {
    forall i :: 0 <= i < |pairs| ==>
      pairs[i].0.uniqueId !in seen && pairs[i].1 == Message(Unlines(mail(pairs[i].0.uniqueId)))
  }

  lemma FetchedIsOwn(s: Session, seen: set<string>, pairs: seq<(UidlEntry, Message)>, mail: string -> seq<string>)
    requires Fetched(s, seen, pairs) && Genuine(s.box, mail)
    ensures OwnMail(pairs, mail, seen)
  {
    var news := Unseen(Entries(s), seen);
    UnseenEntries(Entries(s), seen);
    forall i | 0 <= i < |pairs|
      ensures pairs[i].0.uniqueId !in seen && pairs[i].1 == Message(Unlines(mail(pairs[i].0.uniqueId)))
    {
      assert news[i] in Unseen(Entries(s), seen);
      EntryIsLive(s, news[i]);
    }
  }

  /** Every message in a batch result is the message with that number. */
  predicate ShowsMessages(s: Session, ids: seq<nat>, rs: seq<Result<Message>>) {
    |rs| == |ids| && forall i :: 0 <= i < |rs| && rs[i].Ok? ==> ShowsMessage(s, ids[i], rs[i].value)
  }
}
