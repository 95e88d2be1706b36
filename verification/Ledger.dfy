/** The caller's books: which deletions a run of calls has pending, judged from the
    outcomes alone. */
module Ledger {
  import opened Basics
  import opened Server
  import opened Response
  import opened Connection
  import opened Meaning
  import opened Pipeline
  import opened Exchange
  import opened Client
  import opened Builder
  import opened Redial
  import opened Attempts
  import opened Calls
  import opened Reconnect

  /** What the caller sees of one call; `doubt` are the ids of a failed call, or those of
      the items of a batch that report a lost connection. */
  datatype Report = Report(ok: bool, reconnected: bool, effect: Effect, doubt: set<nat>)

  /** `pending`: ids the caller takes to be marked; `doubt`: ids whose deletion was left
      open since the books were last certain; `exact`: no call has failed since then. */
  datatype Books = Books(pending: set<nat>, doubt: set<nat>, exact: bool)

  /** A reconnect empties the books before the effect is entered, a reset empties them,
      and both make them certain again. */
  function Enter(b: Books, r: Report): Books {
    if !r.ok then Books(b.pending, b.doubt + r.doubt, false)
    else
      var certain := r.reconnected || r.effect.Clear?;
      Books(Applied(b.pending, r.reconnected, r.effect), (if certain then {} else b.doubt) + r.doubt,
            certain || b.exact)
  }

  /** The books agree with the session: every mark is entered or in doubt, and on a live
      connection exact books hold exactly the marks. */
  ghost predicate Agree(l: Link, b: Books) {
    l.server.marked <= b.pending + b.doubt && (b.exact && !Broken(l) ==> l.server.marked == b.pending)
  }

  /** What a wrapper promises about one call, as a relation between connections. */
  ghost predicate Faithful(l0: Link, l1: Link, r: Report) {
    exists replaced: bool ::
      Accounted(l0, l1, replaced, r.ok, r.effect, r.doubt) && (r.ok ==> replaced == r.reconnected)
  }

  /** One call keeps the books in agreement. */
  lemma EnterAgrees(l0: Link, l1: Link, b: Books, r: Report)
    requires Agree(l0, b) && Faithful(l0, l1, r)
    ensures Agree(l1, Enter(b, r))
  {
    var replaced: bool :| Accounted(l0, l1, replaced, r.ok, r.effect, r.doubt) && (r.ok ==> replaced == r.reconnected);
    AppliedGrows(l0.server.marked, b.pending, b.doubt, replaced, if r.ok then r.effect else Keep);
  }

  lemma AppliedGrows(marked: set<nat>, pending: set<nat>, doubt: set<nat>, replaced: bool, e: Effect)
    requires marked <= pending + doubt
    ensures Applied(marked, replaced, e) <= Applied(pending, replaced, e) + if replaced || e.Clear? then {} else doubt
    ensures Applied(marked, replaced, Keep) <= pending + doubt
  {}

  function Balance(b: Books, rs: seq<Report>): Books
    decreases |rs|
  {
    if rs == [] then b else Balance(Enter(b, rs[0]), rs[1..])
  }

  predicate AllOk(rs: seq<Report>) { forall i :: 0 <= i < |rs| ==> rs[i].ok }

  lemma {:induction false} CleanRunIsExact(b: Books, rs: seq<Report>)
    requires b.exact && AllOk(rs)
    ensures Balance(b, rs).exact
    decreases |rs|
  {
    if rs != [] { CleanRunIsExact(Enter(b, rs[0]), rs[1..]); }
  }

  /** None of the calls has lost an item of a batch. */
  predicate NoDoubt(rs: seq<Report>) { forall i :: 0 <= i < |rs| ==> rs[i].doubt == {} }

  lemma {:induction false} CleanRunHasNoDoubt(b: Books, rs: seq<Report>)
    requires b.doubt == {} && NoDoubt(rs)
    ensures Balance(b, rs).doubt == {}
    decreases |rs|
  {
    if rs != [] { CleanRunHasNoDoubt(Enter(b, rs[0]), rs[1..]); }
  }

  /** An outcome that tells of a new session, or a reset, sets the books straight, whatever went
      before; they stay exact until the next error, and nothing is in doubt until the next
      lost item. */
  lemma {:induction false} BooksRecover(b: Books, rs: seq<Report>, i: nat)
    requires i < |rs| && rs[i].ok && (rs[i].reconnected || rs[i].effect.Clear?) && AllOk(rs[i + 1..])
    ensures Balance(b, rs).exact
    ensures NoDoubt(rs[i..]) ==> Balance(b, rs).doubt == {}
    decreases |rs|
  {
    if i == 0 {
      CleanRunIsExact(Enter(b, rs[0]), rs[1..]);
      if NoDoubt(rs[i..]) { CleanRunHasNoDoubt(Enter(b, rs[0]), rs[1..]); }
    } else {
      assert rs[1..][i..] == rs[i + 1..] && rs[1..][i - 1..] == rs[i..];
      BooksRecover(Enter(b, rs[0]), rs[1..], i - 1);
    }
  }

  /** A DELE batch without a lost item leaves nothing in doubt. */
  lemma NothingInDoubt(ids: seq<nat>, rs: seq<Result<()>>)
    requires |rs| == |ids| && forall i :: 0 <= i < |rs| ==> !IsLost(rs[i])
    ensures InDoubt(ids, Ok(rs)) == {}
  {}

  /** A run of calls: the connection before the i-th call is links[i]. */
  ghost predicate Ran(links: seq<Link>, rs: seq<Report>) {
    |links| == |rs| + 1 && forall i :: 0 <= i < |rs| ==> Faithful(links[i], links[i + 1], rs[i])
  }

  /** Over every run, whatever failed and however often sessions were replaced, the books
      kept from the outcomes agree with the session. If all calls returned Ok and the
      connection is alive, the session's marks are exactly the caller's pending set. */
  lemma {:induction false} RunAgrees(links: seq<Link>, rs: seq<Report>, b: Books)
    requires Ran(links, rs) && Agree(links[0], b)
    ensures Agree(links[|rs|], Balance(b, rs))
    ensures b.exact && AllOk(rs) && !Broken(links[|rs|]) ==> links[|rs|].server.marked == Balance(b, rs).pending
    decreases |rs|
  {
    if rs != [] {
      EnterAgrees(links[0], links[1], b, rs[0]);
      forall i | 0 <= i < |rs[1..]| ensures Faithful(links[1..][i], links[1..][i + 1], rs[1..][i]) {
        assert Faithful(links[i + 1], links[i + 2], rs[i + 1]);
      }
      RunAgrees(links[1..], rs[1..], Enter(b, rs[0]));
      if b.exact && AllOk(rs) { CleanRunIsExact(b, rs); }
    }
  }

  // ---- a caller that keeps books over arbitrary calls ----

  datatype Call =
    | CallStat | CallList | CallListOne(id: U32) | CallUidl | CallUidlOne(id: U32) | CallRetr(id: U32)
    | CallTop(id: U32, lines: U32) | CallCapa | CallNoop | CallRetrMany(ids: seq<U32>)
    | CallUnseen(seen: set<string>) | CallFetch(seen: set<string>) | CallPrune(seen: set<string>)
    | CallRset | CallDele(id: U32) | CallDeleMany(ids: seq<U32>)

  predicate IsBatch(call: Call) { call.CallRetrMany? || call.CallDeleMany? }

  /** The call is turned down for a message number of zero. */
  predicate HasZeroId(call: Call) {
    (call.CallListOne? || call.CallUidlOne? || call.CallRetr? || call.CallTop? || call.CallDele?) && call.id == 0
  }

  /** The course of a call that is not a batch. */
  function CourseOfCall(call: Call): Course {
    match call
    case CallStat => SingleCourse(Command.Stat, StatMeaning())
    case CallList => SingleCourse(List, ListMeaning())
    case CallListOne(id) => SingleCourse(ListOne(id), ScanMeaning(id))
    case CallUidl => SingleCourse(Uidl, UidlMeaning())
    case CallUidlOne(id) => SingleCourse(UidlOne(id), UidMeaning(id))
    case CallRetr(id) => SingleCourse(Command.Retr(id), MessageMeaning(Command.Retr(id)))
    case CallTop(id, lines) => SingleCourse(Command.Top(id, lines), MessageMeaning(Command.Top(id, lines)))
    case CallCapa => SingleCourse(Command.Capa, CapaMeaning())
    case CallNoop => SingleCourse(Command.Noop, AckMeaning(Command.Noop))
    case CallRset => SingleCourse(Command.Rset, AckMeaning(Command.Rset))
    case CallDele(id) => SingleCourse(Command.Dele(id), AckMeaning(Command.Dele(id)))
    case CallUnseen(seen) => SingleCourse(Uidl, UnseenMeaning(seen))
    case CallFetch(seen) => FetchCourse(seen)
    case CallPrune(_) => SingleCourse(Uidl, UidlMeaning())
    case _ => NoCourse()
  }

  function NoCourse(): Course { Course(l => true, s => None) }

  /** The call will replace the session without telling. */
  predicate HidesCall(p: Plan, l: Link, call: Call) {
    !IsBatch(call) && !HasZeroId(call) && Hides(p, l, CourseOfCall(call))
  }

  /** The call will return Ok. */
  predicate SucceedsCall(p: Plan, l: Link, call: Call) {
    !IsBatch(call) && !HasZeroId(call) && Succeeds(p, l, CourseOfCall(call))
  }

  /** The same in terms of connections and commands: the connection does not hold out for the
      call or the server puts it off; a new session is reached; and there the connection
      does not hold out, or a command is not obeyed, or a number does not fit. */
  ghost predicate HidesCallBy(p: Plan, l: Link, call: Call) {
    !HasZeroId(call) &&
    match call
    case CallStat => HidesBy(p, l, Command.Stat, StatFits())
    case CallList => HidesBy(p, l, List, ListFits())
    case CallListOne(id) => HidesBy(p, l, ListOne(id), ScanFits(id))
    case CallUidlOne(id) => HidesBy(p, l, UidlOne(id), UidFits(id))
    case CallUidl | CallUnseen(_) | CallPrune(_) => HidesBy(p, l, Uidl, UidlFits())
    case CallRetr(id) => HidesBy(p, l, Command.Retr(id), AlwaysFits())
    case CallTop(id, lines) => HidesBy(p, l, Command.Top(id, lines), AlwaysFits())
    case CallCapa => HidesBy(p, l, Command.Capa, AlwaysFits())
    case CallNoop => HidesBy(p, l, Command.Noop, AlwaysFits())
    case CallRset => HidesBy(p, l, Command.Rset, AlwaysFits())
    case CallDele(id) => HidesBy(p, l, Command.Dele(id), AlwaysFits())
    case CallFetch(seen) => FetchHidesBy(p, l, seen)
    case CallRetrMany(_) | CallDeleMany(_) => false
  }

  predicate IsListing(call: Call) {
    call.CallStat? || call.CallList? || call.CallListOne? || call.CallUidl? || call.CallUidlOne?
    || call.CallUnseen? || call.CallPrune?
  }

  lemma CallHides(p: Plan, l: Link, call: Call)
    ensures HidesCall(p, l, call) <==> HidesCallBy(p, l, call)
  {
    if IsListing(call) { ListingHides(p, l, call); } else if !IsBatch(call) { OtherHides(p, l, call); }
  }

  lemma ListingHides(p: Plan, l: Link, call: Call)
    requires IsListing(call)
    ensures HidesCall(p, l, call) <==> HidesCallBy(p, l, call)
  {
    match call
    case CallStat => StatHides(p, l);
    case CallList => ListHides(p, l);
    case CallListOne(id) => ScanHides(p, l, id);
    case CallUidlOne(id) => UidHides(p, l, id);
    case _ => UidsHide(p, l, call);
  }

  lemma UidsHide(p: Plan, l: Link, call: Call)
    requires call.CallUidl? || call.CallUnseen? || call.CallPrune?
    ensures HidesCall(p, l, call) <==> HidesCallBy(p, l, call)
  {
    if call.CallUnseen? { UnseenHides(p, l, call.seen); } else { UidlHides(p, l); }
  }

  lemma OtherHides(p: Plan, l: Link, call: Call)
    requires !IsListing(call) && !IsBatch(call)
    ensures HidesCall(p, l, call) <==> HidesCallBy(p, l, call)
  {
    match call
    case CallRetr(id) => MessageHides(p, l, Command.Retr(id));
    case CallTop(id, lines) => MessageHides(p, l, Command.Top(id, lines));
    case CallCapa => CapaHides(p, l);
    case CallNoop => AckHides(p, l, Command.Noop);
    case CallRset => AckHides(p, l, Command.Rset);
    case CallDele(id) => AckHides(p, l, Command.Dele(id));
    case CallFetch(seen) => FetchHides(p, l, seen);
  }

  datatype Fate = Same | Replaced

  function FateOf<T>(s: Story<T>): Fate { if s.Moved? then Replaced else Same }

  function ReportOf<T>(r: Result<Outcome<T>>, e: Effect, doubt: set<nat>): Report {
    Report(r.Ok?, r.Ok? && r.value.Reconnected?, e, doubt)
  }

  /** The session was replaced, and the caller has not been told. */
  predicate Silent(fate: Fate, r: Report) { fate.Replaced? && !r.reconnected }

  /** The report accounts for the marks; unless the call is a batch, it is Ok exactly if the call
      was going to succeed; and it is silent about a replaced session exactly if
      the call was going to hide it. Then all earlier marks are gone, and only ids that the
      call itself named can be marked anew, on a connection that is broken again. */
  ghost predicate Reported(p: Plan, l0: Link, l1: Link, call: Call, fate: Fate, r: Report) {
    Faithful(l0, l1, r) && (r.ok ==> (r.reconnected <==> fate.Replaced?))
    && (!IsBatch(call) ==> (r.ok <==> SucceedsCall(p, l0, call)))
    && (Silent(fate, r) <==> HidesCall(p, l0, call))
    && (Silent(fate, r) ==> l1.server.marked <= r.doubt && (!Broken(l1) ==> l1.server.marked == {}))
  }

  function SingleReport<T>(r: Result<Outcome<T>>, c: Command): Report {
    ReportOf(r, EffectOfCommand(c), Unless(r.Ok?, Named(c)))
  }

  /** The call is the one for that command. */
  ghost predicate Fits<T(!new)>(call: Call, c: Command, meaning: Session -> Result<T>) {
    !IsBatch(call) && (HasZeroId(call) <==> GuardOf(c).Some?) && CourseOfCall(call) == SingleCourse(c, meaning)
    && (ForMailbox(c) || c.Capa?) && Proper(c, meaning)
  }

  lemma ListingsFit(call: Call)
    ensures call.CallStat? ==> Fits(call, Command.Stat, StatMeaning())
    ensures call.CallList? ==> Fits(call, List, ListMeaning())
    ensures call.CallListOne? ==> Fits(call, ListOne(call.id), ScanMeaning(call.id))
    ensures call.CallUidl? ==> Fits(call, Uidl, UidlMeaning())
    ensures call.CallUidlOne? ==> Fits(call, UidlOne(call.id), UidMeaning(call.id))
    ensures call.CallUnseen? ==> Fits(call, Uidl, UnseenMeaning(call.seen))
  {
    var n: nat := if call.CallListOne? || call.CallUidlOne? then call.id else 0;
    ProperListings(n);
    ProperUids(n, if call.CallUnseen? then call.seen else {});
  }

  lemma AnswersFit(call: Call)
    ensures call.CallRetr? ==> Fits(call, Command.Retr(call.id), MessageMeaning(Command.Retr(call.id)))
    ensures call.CallTop? ==>
      Fits(call, Command.Top(call.id, call.lines), MessageMeaning(Command.Top(call.id, call.lines)))
    ensures call.CallCapa? ==> Fits(call, Command.Capa, CapaMeaning())
    ensures call.CallNoop? ==> Fits(call, Command.Noop, AckMeaning(Command.Noop))
    ensures call.CallRset? ==> Fits(call, Command.Rset, AckMeaning(Command.Rset))
    ensures call.CallDele? ==> Fits(call, Command.Dele(call.id), AckMeaning(Command.Dele(call.id)))
  {
    match call
    case CallRetr(id) => ProperAnswers(Command.Retr(id));
    case CallTop(id, lines) => ProperAnswers(Command.Top(id, lines));
    case CallDele(id) => ProperAnswers(Command.Dele(id));
    case CallRset => ProperAnswers(Command.Rset);
    case _ => ProperAnswers(Command.Noop);
  }

  lemma SingleReported<T(!new)>(p: Plan, c: Command, meaning: Session -> Result<T>, l0: Link, l1: Link, s: Story<T>,
                                call: Call, o: Result<Outcome<T>>, fate: Fate, r: Report)
    requires Told(p, Single(c, meaning), Never(), l0, l1, s) && Fits(call, c, meaning)
    requires o == OutcomeOf(s) && r == SingleReport(o, c) && fate == FateOf(s)
    ensures Reported(p, l0, l1, call, fate, r)
  {
    SingleFaithful(p, c, meaning, l0, l1, s, o, r);
    SingleHidden(p, c, meaning, l0, l1, s);
  }

  lemma SingleFaithful<T(!new)>(p: Plan, c: Command, meaning: Session -> Result<T>, l0: Link, l1: Link, s: Story<T>,
                                o: Result<Outcome<T>>, r: Report)
    requires Told(p, Single(c, meaning), Never(), l0, l1, s) && Proper(c, meaning) && (ForMailbox(c) || c.Capa?)
    requires o == OutcomeOf(s) && r == SingleReport(o, c)
    ensures Faithful(l0, l1, r)
    ensures Hidden(s) ==> l1.server.marked <= r.doubt
  {
    SingleHarmless(c, meaning);
    StoryAccount(p, Single(c, meaning), Never(), l0, l1, s, EffectOfCommand(c), Named(c));
    if Hidden(s) { MarksLeft(l0, l1, EffectOfCommand(c), r.doubt); }
  }

  lemma SingleHidden<T(!new)>(p: Plan, c: Command, meaning: Session -> Result<T>, l0: Link, l1: Link, s: Story<T>)
    requires Told(p, Single(c, meaning), Never(), l0, l1, s) && Proper(c, meaning) && (ForMailbox(c) || c.Capa?)
    ensures Hidden(s) <==> GuardOf(c).None? && Hides(p, l0, SingleCourse(c, meaning))
    ensures OutcomeOf(s).Ok? <==> GuardOf(c).None? && Succeeds(p, l0, SingleCourse(c, meaning))
    ensures Hidden(s) && !Broken(l1) ==> l1.server.marked == {}
  {
    if GuardOf(c).Some? {
      TurnedDown(p, c, meaning, l0, l1, s);
    } else {
      SingleSettles(c, meaning);
      HiddenExactly(p, Single(c, meaning), SingleCourse(c, meaning), l0, l1, s);
      OkExactly(p, Single(c, meaning), SingleCourse(c, meaning), l0, l1, s);
      if Hidden(s) && !Broken(l1) { HiddenMarks(p, c, meaning, l0, l1, s); }
    }
  }

  lemma MarksLeft(l0: Link, l1: Link, e: Effect, doubt: set<nat>)
    requires Accounted(l0, l1, true, false, e, doubt)
    ensures l1.server.marked <= doubt
  {}

  lemma SyncReported<T(!new)>(p: Plan, did: Attempt<T>, course: Course, l0: Link, l1: Link, s: Story<T>,
                              call: Call, fate: Fate, r: Report)
    requires Told(p, did, Never(), l0, l1, s) && Harmless(did, Keep, {}) && Settles(did, course)
    requires !IsBatch(call) && !HasZeroId(call) && course == CourseOfCall(call)
    requires r == ReportOf(OutcomeOf(s), Keep, {}) && fate == FateOf(s)
    ensures Reported(p, l0, l1, call, fate, r)
  {
    SyncFaithful(p, did, l0, l1, s, r);
    HiddenExactly(p, did, course, l0, l1, s);
    OkExactly(p, did, course, l0, l1, s);
    AllReported(p, course, l0, l1, s, call, fate, r);
  }

  lemma AllReported<T>(p: Plan, course: Course, l0: Link, l1: Link, s: Story<T>, call: Call, fate: Fate, r: Report)
    requires !IsBatch(call) && !HasZeroId(call) && course == CourseOfCall(call)
    requires r == ReportOf(OutcomeOf(s), r.effect, r.doubt) && fate == FateOf(s) && Faithful(l0, l1, r)
    requires (Hidden(s) <==> Hides(p, l0, course)) && (OutcomeOf(s).Ok? <==> Succeeds(p, l0, course))
    requires Hidden(s) ==> l1.server.marked <= r.doubt && (!Broken(l1) ==> l1.server.marked == {})
    ensures Reported(p, l0, l1, call, fate, r)
  {}

  lemma SyncFaithful<T(!new)>(p: Plan, did: Attempt<T>, l0: Link, l1: Link, s: Story<T>, r: Report)
    requires Told(p, did, Never(), l0, l1, s) && Harmless(did, Keep, {})
    requires r == ReportOf(OutcomeOf(s), Keep, {})
    ensures Faithful(l0, l1, r) && (Hidden(s) ==> l1.server.marked == {})
  {
    StoryAccount(p, did, Never(), l0, l1, s, Keep, {});
    if Hidden(s) { MarksLeft(l0, l1, Keep, {}); }
  }

  lemma FetchReported(p: Plan, seen: set<string>, l0: Link, l1: Link, s: Story<seq<(UidlEntry, Message)>>, call: Call,
                      fate: Fate, r: Report)
    requires Told(p, FetchDid(seen), Never(), l0, l1, s) && call == CallFetch(seen)
    requires r == ReportOf(OutcomeOf(s), Keep, {}) && fate == FateOf(s)
    ensures Reported(p, l0, l1, call, fate, r)
  {
    SyncHarmless(seen);
    FetchSettles(seen);
    SyncReported(p, FetchDid(seen), FetchCourse(seen), l0, l1, s, call, fate, r);
  }

  lemma PruneReported(p: Plan, seen: set<string>, l0: Link, l1: Link, s: Story<seq<string>>, call: Call,
                      fate: Fate, r: Report)
    requires Told(p, PruneDid(seen), Never(), l0, l1, s) && call == CallPrune(seen)
    requires r == ReportOf(OutcomeOf(s), Keep, {}) && fate == FateOf(s)
    ensures Reported(p, l0, l1, call, fate, r)
  {
    SyncHarmless(seen);
    PruneSettles(seen);
    SyncReported(p, PruneDid(seen), SingleCourse(Uidl, UidlMeaning()), l0, l1, s, call, fate, r);
  }

  lemma RetrManyReported(p: Plan, ids: seq<nat>, l0: Link, l1: Link, s: Story<seq<Result<Message>>>,
                         call: Call, fate: Fate, r: Report)
    requires Told(p, ManyDid(Retrieve, ids, MessageOf), Spoilt(), l0, l1, s)
    requires call.CallRetrMany? && r == ReportOf(OutcomeOf(s), Keep, {})
    requires fate == FateOf(s)
    ensures Reported(p, l0, l1, call, fate, r)
  {
    RetrManyHarmless(ids);
    StoryAccount(p, ManyDid(Retrieve, ids, MessageOf), Spoilt(), l0, l1, s, Keep, {});
    BatchErrors(p, Retrieve, ids, MessageOf, l0, l1, s);
  }

  lemma DeleManyReported(p: Plan, ids: seq<nat>, l0: Link, l1: Link, s: Story<seq<Result<()>>>,
                         call: Call, fate: Fate, r: Report)
    requires Told(p, ManyDid(Delete, ids, AckOf), Spoilt(), l0, l1, s) && call.CallDeleMany?
    requires var o := OutcomeOf(s); r == ReportOf(o, Acks(ids, Bare(o)), InDoubt(ids, Bare(o)))
    requires fate == FateOf(s)
    ensures Reported(p, l0, l1, call, fate, r)
  {
    DeleManyAccount(p, ids, l0, l1, s);
    BatchErrors(p, Delete, ids, AckOf, l0, l1, s);
  }

  method PerformTotals(rc: ReconnectingClient, call: Call) returns (report: Report, ghost fate: Fate)
    requires rc.Valid() && (call.CallStat? || call.CallList?)
    modifies rc`client, rc`notified, rc`generation, rc.net, rc.client, rc.client.transport
    ensures rc.Valid()
    ensures if fate.Replaced? then fresh(rc.client) && fresh(rc.client.transport) else rc.client == old(rc.client)
    ensures Reported(old(rc.Prospect()), old(rc.client.transport.link), rc.client.transport.link, call, fate, report)
  {
    ghost var p, l0 := rc.Prospect(), rc.client.transport.link;
    match call {
      case CallStat =>
        var r;
        ghost var s;
        r, s := rc.Stat();
        report, fate := SingleReport(r, Command.Stat), FateOf(s);
        ListingsFit(call);
        SingleReported(p, Command.Stat, StatMeaning(), l0, rc.client.transport.link,
                       s, call, r, fate, report);
      case CallList =>
        var r;
        ghost var s;
        r, s := rc.ListAll();
        report, fate := SingleReport(r, List), FateOf(s);
        ListingsFit(call);
        SingleReported(p, List, ListMeaning(), l0, rc.client.transport.link,
                       s, call, r, fate, report);
    }
  }

  method PerformEntries(rc: ReconnectingClient, call: Call) returns (report: Report, ghost fate: Fate)
    requires rc.Valid() && (call.CallListOne? || call.CallUidlOne?)
    modifies rc`client, rc`notified, rc`generation, rc.net, rc.client, rc.client.transport
    ensures rc.Valid()
    ensures if fate.Replaced? then fresh(rc.client) && fresh(rc.client.transport) else rc.client == old(rc.client)
    ensures Reported(old(rc.Prospect()), old(rc.client.transport.link), rc.client.transport.link, call, fate, report)
  {
    ghost var p, l0 := rc.Prospect(), rc.client.transport.link;
    match call {
      case CallListOne(id) =>
        var r;
        ghost var s;
        r, s := rc.ListSingle(id);
        report, fate := SingleReport(r, ListOne(id)), FateOf(s);
        ListingsFit(call);
        SingleReported(p, ListOne(id), ScanMeaning(id), l0, rc.client.transport.link,
                       s, call, r, fate, report);
      case CallUidlOne(id) =>
        var r;
        ghost var s;
        r, s := rc.UidlSingle(id);
        report, fate := SingleReport(r, UidlOne(id)), FateOf(s);
        ListingsFit(call);
        SingleReported(p, UidlOne(id), UidMeaning(id), l0, rc.client.transport.link,
                       s, call, r, fate, report);
    }
  }

  method PerformUids(rc: ReconnectingClient, call: Call) returns (report: Report, ghost fate: Fate)
    requires rc.Valid() && (call.CallUidl? || call.CallUnseen?)
    modifies rc`client, rc`notified, rc`generation, rc.net, rc.client, rc.client.transport
    ensures rc.Valid()
    ensures if fate.Replaced? then fresh(rc.client) && fresh(rc.client.transport) else rc.client == old(rc.client)
    ensures Reported(old(rc.Prospect()), old(rc.client.transport.link), rc.client.transport.link, call, fate, report)
  {
    ghost var p, l0 := rc.Prospect(), rc.client.transport.link;
    match call {
      case CallUidl =>
        var r;
        ghost var s;
        r, s := rc.UidlAll();
        report, fate := SingleReport(r, Uidl), FateOf(s);
        ListingsFit(call);
        SingleReported(p, Uidl, UidlMeaning(), l0, rc.client.transport.link,
                       s, call, r, fate, report);
      case CallUnseen(seen) =>
        var r;
        ghost var s;
        r, s := rc.UnseenUids(seen);
        report, fate := SingleReport(r, Uidl), FateOf(s);
        ListingsFit(call);
        SingleReported(p, Uidl, UnseenMeaning(seen), l0, rc.client.transport.link,
                       s, call, r, fate, report);
    }
  }

  method PerformMessages(rc: ReconnectingClient, call: Call) returns (report: Report, ghost fate: Fate)
    requires rc.Valid() && (call.CallRetr? || call.CallTop?)
    modifies rc`client, rc`notified, rc`generation, rc.net, rc.client, rc.client.transport
    ensures rc.Valid()
    ensures if fate.Replaced? then fresh(rc.client) && fresh(rc.client.transport) else rc.client == old(rc.client)
    ensures Reported(old(rc.Prospect()), old(rc.client.transport.link), rc.client.transport.link, call, fate, report)
  {
    ghost var p, l0 := rc.Prospect(), rc.client.transport.link;
    match call {
      case CallRetr(id) =>
        var r;
        ghost var s;
        r, s := rc.Retr(id);
        report, fate := SingleReport(r, Command.Retr(id)), FateOf(s);
        AnswersFit(call);
        SingleReported(p, Command.Retr(id), MessageMeaning(Command.Retr(id)), l0, rc.client.transport.link,
                       s, call, r, fate, report);
      case CallTop(id, lines) =>
        var r;
        ghost var s;
        r, s := rc.Top(id, lines);
        report, fate := SingleReport(r, Command.Top(id, lines)), FateOf(s);
        AnswersFit(call);
        SingleReported(p, Command.Top(id, lines), MessageMeaning(Command.Top(id, lines)), l0, rc.client.transport.link,
                       s, call, r, fate, report);
    }
  }

  method PerformPlain(rc: ReconnectingClient, call: Call) returns (report: Report, ghost fate: Fate)
    requires rc.Valid() && (call.CallCapa? || call.CallNoop?)
    modifies rc`client, rc`notified, rc`generation, rc.net, rc.client, rc.client.transport
    ensures rc.Valid()
    ensures if fate.Replaced? then fresh(rc.client) && fresh(rc.client.transport) else rc.client == old(rc.client)
    ensures Reported(old(rc.Prospect()), old(rc.client.transport.link), rc.client.transport.link, call, fate, report)
  {
    ghost var p, l0 := rc.Prospect(), rc.client.transport.link;
    match call {
      case CallCapa =>
        var r;
        ghost var s;
        r, s := rc.Capa();
        report, fate := SingleReport(r, Command.Capa), FateOf(s);
        AnswersFit(call);
        SingleReported(p, Command.Capa, CapaMeaning(), l0, rc.client.transport.link,
                       s, call, r, fate, report);
      case CallNoop =>
        var r;
        ghost var s;
        r, s := rc.Noop();
        report, fate := SingleReport(r, Command.Noop), FateOf(s);
        AnswersFit(call);
        SingleReported(p, Command.Noop, AckMeaning(Command.Noop), l0, rc.client.transport.link,
                       s, call, r, fate, report);
    }
  }

  method PerformMarks(rc: ReconnectingClient, call: Call) returns (report: Report, ghost fate: Fate)
    requires rc.Valid() && (call.CallRset? || call.CallDele?)
    modifies rc`client, rc`notified, rc`generation, rc.net, rc.client, rc.client.transport
    ensures rc.Valid()
    ensures if fate.Replaced? then fresh(rc.client) && fresh(rc.client.transport) else rc.client == old(rc.client)
    ensures Reported(old(rc.Prospect()), old(rc.client.transport.link), rc.client.transport.link, call, fate, report)
  {
    ghost var p, l0 := rc.Prospect(), rc.client.transport.link;
    match call {
      case CallRset =>
        var r;
        ghost var s;
        r, s := rc.Rset();
        report, fate := SingleReport(r, Command.Rset), FateOf(s);
        AnswersFit(call);
        SingleReported(p, Command.Rset, AckMeaning(Command.Rset), l0, rc.client.transport.link,
                       s, call, r, fate, report);
      case CallDele(id) =>
        var r;
        ghost var s;
        r, s := rc.Dele(id);
        report, fate := SingleReport(r, Command.Dele(id)), FateOf(s);
        AnswersFit(call);
        SingleReported(p, Command.Dele(id), AckMeaning(Command.Dele(id)), l0, rc.client.transport.link,
                       s, call, r, fate, report);
    }
  }

  method PerformSync(rc: ReconnectingClient, call: Call) returns (report: Report, ghost fate: Fate)
    requires rc.Valid() && (call.CallFetch? || call.CallPrune?)
    modifies rc`client, rc`notified, rc`generation, rc.net, rc.client, rc.client.transport
    ensures rc.Valid()
    ensures if fate.Replaced? then fresh(rc.client) && fresh(rc.client.transport) else rc.client == old(rc.client)
    ensures Reported(old(rc.Prospect()), old(rc.client.transport.link), rc.client.transport.link, call, fate, report)
  {
    ghost var p, l0 := rc.Prospect(), rc.client.transport.link;
    match call {
      case CallFetch(seen) =>
        var r;
        ghost var s;
        r, s := rc.FetchUnseen(seen);
        report, fate := ReportOf(r, Keep, {}), FateOf(s);
        FetchReported(p, seen, l0, rc.client.transport.link, s, call, fate, report);
      case CallPrune(seen) =>
        var uids := new SeenSet(seen);
        var r;
        ghost var s;
        r, s := rc.PruneSeen(uids);
        report, fate := ReportOf(r, Keep, {}), FateOf(s);
        PruneReported(p, seen, l0, rc.client.transport.link, s, call, fate, report);
    }
  }

  method PerformBatch(rc: ReconnectingClient, call: Call) returns (report: Report, ghost fate: Fate)
    requires rc.Valid() && (call.CallRetrMany? || call.CallDeleMany?)
    modifies rc`client, rc`notified, rc`generation, rc.net, rc.client, rc.client.transport
    ensures rc.Valid()
    ensures if fate.Replaced? then fresh(rc.client) && fresh(rc.client.transport) else rc.client == old(rc.client)
    ensures Reported(old(rc.Prospect()), old(rc.client.transport.link), rc.client.transport.link, call, fate, report)
  {
    ghost var p, l0 := rc.Prospect(), rc.client.transport.link;
    match call {
      case CallRetrMany(ids) =>
        var r;
        ghost var s;
        r, s := rc.RetrMany(ids);
        report, fate := ReportOf(r, Keep, {}), FateOf(s);
        RetrManyReported(p, ids, l0, rc.client.transport.link, s, call, fate, report);
      case CallDeleMany(ids) =>
        var r;
        ghost var s;
        r, s := rc.DeleMany(ids);
        report, fate := ReportOf(r, Acks(ids, Bare(r)), InDoubt(ids, Bare(r))), FateOf(s);
        DeleManyReported(p, ids, l0, rc.client.transport.link, s, call, fate, report);
    }
  }

  method Perform(rc: ReconnectingClient, call: Call) returns (report: Report, ghost fate: Fate)
    requires rc.Valid()
    modifies rc`client, rc`notified, rc`generation, rc.net, rc.client, rc.client.transport
    ensures rc.Valid()
    ensures if fate.Replaced? then fresh(rc.client) && fresh(rc.client.transport) else rc.client == old(rc.client)
    ensures Reported(old(rc.Prospect()), old(rc.client.transport.link), rc.client.transport.link, call, fate, report)
  {
    match call {
      case CallStat | CallList => report, fate := PerformTotals(rc, call);
      case CallListOne(_) | CallUidlOne(_) => report, fate := PerformEntries(rc, call);
      case CallUidl | CallUnseen(_) => report, fate := PerformUids(rc, call);
      case CallRetr(_) | CallTop(_, _) => report, fate := PerformMessages(rc, call);
      case CallCapa | CallNoop => report, fate := PerformPlain(rc, call);
      case CallRset | CallDele(_) => report, fate := PerformMarks(rc, call);
      case CallFetch(_) | CallPrune(_) => report, fate := PerformSync(rc, call);
      case CallRetrMany(_) | CallDeleMany(_) => report, fate := PerformBatch(rc, call);
    }
  }

  /** One call of a run, as it went. */
  datatype Step = Step(plan: Plan, before: Link, after: Link, fate: Fate, report: Report)

  /** The steps are those of the calls, one after the other, from one link to the other. */
  ghost predicate Stepwise(l0: Link, l1: Link, calls: seq<Call>, steps: seq<Step>) {
    |steps| == |calls|
    && (if steps == [] then l1 == l0 else steps[0].before == l0 && steps[|steps| - 1].after == l1)
    && (forall i :: 0 <= i < |steps| ==> StepOf(calls[i], steps[i]))
    && (forall i :: 0 <= i < |steps| - 1 ==> steps[i].after == steps[i + 1].before)
  }

  ghost predicate StepOf(call: Call, s: Step) { Reported(s.plan, s.before, s.after, call, s.fate, s.report) }

  function ReportsOf(steps: seq<Step>): (rs: seq<Report>)
    ensures |rs| == |steps| && forall i :: 0 <= i < |rs| ==> rs[i] == steps[i].report
  {
    seq(|steps|, i requires 0 <= i < |steps| => steps[i].report)
  }

  lemma {:induction false} BalanceSnoc(b: Books, rs: seq<Report>, r: Report)
    ensures Balance(b, rs + [r]) == Enter(Balance(b, rs), r)
    decreases |rs|
  {
    if rs == [] {
      assert ([] + [r])[1..] == [];
    } else {
      assert (rs + [r])[1..] == rs[1..] + [r];
      BalanceSnoc(Enter(b, rs[0]), rs[1..], r);
    }
  }

  /** Where a run from l0 stands: the calls so far, the books that are kept of them, and whether
      all of them were Ok. */
  ghost predicate Underway(l0: Link, l: Link, calls: seq<Call>, steps: seq<Step>, books: Books, allOk: bool) {
    Stepwise(l0, l, calls, steps) && Agree(l, books)
    && books == Balance(Books({}, {}, true), ReportsOf(steps))
    && (allOk <==> AllOk(ReportsOf(steps))) && (allOk ==> books.exact)
  }

  lemma StepMore(l0: Link, l: Link, l1: Link, calls: seq<Call>, call: Call, steps: seq<Step>, s: Step, books: Books,
                 allOk: bool, steps': seq<Step>, books': Books, allOk': bool)
    requires |steps| < |calls| && call == calls[|steps|] && steps' == steps + [s]
    requires Underway(l0, l, calls[..|steps|], steps, books, allOk)
    requires StepOf(call, s) && s.before == l && s.after == l1
    requires books' == Enter(books, s.report) && allOk' == (allOk && s.report.ok)
    ensures Underway(l0, l1, calls[..|steps'|], steps', books', allOk')
  {
    assert calls[..|steps'|] == calls[..|steps|] + [call];
    StepwiseMore(l0, l, l1, calls[..|steps|], call, steps, s);
    ReportsMore(steps, s);
    EnterAgrees(l, l1, books, s.report);
  }

  lemma StepwiseMore(l0: Link, l: Link, l1: Link, calls: seq<Call>, call: Call, steps: seq<Step>, s: Step)
    requires Stepwise(l0, l, calls, steps) && StepOf(call, s) && s.before == l && s.after == l1
    ensures Stepwise(l0, l1, calls + [call], steps + [s])
  {}

  lemma ReportsMore(steps: seq<Step>, s: Step)
    ensures var rs, all, b := ReportsOf(steps), ReportsOf(steps + [s]), Books({}, {}, true);
            Balance(b, all) == Enter(Balance(b, rs), s.report) && (AllOk(all) <==> AllOk(rs) && s.report.ok)
  {
    var rs, all := ReportsOf(steps), ReportsOf(steps + [s]);
    assert all == rs + [s.report];
    BalanceSnoc(Books({}, {}, true), rs, s.report);
    assert forall i :: 0 <= i < |rs| ==> all[i] == rs[i];
    assert all[|rs|] == s.report;
  }

  lemma Setout(l: Link, calls: seq<Call>, steps: seq<Step>, books: Books, allOk: bool)
    requires Untouched(l.server) && calls == [] && steps == [] && books == Books({}, {}, true) && allOk
    ensures Underway(l, l, calls, steps, books, allOk)
  {}

  /** The next call of a run. */
  method Enact(rc: ReconnectingClient, call: Call, books: Books, allOk: bool, ghost l0: Link, ghost calls: seq<Call>,
               ghost steps: seq<Step>)
    returns (books': Books, allOk': bool, ghost steps': seq<Step>)
    requires |steps| < |calls| && call == calls[|steps|]
    requires rc.Valid() && Underway(l0, rc.client.transport.link, calls[..|steps|], steps, books, allOk)
    modifies rc`client, rc`notified, rc`generation, rc.net, rc.client, rc.client.transport
    ensures |steps'| == |steps| + 1
    ensures rc.Valid() && Underway(l0, rc.client.transport.link, calls[..|steps'|], steps', books', allOk')
    ensures rc.client == old(rc.client) || (fresh(rc.client) && fresh(rc.client.transport))
  {
    ghost var p, l := rc.Prospect(), rc.client.transport.link;
    var report;
    ghost var fate;
    report, fate := Perform(rc, call);
    books', allOk' := Enter(books, report), allOk && report.ok;
    ghost var step := Step(p, l, rc.client.transport.link, fate, report);
    steps' := steps + [step];
    StepMore(l0, l, rc.client.transport.link, calls, call, steps, step, books, allOk, steps', books', allOk');
  }

  method RunCalls(rc: ReconnectingClient, calls: seq<Call>)
    returns (books: Books, allOk: bool, ghost steps: seq<Step>)
    requires rc.Valid() && Untouched(rc.client.transport.link.server)
    modifies rc`client, rc`notified, rc`generation, rc.net, rc.client, rc.client.transport
    ensures rc.Valid()
    ensures Underway(old(rc.client.transport.link), rc.client.transport.link, calls, steps, books, allOk)
    ensures rc.client == old(rc.client) || (fresh(rc.client) && fresh(rc.client.transport))
  {
    ghost var l0 := rc.client.transport.link;
    books, allOk, steps := Books({}, {}, true), true, [];
    Setout(l0, calls[..|steps|], steps, books, allOk);
    for i := 0 to |calls|
      invariant |steps| == i
      invariant rc.Valid() && Underway(l0, rc.client.transport.link, calls[..|steps|], steps, books, allOk)
      invariant rc.client == old(rc.client) || (fresh(rc.client) && fresh(rc.client.transport))
    {
      books, allOk, steps := Enact(rc, calls[i], books, allOk, l0, calls, steps);
    }
    assert calls[..|steps|] == calls;
  }

  /** What QUIT makes of the books. */
  lemma Committed(l: Link, l1: Link, books: Books, r: Result<()>)
    requires Did(l, l1, None, Command.Quit, r, AckOf(ReplyTo(l.server, Command.Quit))) && Agree(l, books)
    ensures l1.server.marked <= books.pending + books.doubt && (r.Ok? ==> l1.server.ended)
    ensures r.Ok? && books.exact ==>
      l1.server.marked == books.pending && Remaining(l1.server) == Unmarked(l1.server.box, books.pending, 1)
      && Expunged(l1.server.box, books.pending, Remaining(l1.server))
  {
    UnmarkedExpunges(l1.server);
  }

  /** Any sequence of calls, each of them carried out, then QUIT. Whatever QUIT returns, a
      session that it has ended commits at most what the books hold or doubt; and if QUIT is
      Ok and the books are exact, which they are when no call has failed, it commits exactly
      the pending set. */
  method RunToQuit(rc: ReconnectingClient, calls: seq<Call>)
    returns (books: Books, allOk: bool, r: Result<()>, ghost steps: seq<Step>, ghost last: Link)
    requires rc.Valid() && Untouched(rc.client.transport.link.server)
    modifies rc`client, rc`notified, rc`generation, rc.net, rc.client, rc.client.transport
    ensures Underway(old(rc.client.transport.link), last, calls, steps, books, allOk)
    ensures Did(last, rc.client.transport.link, None, Command.Quit, r, AckOf(ReplyTo(last.server, Command.Quit)))
    ensures allOk ==> books.exact
    ensures r.Ok? ==> rc.client.transport.link.server.ended
    ensures rc.client.transport.link.server.marked <= books.pending + books.doubt
    ensures r.Ok? && books.exact ==> rc.client.transport.link.server.marked == books.pending
    ensures r.Ok? && books.exact ==>
      Remaining(rc.client.transport.link.server) == Unmarked(rc.client.transport.link.server.box, books.pending, 1)
    ensures r.Ok? && books.exact ==>
      Expunged(rc.client.transport.link.server.box, books.pending, Remaining(rc.client.transport.link.server))
  {
    books, allOk, steps := RunCalls(rc, calls);
    last := rc.client.transport.link;
    r := rc.Quit();
    Committed(last, rc.client.transport.link, books, r);
  }

  lemma {:induction false} NothingUnmarked(box: seq<Msg>, i: nat)
    ensures Unmarked(box, {}, i) == box
    decreases |box|
  {
    if box != [] {
      NothingUnmarked(box[1..], i + 1);
      assert box == [box[0]] + box[1..];
    }
  }

  lemma SilentlyReported(p: Plan, l0: Link, l1: Link, call: Call, fate: Fate, r: Report)
    requires Reported(p, l0, l1, call, fate, r)
    ensures Silent(fate, r) <==> HidesCall(p, l0, call)
    ensures Silent(fate, r) ==> !r.ok && l1.server.marked <= r.doubt && (!Broken(l1) ==> l1.server.marked == {})
  {}

  /** Why books have to mistrust errors. Every outcome that is Ok tells of a lost session,
      but an error can hide one, and it does so exactly if `HidesCall` holds beforehand: the
      connection does not hold out for the call or the server puts it off, a new session is
      reached, and there the call fails. The caller then still counts on all its earlier
      deletions, and QUIT commits none of them: nothing at all if it is Ok, and at most the
      ids that the failed call named. */
  method HiddenLoss(rc: ReconnectingClient, call: Call, books: Books)
    returns (report: Report, books': Books, r: Result<()>, ghost fate: Fate)
    requires rc.Valid() && Agree(rc.client.transport.link, books)
    modifies rc`client, rc`notified, rc`generation, rc.net, rc.client, rc.client.transport
    ensures if fate.Replaced? then fresh(rc.client) else rc.client == old(rc.client)
    ensures Silent(fate, report) <==> HidesCall(old(rc.Prospect()), old(rc.client.transport.link), call)
    ensures books' == Enter(books, report)
    ensures Silent(fate, report) ==> books'.pending == books.pending && !books'.exact
    ensures Silent(fate, report) ==> rc.client.transport.link.server.marked <= report.doubt
    ensures Silent(fate, report) && r.Ok? ==>
      Remaining(rc.client.transport.link.server) == rc.client.transport.link.server.box
  {
    ghost var p, l0 := rc.Prospect(), rc.client.transport.link;
    report, fate := Perform(rc, call);
    SilentlyReported(p, l0, rc.client.transport.link, call, fate, report);
    books' := Enter(books, report);
    NothingUnmarked(rc.client.transport.link.server.box, 1);
    r := rc.Quit();
  }
}
