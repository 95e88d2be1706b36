/** Incremental sync over many cycles: prune, fetch, remember what was fetched. */
module Sync {
  import opened Basics
  import opened Response
  import opened Server
  import opened Connection
  import opened Meaning
  import opened Redial
  import opened Exchange
  import opened Window
  import opened Client
  import opened Attempts
  import opened Calls
  import opened Reconnect

  /** One cycle as it went: it stopped while pruning, or it pruned against the listing
      `first` and stopped while fetching, or it also fetched against the listing `second`.
      The listings are equal unless the session was replaced in between. */
  datatype Cycle = PruneFailed | FetchFailed(first: set<string>) | Done(first: set<string>, second: set<string>)

  function Kept(seen: set<string>, c: Cycle): set<string> {
    if c.PruneFailed? then seen else seen * c.first
  }

  /** The UIDs whose messages a cycle hands to the caller. */
  function Delivered(seen: set<string>, c: Cycle): set<string> {
    if c.Done? then c.second - Kept(seen, c) else {}
  }

  function SeenAfter(seen: set<string>, c: Cycle): set<string> { Kept(seen, c) + Delivered(seen, c) }

  /** The listings a cycle has looked at, in order. */
  function Looks(c: Cycle): seq<set<string>> {
    match c case PruneFailed => [] case FetchFailed(first) => [first] case Done(first, second) => [first, second]
  }

  function SeenBefore(seen: set<string>, cs: seq<Cycle>, n: nat): set<string>
    requires n <= |cs|
  {
    if n == 0 then seen else SeenAfter(SeenBefore(seen, cs, n - 1), cs[n - 1])
  }

  function LooksBefore(cs: seq<Cycle>, n: nat): seq<set<string>>
    requires n <= |cs|
  {
    if n == 0 then [] else LooksBefore(cs, n - 1) + Looks(cs[n - 1])
  }

  /** Everything the first n cycles have delivered. */
  function DeliveredBefore(seen: set<string>, cs: seq<Cycle>, n: nat): set<string>
    requires n <= |cs|
  {
    if n == 0 then {} else DeliveredBefore(seen, cs, n - 1) + Delivered(SeenBefore(seen, cs, n - 1), cs[n - 1])
  }

  ghost predicate Departed(u: string, looks: seq<set<string>>, b: nat) {
    b < |looks| && u !in looks[b] && exists a :: 0 <= a < b && u in looks[a]
  }

  /** A UID that has left the listing does not come back. */
  ghost predicate NoReturns(looks: seq<set<string>>) {
    forall u, b: nat, c: nat :: Departed(u, looks, b) && b < c < |looks| ==> u !in looks[c]
  }

  /** In other words: seen in one listing and missed in a later one, it is missed from then on. */
  lemma NoReturnsExactly(looks: seq<set<string>>)
    ensures NoReturns(looks) <==>
      forall u, a, b, c :: 0 <= a < b < c < |looks| && u in looks[a] && u !in looks[b] ==> u !in looks[c]
  {
    if NoReturns(looks) {
      forall u, a, b, c | 0 <= a < b < c < |looks| && u in looks[a] && u !in looks[b] ensures u !in looks[c] {
        assert Departed(u, looks, b);
      }
    }
  }

  /** Whatever has been delivered is still remembered, or gone from the mailbox for good. */
  ghost predicate Remembered(seen: set<string>, delivered: set<string>, looks: seq<set<string>>) {
    forall u :: u in delivered ==>
      (exists a :: 0 <= a < |looks| && u in looks[a]) && (u in seen || exists b: nat :: Departed(u, looks, b))
  }

  lemma DepartedExtends(u: string, looks: seq<set<string>>, more: seq<set<string>>, b: nat)
    requires Departed(u, looks, b)
    ensures Departed(u, looks + more, b)
  {
    var a :| 0 <= a < b && u in looks[a];
    assert (looks + more)[a] == looks[a] && (looks + more)[b] == looks[b];
  }

  lemma OneCycle(seen: set<string>, delivered: set<string>, looks: seq<set<string>>, c: Cycle)
    requires Remembered(seen, delivered, looks) && NoReturns(looks + Looks(c))
    ensures Remembered(SeenAfter(seen, c), delivered + Delivered(seen, c), looks + Looks(c))
    ensures Delivered(seen, c) !! delivered
  {
    var all := looks + Looks(c);
    forall u | u in delivered
      ensures exists a :: 0 <= a < |all| && u in all[a]
      ensures u in SeenAfter(seen, c) || exists b: nat :: Departed(u, all, b)
      ensures u !in Delivered(seen, c)
    {
      var a :| 0 <= a < |looks| && u in looks[a];
      assert u in all[a];
      if u in seen {
        if !c.PruneFailed? && u !in c.first {
          assert all[|looks|] == c.first;
          assert Departed(u, all, |looks|);
          assert c.Done? ==> all[|looks| + 1] == c.second;
        }
      } else {
        var b: nat :| Departed(u, looks, b);
        DepartedExtends(u, looks, Looks(c), b);
        assert c.Done? ==> all[|looks| + 1] == c.second;
      }
    }
    forall u | u in Delivered(seen, c) ensures exists a :: 0 <= a < |all| && u in all[a] {
      assert all[|looks| + 1] == c.second;
    }
  }

  lemma {:induction false} LooksPrefix(cs: seq<Cycle>, n: nat)
    requires n <= |cs|
    ensures LooksBefore(cs, n) <= LooksBefore(cs, |cs|)
    decreases |cs| - n
  {
    if n < |cs| { LooksPrefix(cs, n + 1); }
  }

  lemma NoReturnsPrefix(looks: seq<set<string>>, all: seq<set<string>>)
    requires looks <= all && NoReturns(all)
    ensures NoReturns(looks)
  {
    forall u, b: nat, c: nat | Departed(u, looks, b) && b < c < |looks| ensures u !in looks[c] {
      assert all == looks + all[|looks|..];
      DepartedExtends(u, looks, all[|looks|..], b);
    }
  }

  lemma {:induction false} CyclesRemember(seen: set<string>, cs: seq<Cycle>, n: nat)
    requires n <= |cs| && NoReturns(LooksBefore(cs, |cs|))
    ensures Remembered(SeenBefore(seen, cs, n), DeliveredBefore(seen, cs, n), LooksBefore(cs, n))
    ensures n > 0 ==> Delivered(SeenBefore(seen, cs, n - 1), cs[n - 1]) !! DeliveredBefore(seen, cs, n - 1)
  {
    if n > 0 {
      CyclesRemember(seen, cs, n - 1);
      LooksPrefix(cs, n);
      NoReturnsPrefix(LooksBefore(cs, n), LooksBefore(cs, |cs|));
      OneCycle(SeenBefore(seen, cs, n - 1), DeliveredBefore(seen, cs, n - 1), LooksBefore(cs, n - 1), cs[n - 1]);
    }
  }

  lemma {:induction false} DeliveredGrows(seen: set<string>, cs: seq<Cycle>, i: nat, n: nat)
    requires i < n <= |cs|
    ensures Delivered(SeenBefore(seen, cs, i), cs[i]) <= DeliveredBefore(seen, cs, n)
  {
    if i < n - 1 { DeliveredGrows(seen, cs, i, n - 1); }
  }

  /** At most once: over any number of cycles, failed ones included, from any initial set,
      no UID is delivered by two cycles. */
  lemma AtMostOnce(seen: set<string>, cs: seq<Cycle>, i: nat, j: nat)
    requires i < j < |cs| && NoReturns(LooksBefore(cs, |cs|))
    ensures Delivered(SeenBefore(seen, cs, i), cs[i]) !! Delivered(SeenBefore(seen, cs, j), cs[j])
  {
    NothingAgain(seen, cs, j);
    DeliveredGrows(seen, cs, i, j);
    DisjointFromPart(Delivered(SeenBefore(seen, cs, i), cs[i]), Delivered(SeenBefore(seen, cs, j), cs[j]),
                     DeliveredBefore(seen, cs, j));
  }

  lemma NothingAgain(seen: set<string>, cs: seq<Cycle>, j: nat)
    requires j < |cs| && NoReturns(LooksBefore(cs, |cs|))
    ensures Delivered(SeenBefore(seen, cs, j), cs[j]) !! DeliveredBefore(seen, cs, j)
  {
    CyclesRemember(seen, cs, j + 1);
  }

  lemma DisjointFromPart(a: set<string>, b: set<string>, d: set<string>)
    requires a <= d && b !! d
    ensures a !! b
  {}

  /** At least once: what a finished cycle saw listed has been delivered by its end, unless
      it was in the initial set. The set is then exactly the listing if and only if nothing
      that was kept while pruning has left the mailbox before fetching. */
  lemma {:induction false} AtLeastOnce(seen: set<string>, cs: seq<Cycle>, n: nat)
    requires n <= |cs|
    ensures SeenBefore(seen, cs, n) <= seen + DeliveredBefore(seen, cs, n)
    ensures n > 0 && cs[n - 1].Done? ==> cs[n - 1].second <= seen + DeliveredBefore(seen, cs, n)
    ensures n > 0 && cs[n - 1].Done? ==>
      (SeenBefore(seen, cs, n) == cs[n - 1].second <==>
        Kept(SeenBefore(seen, cs, n - 1), cs[n - 1]) <= cs[n - 1].second)
  {
    if n > 0 {
      AtLeastOnce(seen, cs, n - 1);
      if cs[n - 1].Done? { ExactlyListed(SeenBefore(seen, cs, n - 1), cs[n - 1]); }
    }
  }

  lemma ExactlyListed(seen: set<string>, c: Cycle)
    requires c.Done?
    ensures SeenAfter(seen, c) == c.second <==> Kept(seen, c) <= c.second
    ensures c.first == c.second ==> Kept(seen, c) <= c.second
  {}

  /** The smallest cycle that leaves a UID behind: it was listed when pruning, and is gone
      when fetching, from another session. */
  lemma LeftBehind(u: string)
    ensures SeenAfter({u}, Done({u}, {})) == {u} != Done({u}, {}).second
  {}

  // ---- the cycle as the documentation has it ----

  function BoxUids(box: seq<Msg>): set<string> { set i | 0 <= i < |box| :: box[i].uid }

  /** Without pending marks UIDL lists the whole mailbox. */
  lemma ListsAll(s: Session)
    requires s.marked == {}
    ensures ListedUids(s) == BoxUids(s.box)
  {
    forall u | u in ListedUids(s) ensures u in BoxUids(s.box) {
      var e :| e in Entries(s) && e.uniqueId == u;
      EntryIsLive(s, e);
    }
    forall u | u in BoxUids(s.box) ensures u in ListedUids(s) {
      var i :| 0 <= i < |s.box| && s.box[i].uid == u;
      LiveFromAll(s, 1, i + 1);
      var j :| 0 <= j < |LiveFrom(s, 1)| && LiveFrom(s, 1)[j] == i + 1;
      assert Entries(s)[j].uniqueId == u;
    }
  }

  function Uids(pairs: seq<(UidlEntry, Message)>): set<string> { set p | p in pairs :: p.0.uniqueId }

  lemma FetchedUids(s: Session, seen: set<string>, pairs: seq<(UidlEntry, Message)>)
    requires Fetched(s, seen, pairs)
    ensures Uids(pairs) == ListedUids(s) - seen
  {
    var news := Unseen(Entries(s), seen);
    UnseenEntries(Entries(s), seen);
    forall u | u in ListedUids(s) - seen ensures u in Uids(pairs) {
      var e :| e in Entries(s) && e.uniqueId == u;
      var i :| 0 <= i < |news| && news[i] == e;
      assert pairs[i].0 == e && pairs[i] in pairs;
    }
    forall u | u in Uids(pairs) ensures u in ListedUids(s) - seen {
      var p :| p in pairs && p.0.uniqueId == u;
      var i :| 0 <= i < |pairs| && pairs[i] == p;
      assert news[i] in Unseen(Entries(s), seen);
    }
  }

  /** `seen.insert` for every fetched pair. */
  method Remember(seen: SeenSet, pairs: seq<(UidlEntry, Message)>)
    modifies seen
    ensures seen.uids == old(seen.uids) + Uids(pairs)
  {
    for i := 0 to |pairs|
      invariant seen.uids == old(seen.uids) + Uids(pairs[..i])
    {
      assert pairs[..i + 1] == pairs[..i] + [pairs[i]];
      seen.uids := seen.uids + {pairs[i].0.uniqueId};
    }
    assert pairs[..|pairs|] == pairs;
  }

  /** The two calls of a cycle: their plans, the link before, between and after them, and their
      stories. The second call is missing if the first has failed. */
  datatype Tale = Tale(plan: Plan, start: Link, pruned: Story<seq<string>>, middle: Link, later: Plan,
                       fetched: Option<Story<seq<(UidlEntry, Message)>>>, end: Link)

  ghost predicate TaleTold(seen: set<string>, c: Cycle, r: Result<Outcome<seq<(UidlEntry, Message)>>>, t: Tale) {
    Told(t.plan, PruneDid(seen), Never(), t.start, t.middle, t.pruned)
    && (c.PruneFailed? <==> OutcomeOf(t.pruned).Err?)
    && match t.fetched
       case None => c.PruneFailed? && r.Err? && r.error == OutcomeOf(t.pruned).error && t.end == t.middle
       case Some(s) =>
         !c.PruneFailed? && r == OutcomeOf(s) && Told(t.later, FetchDid(Kept(seen, c)), Never(), t.middle, t.end, s)
  }

  lemma TaleStops(seen: set<string>, c: Cycle, r: Result<Outcome<seq<(UidlEntry, Message)>>>, t: Tale)
    requires Told(t.plan, PruneDid(seen), Never(), t.start, t.middle, t.pruned) && OutcomeOf(t.pruned).Err?
    requires c.PruneFailed? && r.Err? && r.error == OutcomeOf(t.pruned).error && t.fetched.None? && t.end == t.middle
    ensures TaleTold(seen, c, r, t)
  {}

  lemma TaleGoesOn(seen: set<string>, kept: set<string>, c: Cycle, r: Result<Outcome<seq<(UidlEntry, Message)>>>,
                   t: Tale, fetched: Story<seq<(UidlEntry, Message)>>)
    requires Told(t.plan, PruneDid(seen), Never(), t.start, t.middle, t.pruned) && OutcomeOf(t.pruned).Ok?
    requires t.fetched == Some(fetched) && !c.PruneFailed? && r == OutcomeOf(fetched) && kept == Kept(seen, c)
    requires Told(t.later, FetchDid(kept), Never(), t.middle, t.end, fetched)
    ensures TaleTold(seen, c, r, t)
  {}

  /** What one round returns is what its cycle delivers, no message twice. */
  ghost predicate RecordOf(seen: set<string>, r: Result<Outcome<seq<(UidlEntry, Message)>>>, c: Cycle, t: Tale) {
    (r.Ok? <==> c.Done?)
    && (r.Ok? ==> Uids(r.value.value) == Delivered(seen, c) && InOrder(Firsts(r.value.value)))
    && TaleTold(seen, c, r, t)
  }

  /** When a cycle gets stuck, and where: it depends on the links, the plans and the listings. */
  lemma CycleExactly(seen: set<string>, c: Cycle, r: Result<Outcome<seq<(UidlEntry, Message)>>>, t: Tale)
    requires TaleTold(seen, c, r, t)
    ensures !c.PruneFailed? <==> Succeeds(t.plan, t.start, SingleCourse(Uidl, UidlMeaning()))
    ensures !c.PruneFailed? ==> (r.Ok? <==> Succeeds(t.later, t.middle, FetchCourse(Kept(seen, c))))
  {
    PruneSettles(seen);
    OkExactly(t.plan, PruneDid(seen), SingleCourse(Uidl, UidlMeaning()), t.start, t.middle, t.pruned);
    if t.fetched.Some? {
      FetchSettles(Kept(seen, c));
      OkExactly(t.later, FetchDid(Kept(seen, c)), FetchCourse(Kept(seen, c)), t.middle, t.end, t.fetched.value);
    }
  }

  /** One cycle of a reconnecting client that has nothing marked. However the sessions come
      and go, the set and the deliveries are those of a `Cycle` over true listings, and
      each message delivered is its UID's own, and none is delivered twice. If the fetch was
      `Fresh`, the set is then exactly the mailbox. The cycle consists of a true pruning and,
      if that was Ok, of a true fetch. */
  method SyncCycle(rc: ReconnectingClient, seen: SeenSet)
    returns (r: Result<Outcome<seq<(UidlEntry, Message)>>>, ghost c: Cycle, ghost t: Tale)
    requires rc.Valid() && rc.client.transport.link.server.marked == {}
    modifies rc`client, rc`notified, rc`generation, rc.net, rc.client, rc.client.transport, seen
    ensures rc.Valid() && (rc.client == old(rc.client) || (fresh(rc.client) && fresh(rc.client.transport)))
    ensures rc.client.transport.link.server.marked == {}
    ensures RecordOf(old(seen.uids), r, c, t) && t.plan == old(rc.Prospect())
    ensures t.start == old(rc.client.transport.link) && t.end == rc.client.transport.link
    ensures seen.uids == SeenAfter(old(seen.uids), c)
    ensures r.Ok? ==> OwnMail(r.value.value, rc.net.mail, Kept(old(seen.uids), c))
    ensures r.Ok? ==> AllNew(rc.client.transport.link.server, Kept(old(seen.uids), c), Firsts(r.value.value))
    ensures r.Ok? && DistinctUids(rc.client.transport.link.server.box) ==>
      NoneTwice(r.value.value) && |r.value.value| == |Delivered(old(seen.uids), c)|
    ensures r.Ok? ==> c.second == BoxUids(rc.client.transport.link.server.box)
    ensures r.Ok? && r.value.Fresh? ==> seen.uids == c.first == c.second
    ensures rc.client == old(rc.client) && !c.PruneFailed? ==> c.first == BoxUids(rc.client.transport.link.server.box)
  {
    c := PruneFailed;
    ghost var before, p0, l0 := seen.uids, rc.Prospect(), rc.client.transport.link;
    var p;
    ghost var pruned, fetched;
    p, pruned := SyncPrune(rc, seen);
    ghost var p1, l1 := rc.Prospect(), rc.client.transport.link;
    if p.Err? {
      r, t := Err(p.error), Tale(p0, l0, pruned, l1, p1, None, l1);
      TaleStops(before, c, r, t);
      return;
    }
    c := FetchFailed(ListedUids(l1.server));
    ghost var kept := seen.uids;
    r, fetched := SyncFetch(rc, seen);
    if r.Ok? {
      c := Done(c.first, ListedUids(rc.client.transport.link.server));
      ExactlyListed(before, c);
      OncePerUid(rc.client.transport.link.server, kept, r.value.value);
    }
    t := Tale(p0, l0, pruned, l1, p1, Some(fetched), rc.client.transport.link);
    TaleGoesOn(before, kept, c, r, t, fetched);
  }

  /** The first half of a cycle. */
  method SyncPrune(rc: ReconnectingClient, seen: SeenSet)
    returns (r: Result<Outcome<seq<string>>>, ghost story: Story<seq<string>>)
    requires rc.Valid() && rc.client.transport.link.server.marked == {}
    modifies rc`client, rc`notified, rc`generation, rc.net, rc.client, rc.client.transport, seen
    ensures rc.Valid() && rc.client.transport.link.server.marked == {}
    ensures if rc.client == old(rc.client)
            then rc.client.transport.link.server.box == old(rc.client.transport.link).server.box
            else fresh(rc.client) && fresh(rc.client.transport)
    ensures r == OutcomeOf(story)
    ensures Told(old(rc.Prospect()), PruneDid(old(seen.uids)), Never(), old(rc.client.transport.link),
                 rc.client.transport.link, story)
    ensures r.Err? ==> seen.uids == old(seen.uids)
    ensures var s := rc.client.transport.link.server;
            r.Ok? ==> ListedUids(s) == BoxUids(s.box) && seen.uids == old(seen.uids) * ListedUids(s)
  {
    ghost var p, l0, before := rc.Prospect(), rc.client.transport.link, seen.uids;
    r, story := rc.PruneSeen(seen);
    SyncHarmless(before);
    StoryAccount(p, PruneDid(before), Never(), l0, rc.client.transport.link, story, Keep, {});
    ListsAll(rc.client.transport.link.server);
  }

  /** The second half of a cycle: fetch and remember. */
  method SyncFetch(rc: ReconnectingClient, seen: SeenSet)
    returns (r: Result<Outcome<seq<(UidlEntry, Message)>>>, ghost story: Story<seq<(UidlEntry, Message)>>)
    requires rc.Valid() && rc.client.transport.link.server.marked == {}
    modifies rc`client, rc`notified, rc`generation, rc.net, rc.client, rc.client.transport, seen
    ensures rc.Valid() && rc.client.transport.link.server.marked == {}
    ensures if rc.client == old(rc.client)
            then rc.client.transport.link.server.box == old(rc.client.transport.link).server.box
            else fresh(rc.client) && fresh(rc.client.transport)
    ensures r == OutcomeOf(story)
    ensures Told(old(rc.Prospect()), FetchDid(old(seen.uids)), Never(), old(rc.client.transport.link),
                 rc.client.transport.link, story)
    ensures r.Ok? && r.value.Fresh? ==> rc.client == old(rc.client)
    ensures r.Err? ==> seen.uids == old(seen.uids)
    ensures r.Ok? ==> ListedUids(rc.client.transport.link.server) == BoxUids(rc.client.transport.link.server.box)
    ensures r.Ok? ==> Uids(r.value.value) == ListedUids(rc.client.transport.link.server) - old(seen.uids)
    ensures r.Ok? ==> OwnMail(r.value.value, rc.net.mail, old(seen.uids))
    ensures r.Ok? ==> AllNew(rc.client.transport.link.server, old(seen.uids), Firsts(r.value.value))
    ensures r.Ok? ==> seen.uids == old(seen.uids) + Uids(r.value.value)
  {
    ghost var p, l0, before := rc.Prospect(), rc.client.transport.link, seen.uids;
    r, story := rc.FetchUnseen(seen.uids);
    SyncHarmless(before);
    StoryAccount(p, FetchDid(before), Never(), l0, rc.client.transport.link, story, Keep, {});
    if r.Err? { return; }
    ghost var s := rc.client.transport.link.server;
    FetchedUids(s, seen.uids, r.value.value);
    ListsAll(s);
    Remember(seen, r.value.value);
  }

  /** The same for all rounds of a run. */
  ghost predicate Records(seen: set<string>, rounds: seq<Result<Outcome<seq<(UidlEntry, Message)>>>>, cs: seq<Cycle>,
                          ts: seq<Tale>)
  {
    |rounds| == |cs| == |ts|
    && forall i :: 0 <= i < |cs| ==> RecordOf(SeenBefore(seen, cs, i), rounds[i], cs[i], ts[i])
  }

  /** The tales follow upon one another, from one link to the other. */
  ghost predicate Chained(l0: Link, l1: Link, ts: seq<Tale>) {
    (if ts == [] then l1 == l0 else ts[0].start == l0 && ts[|ts| - 1].end == l1)
    && forall i :: 0 <= i < |ts| - 1 ==> ts[i].end == ts[i + 1].start
  }

  /** A unique-id names one message of the mailbox. */
  predicate DistinctUids(box: seq<Msg>) { forall i, j :: 0 <= i < j < |box| ==> box[i].uid != box[j].uid }

  predicate NoneTwice(pairs: seq<(UidlEntry, Message)>) {
    forall i, j :: 0 <= i < j < |pairs| ==> pairs[i].0.uniqueId != pairs[j].0.uniqueId
  }

  /** Then no UID is handed out twice in a round, and the number of pairs is that of UIDs. */
  lemma OncePerUid(s: Session, seen: set<string>, pairs: seq<(UidlEntry, Message)>)
    requires AllNew(s, seen, Firsts(pairs))
    ensures DistinctUids(s.box) ==> NoneTwice(pairs) && |Uids(pairs)| == |pairs|
  {
    if !DistinctUids(s.box) { return; }
    var es := Firsts(pairs);
    forall i, j | 0 <= i < j < |pairs| ensures pairs[i].0.uniqueId != pairs[j].0.uniqueId {
      assert es[i].messageId < es[j].messageId;
      assert es[i] == EntryOf(s, es[i].messageId) && es[j] == EntryOf(s, es[j].messageId);
    }
    CountUids(pairs);
  }

  lemma {:induction false} CountUids(pairs: seq<(UidlEntry, Message)>)
    requires NoneTwice(pairs)
    ensures |Uids(pairs)| == |pairs|
  {
    if pairs == [] {
      assert Uids(pairs) == {};
    } else {
      var n := |pairs| - 1;
      CountUids(pairs[..n]);
      assert Uids(pairs) == Uids(pairs[..n]) + {pairs[n].0.uniqueId};
      assert pairs[n].0.uniqueId !in Uids(pairs[..n]);
    }
  }

  lemma {:induction false} SeenPrefix(seen: set<string>, cs: seq<Cycle>, c: Cycle, n: nat)
    requires n <= |cs|
    ensures SeenBefore(seen, cs + [c], n) == SeenBefore(seen, cs, n)
  {
    if n > 0 { SeenPrefix(seen, cs, c, n - 1); }
  }

  lemma RecordsOneMore(seen: set<string>, rounds: seq<Result<Outcome<seq<(UidlEntry, Message)>>>>, cs: seq<Cycle>,
                       ts: seq<Tale>, r: Result<Outcome<seq<(UidlEntry, Message)>>>, c: Cycle, t: Tale)
    requires Records(seen, rounds, cs, ts) && RecordOf(SeenBefore(seen, cs, |cs|), r, c, t)
    ensures Records(seen, rounds + [r], cs + [c], ts + [t])
  {
    var rounds', cs', ts' := rounds + [r], cs + [c], ts + [t];
    forall i | 0 <= i < |cs'| ensures RecordOf(SeenBefore(seen, cs', i), rounds'[i], cs'[i], ts'[i]) {
      SeenPrefix(seen, cs, c, i);
      assert i < |cs| ==> rounds'[i] == rounds[i] && cs'[i] == cs[i] && ts'[i] == ts[i];
      assert i == |cs| ==> rounds'[i] == r && cs'[i] == c && ts'[i] == t;
    }
  }

  lemma SeenOneMore(seen: set<string>, cs: seq<Cycle>, c: Cycle)
    ensures SeenBefore(seen, cs + [c], |cs| + 1) == SeenAfter(SeenBefore(seen, cs, |cs|), c)
  {
    SeenPrefix(seen, cs, c, |cs|);
  }

  /** Where a run of rounds stands: what has been returned, and what is in the set. */
  ghost predicate Ongoing(seen: set<string>, l0: Link, l: Link,
                          rounds: seq<Result<Outcome<seq<(UidlEntry, Message)>>>>, cs: seq<Cycle>, ts: seq<Tale>,
                          now: set<string>)
  {
    Records(seen, rounds, cs, ts) && Chained(l0, l, ts) && now == SeenBefore(seen, cs, |cs|)
    && (cs != [] && cs[|cs| - 1].Done? ==> cs[|cs| - 1].second == BoxUids(l.server.box))
  }

  lemma OneRoundMore(seen: set<string>, l0: Link, l: Link, rounds: seq<Result<Outcome<seq<(UidlEntry, Message)>>>>,
                     cs: seq<Cycle>, ts: seq<Tale>, now: set<string>, r: Result<Outcome<seq<(UidlEntry, Message)>>>,
                     c: Cycle, t: Tale)
    requires Ongoing(seen, l0, l, rounds, cs, ts, now) && RecordOf(now, r, c, t) && t.start == l
    requires c.Done? ==> c.second == BoxUids(t.end.server.box)
    ensures Ongoing(seen, l0, t.end, rounds + [r], cs + [c], ts + [t], SeenAfter(now, c))
  {
    RecordsOneMore(seen, rounds, cs, ts, r, c, t);
    SeenOneMore(seen, cs, c);
  }

  method SyncRounds(rc: ReconnectingClient, seen: SeenSet, n: nat)
    returns (rounds: seq<Result<Outcome<seq<(UidlEntry, Message)>>>>, ghost cs: seq<Cycle>, ghost ts: seq<Tale>)
    requires rc.Valid() && rc.client.transport.link.server.marked == {}
    modifies rc`client, rc`notified, rc`generation, rc.net, rc.client, rc.client.transport, seen
    ensures |cs| == n
    ensures Ongoing(old(seen.uids), old(rc.client.transport.link), rc.client.transport.link, rounds, cs, ts, seen.uids)
  {
    ghost var before, l0 := seen.uids, rc.client.transport.link;
    rounds, cs, ts := [], [], [];
    for k := 0 to n
      invariant rc.Valid() && rc.client.transport.link.server.marked == {} && |cs| == k
      invariant rc.client == old(rc.client) || (fresh(rc.client) && fresh(rc.client.transport))
      invariant Ongoing(before, l0, rc.client.transport.link, rounds, cs, ts, seen.uids)
    {
      ghost var now, l := seen.uids, rc.client.transport.link;
      var r;
      ghost var c, t;
      r, c, t := SyncCycle(rc, seen);
      OneRoundMore(before, l0, l, rounds, cs, ts, now, r, c, t);
      rounds, cs, ts := rounds + [r], cs + [c], ts + [t];
    }
  }

  /** Any number of cycles, failed ones and reconnects included. If a UID that has left the
      listing never returns, no two rounds hand out the same UID; no round hands out a message
      twice; and when a round has finished, everything in the mailbox has been handed out or
      was seen from the start. */
  method SyncMany(rc: ReconnectingClient, seen: SeenSet, n: nat)
    returns (rounds: seq<Result<Outcome<seq<(UidlEntry, Message)>>>>, ghost cs: seq<Cycle>, ghost ts: seq<Tale>)
    requires rc.Valid() && rc.client.transport.link.server.marked == {}
    modifies rc`client, rc`notified, rc`generation, rc.net, rc.client, rc.client.transport, seen
    ensures |cs| == n && Records(old(seen.uids), rounds, cs, ts) && seen.uids == SeenBefore(old(seen.uids), cs, n)
    ensures Chained(old(rc.client.transport.link), rc.client.transport.link, ts)
    ensures NoReturns(LooksBefore(cs, n)) ==> Apart(rounds)
    ensures n > 0 && rounds[n - 1].Ok? ==>
      BoxUids(rc.client.transport.link.server.box) <= old(seen.uids) + DeliveredBefore(old(seen.uids), cs, n)
  {
    rounds, cs, ts := SyncRounds(rc, seen, n);
    if NoReturns(LooksBefore(cs, n)) { RoundsApart(old(seen.uids), rounds, cs, ts); }
    AtLeastOnce(old(seen.uids), cs, n);
  }

  ghost predicate Apart(rounds: seq<Result<Outcome<seq<(UidlEntry, Message)>>>>) {
    forall i, j :: 0 <= i < j < |rounds| && rounds[i].Ok? && rounds[j].Ok? ==>
      Uids(rounds[i].value.value) !! Uids(rounds[j].value.value)
  }

  lemma RoundsApart(seen: set<string>, rounds: seq<Result<Outcome<seq<(UidlEntry, Message)>>>>, cs: seq<Cycle>,
                    ts: seq<Tale>)
    requires Records(seen, rounds, cs, ts) && NoReturns(LooksBefore(cs, |cs|))
    ensures Apart(rounds)
  {
    forall i, j | 0 <= i < j < |cs| && rounds[i].Ok? && rounds[j].Ok?
      ensures Uids(rounds[i].value.value) !! Uids(rounds[j].value.value)
    {
      AtMostOnce(seen, cs, i, j);
    }
  }

  /** What a fetch shows of a session with the same mail. */
  lemma FetchTells(s0: Session, s: Session, seen: set<string>, pairs: seq<(UidlEntry, Message)>)
    requires SameMail(s0, s) && Fetched(s, seen, pairs)
    ensures ListedUids(s) == ListedUids(s0) && Uids(pairs) == ListedUids(s0) - seen
    ensures AllNew(s0, seen, Firsts(pairs))
  {
    SameView(s0, s);
    FetchedShown(s, s0, seen, pairs);
    FetchedUids(s, seen, pairs);
    FetchedAllNew(s0, seen, pairs);
  }

  /** The same on a plain client: a finished cycle leaves exactly the listing in the set. */
  method SyncSession(client: Pop3Client, seen: SeenSet) returns (r: Result<seq<(UidlEntry, Message)>>, ghost c: Cycle)
    requires client.Valid() && client.transport.link.server.marked == {}
    modifies client`log, client.transport, seen
    ensures client.Valid()
    ensures r.Ok? <==> c.Done?
    ensures seen.uids == SeenAfter(old(seen.uids), c)
    ensures r.Ok? ==> Uids(r.value) == Delivered(old(seen.uids), c)
    ensures r.Ok? ==> c.first == c.second == BoxUids(old(client.transport.link.server.box)) == seen.uids
    ensures client.state.Authenticated? ==>
      (c.PruneFailed? <==> !(Survives(old(client.transport.link), Uidl)
                             && UidlMeaning()(old(client.transport.link).server).Ok?))
    ensures client.state.Authenticated? && !c.PruneFailed? ==>
      (r.Ok? <==> FetchSucceeds(Worn(old(client.transport.link), Uidl), Kept(old(seen.uids), c)))
    ensures r.Ok? ==> AllNew(old(client.transport.link.server), Kept(old(seen.uids), c), Firsts(r.value))
  {
    ghost var s0 := client.transport.link.server;
    c := PruneFailed;
    ListsAll(s0);
    var p := client.PruneSeen(seen);
    if p.Err? { return Err(p.error), c; }
    c := FetchFailed(ListedUids(s0));
    r := SessionFetch(client, seen, s0);
    if r.Ok? { c := Done(c.first, ListedUids(s0)); }
  }

  /** The link holds out for a fetch, and the session obeys it. */
  predicate FetchSucceeds(l: Link, seen: set<string>) {
    FetchLasts(l, seen) && FetchVerdict(l.server, seen).None?
  }

  method SessionFetch(client: Pop3Client, seen: SeenSet, ghost s0: Session)
    returns (r: Result<seq<(UidlEntry, Message)>>)
    requires client.Valid() && SameMail(s0, client.transport.link.server)
    modifies client`log, client.transport, seen
    ensures client.Valid()
    ensures r.Err? ==> seen.uids == old(seen.uids)
    ensures r.Ok? ==> Uids(r.value) == ListedUids(s0) - old(seen.uids) && seen.uids == old(seen.uids) + Uids(r.value)
    ensures r.Ok? ==> AllNew(s0, old(seen.uids), Firsts(r.value))
    ensures client.state.Authenticated? ==> (r.Ok? <==> FetchSucceeds(old(client.transport.link), old(seen.uids)))
  {
    ghost var s := client.transport.link.server;
    r := client.FetchUnseen(seen.uids);
    if r.Ok? {
      FetchTells(s0, s, seen.uids, r.value);
      Remember(seen, r.value);
    }
  }
}
