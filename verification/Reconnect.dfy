/** The reconnecting wrapper: every call is tried once, and once more on a new session if the
    first attempt failed for the moment. */
module Reconnect {
  import opened Basics
  import opened Strings
  import opened Response
  import opened Server
  import opened Pipeline
  import opened Connection
  import opened Meaning
  import opened Exchange
  import opened Client
  import opened Builder
  import opened Redial
  import opened Attempts
  import opened Calls

  class ReconnectingClient {
    const builder: Pop3ClientBuilder
    const username: string
    const password: string
    const maxRetries: nat
    const callback: bool
    const md5: string -> string
    const net: Network
    var client: Pop3Client
    var notified: seq<(nat, Error)>   // what the callback has been told
    ghost var generation: nat         // how often the inner client has been replaced

    ghost predicate Valid()
      reads this, net, client, client.transport
    {
      client.Valid() && client.state.Authenticated?
      && builder.auth.NoAuth? && Clean(username) && Clean(password)
      && (forall x :: Clean(md5(x)))
      && net.Valid() && Genuine(client.transport.link.server.box, net.mail)
      && !client.transport.link.server.ended
    }

    function Identity(): Account { Account(builder.tls, username, password) }

    /** What reconnecting would depend on now. */
    ghost function Prospect(): Plan
      reads net
    {
      Plan(net.dials, Identity(), maxRetries)
    }

    constructor (builder: Pop3ClientBuilder, username: string, password: string, maxRetries: nat, callback: bool,
                 md5: string -> string, net: Network, client: Pop3Client, notified: seq<(nat, Error)>)
      requires client.Valid() && client.state.Authenticated? && builder.auth.NoAuth? && (forall x :: Clean(md5(x)))
      requires Clean(username) && Clean(password)
      requires net.Valid() && Genuine(client.transport.link.server.box, net.mail) && !client.transport.link.server.ended
      ensures Valid() && this.client == client && this.net == net && this.builder == builder
      ensures this.username == username && this.password == password && this.maxRetries == maxRetries
      ensures this.callback == callback && this.md5 == md5 && this.notified == notified
    {
      this.builder, this.username, this.password, this.maxRetries := builder, username, password, maxRetries;
      this.callback, this.md5, this.net, this.client, this.notified := callback, md5, net, client, notified;
      this.generation := 0;
    }

    /** Replaces the inner client by a new, authenticated one with no marks, or fails and
        leaves it as it is. */
    method DoReconnect() returns (r: Result<()>, ghost errors: seq<Error>)
      requires Valid()
      modifies this`client, this`notified, this`generation, net
      ensures Valid()
      ensures r.Err? ==> client == old(client) && generation == old(generation)
      ensures r.Ok? ==> fresh(client) && fresh(client.transport) && generation == old(generation) + 1
      ensures r.Ok? ==> Arrived(old(Prospect()), errors, client.transport.link)
      ensures r.Err? ==> GaveUp(old(Prospect()), errors, r.error) && r.error != NotAuthenticated
      ensures Explained(old(net.dials), Identity(), errors)
      ensures notified == old(notified) + (if callback then Numbered(errors) else [])
      ensures net.dials == Drop(old(net.dials), |errors| + 1)
    {
      var calls, c;
      c, calls, errors := Retry(builder, net, Identity(), md5, maxRetries, callback);
      notified := notified + calls;
      if c.Err? { return Err(c.error), errors; }
      client := c.value;
      generation := generation + 1;
      r := Ok(());
    }

    /** The call has used up the connections that its story tells of, and the callback has been
        told of it. */
    ghost predicate Accords<T>(story: Story<T>, dials: seq<Dial>, notices: seq<(nat, Error)>)
      reads this, net
    {
      net.dials == Drop(dials, Redials(story)) && notified == notices + Notices(callback, story)
    }

    /** After the first attempt of a wrapper: done, or reconnected and to be repeated. The
        story lacks its second attempt then. */
    method Decide<T(!new)>(v: Result<T>, wants: bool, ghost spoilt: T -> bool)
      returns (again: bool, r: Result<Outcome<T>>, ghost story: Story<T>)
      requires Valid() && wants == Wants(v, spoilt)
      modifies this`client, this`notified, this`generation, net
      ensures Valid() && again == story.Moved? && story.first == v
      ensures !again ==> client == old(client) && generation == old(generation)
      ensures !again ==> r == OutcomeOf(story)
      ensures again ==> fresh(client) && fresh(client.transport) && generation == old(generation) + 1
      ensures again ==> story.joined == client.transport.link
      ensures Begun(old(Prospect()), spoilt, old(client.transport.link), story)
      ensures Accords(story, old(net.dials), old(notified))
    {
      if !wants {
        again, story := false, Stayed(v);
        r := First(v);
        return;
      }
      ghost var left := client.transport.link;
      var reconnected;
      ghost var errors;
      reconnected, errors := DoReconnect();
      if reconnected.Err? {
        again, r, story := false, Err(reconnected.error), Stranded(v, errors, reconnected.error);
      } else {
        again, r, story := true, Err(Io), Moved(v, left, errors, client.transport.link, v);
      }
    }

    method StatOnce() returns (v: Result<Response.Stat>)
      requires Valid()
      modifies client, client.transport
      ensures Valid() && Single(Command.Stat, StatMeaning())(old(client.transport.link), client.transport.link, v)
    {
      ghost var l0 := client.transport.link;
      v := client.Stat();
      SingleDone(l0, client.transport.link, Guard(client.state, false), Command.Stat, v,
                 StatOfReply(l0.server, ReplyTo(l0.server, Command.Stat)), StatMeaning());
    }

    method Stat() returns (r: Result<Outcome<Response.Stat>>, ghost story: Story<Response.Stat>)
      requires Valid()
      modifies this`client, this`notified, this`generation, net, client, client.transport
      ensures Valid() && r == OutcomeOf(story)
      ensures if story.Moved? then fresh(client) && fresh(client.transport) && generation == old(generation) + 1
              else client == old(client) && generation == old(generation)
      ensures Told(old(Prospect()), Single(Command.Stat, StatMeaning()), Never(),
                   old(client.transport.link), client.transport.link, story)
    {
      ghost var p, l0 := Prospect(), client.transport.link;
      var v := StatOnce();
      ghost var left := client.transport.link;
      var again;
      again, r, story := Decide(v, v.Err? && IsRetryable(v.error), Never());
      if again {
        ghost var begun := story;
        v := StatOnce();
        r, story := Second(v), begun.(second := v);
        ToldAfterMove(p, Single(Command.Stat, StatMeaning()), Never(), l0, left, client.transport.link, begun, v,
                      story);
        assert fresh(client) && fresh(client.transport) && generation == old(generation) + 1;
      } else {
        assert !story.Moved? && client == old(client) && generation == old(generation);
        ToldAtOnce(p, Single(Command.Stat, StatMeaning()), Never(), l0, left, story);
      }
    }

    method ListAllOnce() returns (v: Result<seq<ListEntry>>)
      requires Valid()
      modifies client, client.transport
      ensures Valid() && Single(List, ListMeaning())(old(client.transport.link), client.transport.link, v)
    {
      ghost var l0 := client.transport.link;
      v := client.ListAll();
      SingleDone(l0, client.transport.link, Guard(client.state, false), List, v,
                 ScansOf(ReplyTo(l0.server, List), Scans(l0.server)), ListMeaning());
    }

    method ListAll() returns (r: Result<Outcome<seq<ListEntry>>>, ghost story: Story<seq<ListEntry>>)
      requires Valid()
      modifies this`client, this`notified, this`generation, net, client, client.transport
      ensures Valid() && r == OutcomeOf(story)
      ensures if story.Moved? then fresh(client) && fresh(client.transport) && generation == old(generation) + 1
              else client == old(client) && generation == old(generation)
      ensures Told(old(Prospect()), Single(List, ListMeaning()), Never(),
                   old(client.transport.link), client.transport.link, story)
    {
      ghost var p, l0 := Prospect(), client.transport.link;
      var v := ListAllOnce();
      ghost var left := client.transport.link;
      var again;
      again, r, story := Decide(v, v.Err? && IsRetryable(v.error), Never());
      if again {
        ghost var begun := story;
        v := ListAllOnce();
        r, story := Second(v), begun.(second := v);
        ToldAfterMove(p, Single(List, ListMeaning()), Never(), l0, left, client.transport.link, begun, v, story);
        assert fresh(client) && fresh(client.transport) && generation == old(generation) + 1;
      } else {
        assert !story.Moved? && client == old(client) && generation == old(generation);
        ToldAtOnce(p, Single(List, ListMeaning()), Never(), l0, left, story);
      }
    }

    method ListSingleOnce(id: U32) returns (v: Result<seq<ListEntry>>)
      requires Valid()
      modifies client, client.transport
      ensures Valid() && Single(ListOne(id), ScanMeaning(id))(old(client.transport.link), client.transport.link, v)
    {
      ghost var l0 := client.transport.link;
      v := client.ListSingle(id);
      SingleDone(l0, client.transport.link, Guard(client.state, id == 0), ListOne(id), v,
                 ListOneOf(l0.server, id), ScanMeaning(id));
    }

    method ListSingle(id: U32) returns (r: Result<Outcome<seq<ListEntry>>>, ghost story: Story<seq<ListEntry>>)
      requires Valid()
      modifies this`client, this`notified, this`generation, net, client, client.transport
      ensures Valid() && r == OutcomeOf(story)
      ensures if story.Moved? then fresh(client) && fresh(client.transport) && generation == old(generation) + 1
              else client == old(client) && generation == old(generation)
      ensures Told(old(Prospect()), Single(ListOne(id), ScanMeaning(id)), Never(),
                   old(client.transport.link), client.transport.link, story)
    {
      ghost var p, l0 := Prospect(), client.transport.link;
      var v := ListSingleOnce(id);
      ghost var left := client.transport.link;
      var again;
      again, r, story := Decide(v, v.Err? && IsRetryable(v.error), Never());
      if again {
        ghost var begun := story;
        v := ListSingleOnce(id);
        r, story := Second(v), begun.(second := v);
        ToldAfterMove(p, Single(ListOne(id), ScanMeaning(id)), Never(), l0, left, client.transport.link, begun, v,
                      story);
        assert fresh(client) && fresh(client.transport) && generation == old(generation) + 1;
      } else {
        assert !story.Moved? && client == old(client) && generation == old(generation);
        ToldAtOnce(p, Single(ListOne(id), ScanMeaning(id)), Never(), l0, left, story);
      }
    }

    method UidlAllOnce() returns (v: Result<seq<UidlEntry>>)
      requires Valid()
      modifies client, client.transport
      ensures Valid() && Single(Uidl, UidlMeaning())(old(client.transport.link), client.transport.link, v)
    {
      ghost var l0 := client.transport.link;
      v := client.UidlAll();
      SingleDone(l0, client.transport.link, Guard(client.state, false), Uidl, v,
                 UidsOf(ReplyTo(l0.server, Uidl), Entries(l0.server)), UidlMeaning());
    }

    method UidlAll() returns (r: Result<Outcome<seq<UidlEntry>>>, ghost story: Story<seq<UidlEntry>>)
      requires Valid()
      modifies this`client, this`notified, this`generation, net, client, client.transport
      ensures Valid() && r == OutcomeOf(story)
      ensures if story.Moved? then fresh(client) && fresh(client.transport) && generation == old(generation) + 1
              else client == old(client) && generation == old(generation)
      ensures Told(old(Prospect()), Single(Uidl, UidlMeaning()), Never(),
                   old(client.transport.link), client.transport.link, story)
    {
      ghost var p, l0 := Prospect(), client.transport.link;
      var v := UidlAllOnce();
      ghost var left := client.transport.link;
      var again;
      again, r, story := Decide(v, v.Err? && IsRetryable(v.error), Never());
      if again {
        ghost var begun := story;
        v := UidlAllOnce();
        r, story := Second(v), begun.(second := v);
        ToldAfterMove(p, Single(Uidl, UidlMeaning()), Never(), l0, left, client.transport.link, begun, v, story);
        assert fresh(client) && fresh(client.transport) && generation == old(generation) + 1;
      } else {
        assert !story.Moved? && client == old(client) && generation == old(generation);
        ToldAtOnce(p, Single(Uidl, UidlMeaning()), Never(), l0, left, story);
      }
    }

    method UidlSingleOnce(id: U32) returns (v: Result<seq<UidlEntry>>)
      requires Valid()
      modifies client, client.transport
      ensures Valid() && Single(UidlOne(id), UidMeaning(id))(old(client.transport.link), client.transport.link, v)
    {
      ghost var l0 := client.transport.link;
      v := client.UidlSingle(id);
      SingleDone(l0, client.transport.link, Guard(client.state, id == 0), UidlOne(id), v,
                 UidlOneOf(l0.server, id), UidMeaning(id));
    }

    method UidlSingle(id: U32) returns (r: Result<Outcome<seq<UidlEntry>>>, ghost story: Story<seq<UidlEntry>>)
      requires Valid()
      modifies this`client, this`notified, this`generation, net, client, client.transport
      ensures Valid() && r == OutcomeOf(story)
      ensures if story.Moved? then fresh(client) && fresh(client.transport) && generation == old(generation) + 1
              else client == old(client) && generation == old(generation)
      ensures Told(old(Prospect()), Single(UidlOne(id), UidMeaning(id)), Never(),
                   old(client.transport.link), client.transport.link, story)
    {
      ghost var p, l0 := Prospect(), client.transport.link;
      var v := UidlSingleOnce(id);
      ghost var left := client.transport.link;
      var again;
      again, r, story := Decide(v, v.Err? && IsRetryable(v.error), Never());
      if again {
        ghost var begun := story;
        v := UidlSingleOnce(id);
        r, story := Second(v), begun.(second := v);
        ToldAfterMove(p, Single(UidlOne(id), UidMeaning(id)), Never(), l0, left, client.transport.link, begun, v,
                      story);
        assert fresh(client) && fresh(client.transport) && generation == old(generation) + 1;
      } else {
        assert !story.Moved? && client == old(client) && generation == old(generation);
        ToldAtOnce(p, Single(UidlOne(id), UidMeaning(id)), Never(), l0, left, story);
      }
    }

    method RetrOnce(id: U32) returns (v: Result<Message>)
      requires Valid()
      modifies client, client.transport
      ensures Valid()
      ensures Single(Command.Retr(id), MessageMeaning(Command.Retr(id)))(
        old(client.transport.link), client.transport.link, v)
    {
      ghost var l0 := client.transport.link;
      v := client.Retr(id);
      SingleDone(l0, client.transport.link, Guard(client.state, id == 0), Command.Retr(id), v,
                 MessageOf(ReplyTo(l0.server, Command.Retr(id))), MessageMeaning(Command.Retr(id)));
    }

    method Retr(id: U32) returns (r: Result<Outcome<Message>>, ghost story: Story<Message>)
      requires Valid()
      modifies this`client, this`notified, this`generation, net, client, client.transport
      ensures Valid() && r == OutcomeOf(story)
      ensures if story.Moved? then fresh(client) && fresh(client.transport) && generation == old(generation) + 1
              else client == old(client) && generation == old(generation)
      ensures Told(old(Prospect()), Single(Command.Retr(id), MessageMeaning(Command.Retr(id))), Never(),
                   old(client.transport.link), client.transport.link, story)
    {
      ghost var p, l0 := Prospect(), client.transport.link;
      var v := RetrOnce(id);
      ghost var left := client.transport.link;
      var again;
      again, r, story := Decide(v, v.Err? && IsRetryable(v.error), Never());
      if again {
        ghost var begun := story;
        v := RetrOnce(id);
        r, story := Second(v), begun.(second := v);
        ToldAfterMove(p, Single(Command.Retr(id), MessageMeaning(Command.Retr(id))), Never(), l0, left,
                      client.transport.link, begun, v, story);
        assert fresh(client) && fresh(client.transport) && generation == old(generation) + 1;
      } else {
        assert !story.Moved? && client == old(client) && generation == old(generation);
        ToldAtOnce(p, Single(Command.Retr(id), MessageMeaning(Command.Retr(id))), Never(), l0, left, story);
      }
    }

    method TopOnce(id: U32, lines: U32) returns (v: Result<Message>)
      requires Valid()
      modifies client, client.transport
      ensures Valid()
      ensures Single(Command.Top(id, lines), MessageMeaning(Command.Top(id, lines)))(
        old(client.transport.link), client.transport.link, v)
    {
      ghost var l0 := client.transport.link;
      v := client.Top(id, lines);
      SingleDone(l0, client.transport.link, Guard(client.state, id == 0), Command.Top(id, lines), v,
                 MessageOf(ReplyTo(l0.server, Command.Top(id, lines))), MessageMeaning(Command.Top(id, lines)));
    }

    method Top(id: U32, lines: U32) returns (r: Result<Outcome<Message>>, ghost story: Story<Message>)
      requires Valid()
      modifies this`client, this`notified, this`generation, net, client, client.transport
      ensures Valid() && r == OutcomeOf(story)
      ensures if story.Moved? then fresh(client) && fresh(client.transport) && generation == old(generation) + 1
              else client == old(client) && generation == old(generation)
      ensures Told(old(Prospect()), Single(Command.Top(id, lines), MessageMeaning(Command.Top(id, lines))), Never(),
                   old(client.transport.link), client.transport.link, story)
    {
      ghost var p, l0 := Prospect(), client.transport.link;
      var v := TopOnce(id, lines);
      ghost var left := client.transport.link;
      var again;
      again, r, story := Decide(v, v.Err? && IsRetryable(v.error), Never());
      if again {
        ghost var begun := story;
        v := TopOnce(id, lines);
        r, story := Second(v), begun.(second := v);
        ToldAfterMove(p, Single(Command.Top(id, lines), MessageMeaning(Command.Top(id, lines))), Never(), l0, left,
                      client.transport.link, begun, v, story);
        assert fresh(client) && fresh(client.transport) && generation == old(generation) + 1;
      } else {
        assert !story.Moved? && client == old(client) && generation == old(generation);
        ToldAtOnce(p, Single(Command.Top(id, lines), MessageMeaning(Command.Top(id, lines))), Never(), l0, left, story);
      }
    }

    method CapaOnce() returns (v: Result<seq<Capability>>)
      requires Valid()
      modifies client, client.transport
      ensures Valid() && Single(Command.Capa, CapaMeaning())(old(client.transport.link), client.transport.link, v)
    {
      ghost var l0 := client.transport.link;
      v := client.Capa();
      SingleDone(l0, client.transport.link, None, Command.Capa, v,
                 CapsOf(l0.server, ReplyTo(l0.server, Command.Capa)), CapaMeaning());
    }

    method Capa() returns (r: Result<Outcome<seq<Capability>>>, ghost story: Story<seq<Capability>>)
      requires Valid()
      modifies this`client, this`notified, this`generation, net, client, client.transport
      ensures Valid() && r == OutcomeOf(story)
      ensures if story.Moved? then fresh(client) && fresh(client.transport) && generation == old(generation) + 1
              else client == old(client) && generation == old(generation)
      ensures Told(old(Prospect()), Single(Command.Capa, CapaMeaning()), Never(),
                   old(client.transport.link), client.transport.link, story)
    {
      ghost var p, l0 := Prospect(), client.transport.link;
      var v := CapaOnce();
      ghost var left := client.transport.link;
      var again;
      again, r, story := Decide(v, v.Err? && IsRetryable(v.error), Never());
      if again {
        ghost var begun := story;
        v := CapaOnce();
        r, story := Second(v), begun.(second := v);
        ToldAfterMove(p, Single(Command.Capa, CapaMeaning()), Never(), l0, left, client.transport.link, begun, v,
                      story);
        assert fresh(client) && fresh(client.transport) && generation == old(generation) + 1;
      } else {
        assert !story.Moved? && client == old(client) && generation == old(generation);
        ToldAtOnce(p, Single(Command.Capa, CapaMeaning()), Never(), l0, left, story);
      }
    }

    method NoopOnce() returns (v: Result<()>)
      requires Valid()
      modifies client, client.transport
      ensures Valid()
      ensures Single(Command.Noop, AckMeaning(Command.Noop))(
        old(client.transport.link), client.transport.link, v)
    {
      ghost var l0 := client.transport.link;
      v := client.Noop();
      SingleDone(l0, client.transport.link, Guard(client.state, false), Command.Noop, v,
                 AckOf(ReplyTo(l0.server, Command.Noop)), AckMeaning(Command.Noop));
    }

    method Noop() returns (r: Result<Outcome<()>>, ghost story: Story<()>)
      requires Valid()
      modifies this`client, this`notified, this`generation, net, client, client.transport
      ensures Valid() && r == OutcomeOf(story)
      ensures if story.Moved? then fresh(client) && fresh(client.transport) && generation == old(generation) + 1
              else client == old(client) && generation == old(generation)
      ensures Told(old(Prospect()), Single(Command.Noop, AckMeaning(Command.Noop)), Never(),
                   old(client.transport.link), client.transport.link, story)
    {
      ghost var p, l0 := Prospect(), client.transport.link;
      var v := NoopOnce();
      ghost var left := client.transport.link;
      var again;
      again, r, story := Decide(v, v.Err? && IsRetryable(v.error), Never());
      if again {
        ghost var begun := story;
        v := NoopOnce();
        r, story := Second(v), begun.(second := v);
        ToldAfterMove(p, Single(Command.Noop, AckMeaning(Command.Noop)), Never(), l0, left, client.transport.link,
                      begun, v, story);
        assert fresh(client) && fresh(client.transport) && generation == old(generation) + 1;
      } else {
        assert !story.Moved? && client == old(client) && generation == old(generation);
        ToldAtOnce(p, Single(Command.Noop, AckMeaning(Command.Noop)), Never(), l0, left, story);
      }
    }

    method RsetOnce() returns (v: Result<()>)
      requires Valid()
      modifies client, client.transport
      ensures Valid()
      ensures Single(Command.Rset, AckMeaning(Command.Rset))(
        old(client.transport.link), client.transport.link, v)
    {
      ghost var l0 := client.transport.link;
      v := client.Rset();
      SingleDone(l0, client.transport.link, Guard(client.state, false), Command.Rset, v,
                 AckOf(ReplyTo(l0.server, Command.Rset)), AckMeaning(Command.Rset));
    }

    method Rset() returns (r: Result<Outcome<()>>, ghost story: Story<()>)
      requires Valid()
      modifies this`client, this`notified, this`generation, net, client, client.transport
      ensures Valid() && r == OutcomeOf(story)
      ensures if story.Moved? then fresh(client) && fresh(client.transport) && generation == old(generation) + 1
              else client == old(client) && generation == old(generation)
      ensures Told(old(Prospect()), Single(Command.Rset, AckMeaning(Command.Rset)), Never(),
                   old(client.transport.link), client.transport.link, story)
    {
      ghost var p, l0 := Prospect(), client.transport.link;
      var v := RsetOnce();
      ghost var left := client.transport.link;
      var again;
      again, r, story := Decide(v, v.Err? && IsRetryable(v.error), Never());
      if again {
        ghost var begun := story;
        v := RsetOnce();
        r, story := Second(v), begun.(second := v);
        ToldAfterMove(p, Single(Command.Rset, AckMeaning(Command.Rset)), Never(), l0, left, client.transport.link,
                      begun, v, story);
        assert fresh(client) && fresh(client.transport) && generation == old(generation) + 1;
      } else {
        assert !story.Moved? && client == old(client) && generation == old(generation);
        ToldAtOnce(p, Single(Command.Rset, AckMeaning(Command.Rset)), Never(), l0, left, story);
      }
    }

    method DeleOnce(id: U32) returns (v: Result<()>)
      requires Valid()
      modifies client, client.transport
      ensures Valid()
      ensures Single(Command.Dele(id), AckMeaning(Command.Dele(id)))(
        old(client.transport.link), client.transport.link, v)
    {
      ghost var l0 := client.transport.link;
      v := client.Dele(id);
      SingleDone(l0, client.transport.link, Guard(client.state, id == 0), Command.Dele(id), v,
                 AckOf(ReplyTo(l0.server, Command.Dele(id))), AckMeaning(Command.Dele(id)));
    }

    method Dele(id: U32) returns (r: Result<Outcome<()>>, ghost story: Story<()>)
      requires Valid()
      modifies this`client, this`notified, this`generation, net, client, client.transport
      ensures Valid() && r == OutcomeOf(story)
      ensures if story.Moved? then fresh(client) && fresh(client.transport) && generation == old(generation) + 1
              else client == old(client) && generation == old(generation)
      ensures Told(old(Prospect()), Single(Command.Dele(id), AckMeaning(Command.Dele(id))), Never(),
                   old(client.transport.link), client.transport.link, story)
    {
      ghost var p, l0 := Prospect(), client.transport.link;
      var v := DeleOnce(id);
      ghost var left := client.transport.link;
      var again;
      again, r, story := Decide(v, v.Err? && IsRetryable(v.error), Never());
      if again {
        ghost var begun := story;
        v := DeleOnce(id);
        r, story := Second(v), begun.(second := v);
        ToldAfterMove(p, Single(Command.Dele(id), AckMeaning(Command.Dele(id))), Never(), l0, left,
                      client.transport.link, begun, v, story);
        assert fresh(client) && fresh(client.transport) && generation == old(generation) + 1;
      } else {
        assert !story.Moved? && client == old(client) && generation == old(generation);
        ToldAtOnce(p, Single(Command.Dele(id), AckMeaning(Command.Dele(id))), Never(), l0, left, story);
      }
    }

    method UnseenUidsOnce(seen: set<string>) returns (v: Result<seq<UidlEntry>>)
      requires Valid()
      modifies client, client.transport
      ensures Valid() && Single(Uidl, UnseenMeaning(seen))(old(client.transport.link), client.transport.link, v)
    {
      ghost var l0 := client.transport.link;
      v := client.UnseenUids(seen);
      SingleDone(l0, client.transport.link, Guard(client.state, false), Uidl, v,
                 UnseenOf(l0.server, seen), UnseenMeaning(seen));
    }

    method UnseenUids(seen: set<string>)
      returns (r: Result<Outcome<seq<UidlEntry>>>, ghost story: Story<seq<UidlEntry>>)
      requires Valid()
      modifies this`client, this`notified, this`generation, net, client, client.transport
      ensures Valid() && r == OutcomeOf(story)
      ensures if story.Moved? then fresh(client) && fresh(client.transport) && generation == old(generation) + 1
              else client == old(client) && generation == old(generation)
      ensures Told(old(Prospect()), Single(Uidl, UnseenMeaning(seen)), Never(),
                   old(client.transport.link), client.transport.link, story)
    {
      ghost var p, l0 := Prospect(), client.transport.link;
      var v := UnseenUidsOnce(seen);
      ghost var left := client.transport.link;
      var again;
      again, r, story := Decide(v, v.Err? && IsRetryable(v.error), Never());
      if again {
        ghost var begun := story;
        v := UnseenUidsOnce(seen);
        r, story := Second(v), begun.(second := v);
        ToldAfterMove(p, Single(Uidl, UnseenMeaning(seen)), Never(), l0, left, client.transport.link, begun, v, story);
        assert fresh(client) && fresh(client.transport) && generation == old(generation) + 1;
      } else {
        assert !story.Moved? && client == old(client) && generation == old(generation);
        ToldAtOnce(p, Single(Uidl, UnseenMeaning(seen)), Never(), l0, left, story);
      }
    }

    /** The pairs are all that the session lists and `seen` lacks, each message once, by rising
        numbers, and each UID's own message. */
    ghost predicate FetchShown(seen: set<string>, pairs: seq<(UidlEntry, Message)>)
      reads this, net, client, client.transport
    {
      !Broken(client.transport.link) && Fetched(client.transport.link.server, seen, pairs)
      && AllNew(client.transport.link.server, seen, Firsts(pairs)) && OwnMail(pairs, net.mail, seen)
    }

    /** The set has been split by what the session lists. */
    ghost predicate PruneShown(before: set<string>, after: set<string>, dropped: seq<string>)
      reads this, client, client.transport
    {
      !Broken(client.transport.link) && Pruned(before, after, ListedUids(client.transport.link.server), dropped)
    }

    method FetchUnseenOnce(seen: set<string>) returns (v: Result<seq<(UidlEntry, Message)>>)
      requires Valid()
      modifies client, client.transport
      ensures Valid() && FetchDid(seen)(old(client.transport.link), client.transport.link, v)
      ensures v.Ok? ==> FetchShown(seen, v.value)
    {
      ghost var l0 := client.transport.link;
      v := client.FetchUnseen(seen);
      if v.Ok? {
        FetchedIsOwn(l0.server, seen, v.value, net.mail);
        FetchedShown(l0.server, client.transport.link.server, seen, v.value);
        FetchedAllNew(client.transport.link.server, seen, v.value);
      }
    }

    method FetchUnseen(seen: set<string>)
      returns (r: Result<Outcome<seq<(UidlEntry, Message)>>>, ghost story: Story<seq<(UidlEntry, Message)>>)
      requires Valid()
      modifies this`client, this`notified, this`generation, net, client, client.transport
      ensures Valid() && r == OutcomeOf(story)
      ensures if story.Moved? then fresh(client) && fresh(client.transport) && generation == old(generation) + 1
              else client == old(client) && generation == old(generation)
      ensures Told(old(Prospect()), FetchDid(seen), Never(),
                   old(client.transport.link), client.transport.link, story)
      ensures r.Ok? ==> FetchShown(seen, r.value.value)
    {
      ghost var p, l0 := Prospect(), client.transport.link;
      var v := FetchUnseenOnce(seen);
      ghost var left := client.transport.link;
      var again;
      again, r, story := Decide(v, v.Err? && IsRetryable(v.error), Never());
      if again {
        ghost var begun := story;
        v := FetchUnseenOnce(seen);
        r, story := Second(v), begun.(second := v);
        ToldAfterMove(p, FetchDid(seen), Never(), l0, left, client.transport.link, begun, v, story);
        assert fresh(client) && fresh(client.transport) && generation == old(generation) + 1;
      } else {
        assert !story.Moved? && client == old(client) && generation == old(generation);
        ToldAtOnce(p, FetchDid(seen), Never(), l0, left, story);
      }
    }

    /** The set has been split, or left alone. */
    ghost predicate PruneEnd(before: set<string>, after: set<string>, v: Result<seq<string>>)
      reads this, client, client.transport
    {
      match v
      case Ok(dropped) => PruneShown(before, after, dropped)
      case Err(_) => after == before
    }

    method PruneSeenOnce(seen: SeenSet) returns (v: Result<seq<string>>)
      requires Valid()
      modifies client, client.transport, seen
      ensures Valid() && PruneDid(old(seen.uids))(old(client.transport.link), client.transport.link, v)
      ensures PruneEnd(old(seen.uids), seen.uids, v)
    {
      ghost var l0 := client.transport.link;
      v := client.PruneSeen(seen);
      SameView(l0.server, client.transport.link.server);
    }

    /** The set shrinks once, by what the final session does not list, or not at all. */
    method PruneSeen(seen: SeenSet) returns (r: Result<Outcome<seq<string>>>, ghost story: Story<seq<string>>)
      requires Valid()
      modifies this`client, this`notified, this`generation, net, client, client.transport, seen
      ensures Valid() && r == OutcomeOf(story)
      ensures if story.Moved? then fresh(client) && fresh(client.transport) && generation == old(generation) + 1
              else client == old(client) && generation == old(generation)
      ensures Told(old(Prospect()), PruneDid(old(seen.uids)), Never(),
                   old(client.transport.link), client.transport.link, story)
      ensures PruneEnd(old(seen.uids), seen.uids, Bare(r))
    {
      ghost var p, l0, before := Prospect(), client.transport.link, seen.uids;
      var v := PruneSeenOnce(seen);
      ghost var left := client.transport.link;
      var again;
      again, r, story := Decide(v, v.Err? && IsRetryable(v.error), Never());
      if again {
        ghost var begun := story;
        v := PruneSeenOnce(seen);
        r, story := Second(v), begun.(second := v);
        ToldAfterMove(p, PruneDid(before), Never(), l0, left, client.transport.link, begun, v, story);
        assert fresh(client) && fresh(client.transport) && generation == old(generation) + 1;
      } else {
        assert !story.Moved? && client == old(client) && generation == old(generation);
        ToldAtOnce(p, PruneDid(before), Never(), l0, left, story);
      }
    }

    method RetrManyOnce(ids: seq<U32>) returns (v: Result<seq<Result<Message>>>)
      requires Valid()
      modifies client, client.transport
      ensures Valid() && ManyDid(Retrieve, ids, MessageOf)(old(client.transport.link), client.transport.link, v)
    {
      ghost var l0 := client.transport.link;
      ghost var k, m;
      v, k, m := client.RetrMany(ids);
      ManyTaken(l0, client.transport.link, Retrieve, ids, v, MessageOf, k, m);
      RetrManyAttempt(l0, client.transport.link, ids, v);
    }

    /** A batch with a transient item counts as a failed attempt and is repeated whole. */
    method RetrMany(ids: seq<U32>)
      returns (r: Result<Outcome<seq<Result<Message>>>>, ghost story: Story<seq<Result<Message>>>)
      requires Valid()
      modifies this`client, this`notified, this`generation, net, client, client.transport
      ensures Valid() && r == OutcomeOf(story)
      ensures if story.Moved? then fresh(client) && fresh(client.transport) && generation == old(generation) + 1
              else client == old(client) && generation == old(generation)
      ensures Told(old(Prospect()), ManyDid(Retrieve, ids, MessageOf), Spoilt(),
                   old(client.transport.link), client.transport.link, story)
      ensures FreshBatch(Retrieve, ids, MessageOf, old(client.transport.link), client.transport.link, story)
    {
      ghost var p, l0 := Prospect(), client.transport.link;
      var v := RetrManyOnce(ids);
      ghost var left := client.transport.link;
      var again;
      again, r, story := Decide(v, if v.Ok? then AnyRetryable(v.value) else IsRetryable(v.error), Spoilt());
      if again {
        ghost var begun := story;
        v := RetrManyOnce(ids);
        r, story := Second(v), begun.(second := v);
        ToldAfterMove(p, ManyDid(Retrieve, ids, MessageOf), Spoilt(), l0, left, client.transport.link, begun, v, story);
        assert fresh(client) && fresh(client.transport) && generation == old(generation) + 1;
      } else {
        assert !story.Moved? && client == old(client) && generation == old(generation);
        ToldAtOnce(p, ManyDid(Retrieve, ids, MessageOf), Spoilt(), l0, left, story);
      }
      BatchFresh(p, Retrieve, ids, MessageOf, l0, client.transport.link, story);
    }

    method DeleManyOnce(ids: seq<U32>) returns (v: Result<seq<Result<()>>>)
      requires Valid()
      modifies client, client.transport
      ensures Valid() && ManyDid(Delete, ids, AckOf)(old(client.transport.link), client.transport.link, v)
    {
      ghost var l0 := client.transport.link;
      ghost var k, m;
      v, k, m := client.DeleMany(ids);
      ManyTaken(l0, client.transport.link, Delete, ids, v, AckOf, k, m);
      DeleManyAttempt(l0, client.transport.link, ids, v, Acks(ids, v), InDoubt(ids, v));
    }

    method DeleMany(ids: seq<U32>) returns (r: Result<Outcome<seq<Result<()>>>>, ghost story: Story<seq<Result<()>>>)
      requires Valid()
      modifies this`client, this`notified, this`generation, net, client, client.transport
      ensures Valid() && r == OutcomeOf(story)
      ensures if story.Moved? then fresh(client) && fresh(client.transport) && generation == old(generation) + 1
              else client == old(client) && generation == old(generation)
      ensures Told(old(Prospect()), ManyDid(Delete, ids, AckOf), Spoilt(),
                   old(client.transport.link), client.transport.link, story)
      ensures FreshBatch(Delete, ids, AckOf, old(client.transport.link), client.transport.link, story)
    {
      ghost var p, l0 := Prospect(), client.transport.link;
      var v := DeleManyOnce(ids);
      ghost var left := client.transport.link;
      var again;
      again, r, story := Decide(v, if v.Ok? then AnyRetryable(v.value) else IsRetryable(v.error), Spoilt());
      if again {
        ghost var begun := story;
        v := DeleManyOnce(ids);
        r, story := Second(v), begun.(second := v);
        ToldAfterMove(p, ManyDid(Delete, ids, AckOf), Spoilt(), l0, left, client.transport.link, begun, v, story);
        assert fresh(client) && fresh(client.transport) && generation == old(generation) + 1;
      } else {
        assert !story.Moved? && client == old(client) && generation == old(generation);
        ToldAtOnce(p, ManyDid(Delete, ids, AckOf), Spoilt(), l0, left, story);
      }
      BatchFresh(p, Delete, ids, AckOf, l0, client.transport.link, story);
    }

    /** Ends the session; errors are passed on as they are. */
    method Quit() returns (r: Result<()>)
      requires Valid()
      modifies client, client.transport
      ensures Did(old(client.transport.link), client.transport.link, None, Command.Quit, r,
                  AckOf(ReplyTo(old(client.transport.link).server, Command.Quit)))
      ensures r.Ok? ==> !Broken(old(client.transport.link)) && client.transport.link.server.ended
      ensures r.Err? && !IsLost(r) ==> !client.transport.link.server.ended
      ensures client.transport.link.server.marked == old(client.transport.link.server.marked)
      ensures client.transport.link.server.box == old(client.transport.link.server.box)
    {
      r := client.Quit();
    }
  }

  /** `ReconnectingClientBuilder::connect`. */
  method ConnectReconnecting(builder: Pop3ClientBuilder, username: string, password: string, maxRetries: nat,
                             callback: bool, md5: string -> string, net: Network)
    returns (r: Result<ReconnectingClient>, ghost errors: seq<Error>)
    requires net.Valid() && forall x :: Clean(md5(x))
    modifies net
    ensures Disciplined(maxRetries, errors, Failure(r)) && net.dials == Drop(old(net.dials), |errors| + 1)
    ensures builder.auth.NoAuth? ==>
      Redialled(Plan(old(net.dials), Account(builder.tls, username, password), maxRetries), errors, Failure(r))
    ensures r.Ok? ==> fresh(r.value) && fresh(r.value.client) && fresh(r.value.client.transport) && r.value.Valid()
    ensures r.Ok? ==> r.value.net == net && Untouched(r.value.client.transport.link.server)
    ensures r.Ok? ==> Arrived(Plan(old(net.dials), Account(builder.tls, username, password), maxRetries), errors,
                              r.value.client.transport.link)
    ensures r.Ok? ==> r.value.Prospect() == Plan(net.dials, Account(builder.tls, username, password), maxRetries)
    ensures r.Ok? ==> r.value.builder == builder && r.value.callback == callback && r.value.md5 == md5
    ensures r.Ok? ==> r.value.notified == if callback then Numbered(errors) else []
    ensures !builder.auth.NoAuth? ==> r.Err?
  {
    var c, calls;
    c, calls, errors := Retry(builder, net, Account(builder.tls, username, password), md5, maxRetries, callback);
    if c.Err? { return Err(c.error), errors; }
    var rc := new ReconnectingClient(builder, username, password, maxRetries, callback, md5, net, c.value, calls);
    r := Ok(rc);
  }

  /** Connecting, and then a first call. Whether the session is replaced, and where the client
      is logged in then, depends on the connections that are left, on the account and on the
      budget that the caller has named, and on nothing else. */
  method ConnectAndStat(builder: Pop3ClientBuilder, username: string, password: string, maxRetries: nat,
                        callback: bool, md5: string -> string, net: Network)
    returns (r: Result<Outcome<Response.Stat>>, ghost n: nat, ghost joined: Option<(Link, Story<Response.Stat>)>)
    requires net.Valid() && forall x :: Clean(md5(x))
    modifies net
    ensures joined.None? ==> r.Err?
    ensures joined.Some? ==> r == OutcomeOf(joined.value.1)
    ensures builder.auth.NoAuth? ==>
      (joined.Some? <==> Arrival(Plan(old(net.dials), Account(builder.tls, username, password), maxRetries), 0).Some?)
    ensures joined.Some? ==>
      FirstCall(Plan(old(net.dials), Account(builder.tls, username, password), maxRetries), n, joined.value.0,
                joined.value.1)
  {
    n, joined := 0, None;
    ghost var p := Plan(net.dials, Account(builder.tls, username, password), maxRetries);
    var c;
    ghost var errors;
    c, errors := ConnectReconnecting(builder, username, password, maxRetries, callback, md5, net);
    if builder.auth.NoAuth? { ArrivesExactly(p, errors, Failure(c)); }
    if c.Err? { return Err(c.error), n, joined; }
    n := |errors|;
    ghost var l0, rest := c.value.client.transport.link, c.value.Prospect();
    ghost var s;
    r, s := c.value.Stat();
    joined := Some((l0, s));
    FirstCallBy(p, n, rest, errors, l0, c.value.client.transport.link, s);
  }

  /** The client is connected by the dial at which the loop arrives; and a call on it moves
      exactly if it has to and the loop arrives once more, by one of the later dials. */
  ghost predicate FirstCall<T(!new)>(p: Plan, n: nat, l: Link, s: Story<T>) {
    var rest := Plan(Drop(p.dials, n + 1), p.account, p.max);
    Arrival(p, 0) == Some(n) && AfterProbe(Arriving(p), l)
    && (s.Moved? <==> Wants(s.first, Never()) && Arrival(rest, 0).Some?)
    && (s.Moved? ==> AfterProbe(Arriving(rest), s.joined))
  }

  lemma FirstCallBy(p: Plan, n: nat, rest: Plan, errors: seq<Error>, l0: Link, l1: Link, s: Story<Response.Stat>)
    requires Arrived(p, errors, l0) && n == |errors| && rest == Plan(Drop(p.dials, n + 1), p.account, p.max)
    requires Told(rest, Single(Command.Stat, StatMeaning()), Never(), l0, l1, s)
    ensures FirstCall(p, n, l0, s)
  {
    ArrivesExactly(p, errors, None);
    MovedExactly(rest, Single(Command.Stat, StatMeaning()), Never(), l0, l1, s);
    if s.Moved? { ArrivesExactly(rest, s.errors, None); }
  }
}
