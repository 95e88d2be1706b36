/** Whole conversations of a plain client: any list of calls, in any order, with any faults. */
module Conversation {
  import opened Basics
  import opened Strings
  import opened Connection
  import opened Meaning
  import opened Exchange
  import opened Client

  datatype ClientCall =
    | DoLogin(user: string, word: string) | DoApop(user: string, word: string) | DoStls(handshake: Result<()>)
    | DoCapa | DoStat | DoList | DoListOne(id: U32) | DoUidl | DoUidlOne(id: U32) | DoRetr(id: U32)
    | DoTop(id: U32, lines: U32) | DoDele(id: U32) | DoRset | DoNoop | DoRetrMany(ids: seq<U32>)
    | DoDeleMany(ids: seq<U32>) | DoUnseen(seen: set<string>) | DoFetch(seen: set<string>) | DoPrune(seen: set<string>)

  /** What the two sides have to show for a conversation. On the wire: as long as no write has
      failed, the lines written are the commands issued, one by one, and otherwise no more
      than these. In the log: mailbox commands only after the server has accepted a PASS or
      an APOP, those two and USER only before the client is authenticated, STLS neither
      authenticated nor encrypted. And every reply has been consumed by its command. */
  ghost predicate Orderly(client: Pop3Client)
    reads client, client.transport
  {
    var t, log := client.transport, client.log;
    (!t.link.writeDead ==> SplitCrlf(t.written) == LinesOf(CommandsOf(log)))
    && t.written <= Bytes(CommandsOf(log))
    && (log != [] ==> !log[0].authed)
    && (forall i :: 0 <= i < |log| ==>
          (ForMailbox(log[i].command) ==> log[i].authed && log[i].accepted && LoginBefore(log, i))
          && (log[i].command.User? || LogsIn(log[i].command) ==> !log[i].authed)
          && (log[i].command.Stls? ==> !log[i].authed && !log[i].encrypted))
    && (forall i :: 0 <= i < |log| - 1 ==> Follows(log[i], log[i + 1].authed))
    && (client.isPipelining ==> client.state.Authenticated?)
    && (client.state.Authenticated? ==> t.link.server.authed)
    && (!Broken(t.link) ==> t.link.inbound == "")
  }

  /** A PASS or an APOP was issued before the j-th command. */
  predicate LoginBefore(log: seq<Issue>, j: nat)
    requires j <= |log|
  {
    exists i :: 0 <= i < j && LogsIn(log[i].command)
  }

  lemma {:induction false} AuthedMeansLogin(log: seq<Issue>, authed: bool, j: nat)
    requires Lawful(log, authed) && j < |log| && log[j].authed
    ensures LoginBefore(log, j)
  {
    assert Follows(log[j - 1], log[j].authed);
    if log[j - 1].authed { AuthedMeansLogin(log, authed, j - 1); }
  }

  lemma ValidIsOrderly(client: Pop3Client)
    requires client.Valid()
    ensures Orderly(client)
  {
    var log := client.log;
    assert forall i :: 0 <= i < |log| ==> Permitted(log[i]);
    forall i | 0 <= i < |log| && log[i].authed ensures LoginBefore(log, i) {
      AuthedMeansLogin(log, client.state.Authenticated?, i);
    }
    WireTrace(CommandsOf(log));
  }

  method Enter(client: Pop3Client, call: ClientCall, md5: string -> string)
    requires client.Valid() && (call.DoLogin? || call.DoApop? || call.DoStls? || call.DoCapa?)
    requires forall x :: Clean(md5(x))
    modifies client, client.transport
    ensures client.Valid() && (old(client.state).Authenticated? ==> client.state.Authenticated?)
  {
    match call {
      case DoLogin(user, word) => var _ := client.Login(user, word);
      case DoApop(user, word) => var _ := client.Apop(user, word, md5);
      case DoStls(handshake) => var _ := client.Stls(handshake);
      case DoCapa => var _ := client.Capa();
    }
  }

  method Ask(client: Pop3Client, call: ClientCall)
    requires client.Valid() && !(call.DoLogin? || call.DoApop? || call.DoStls? || call.DoCapa?)
    modifies client, client.transport
    ensures client.Valid() && client.state == old(client.state)
  {
    match call {
      case DoStat => var _ := client.Stat();
      case DoList => var _ := client.ListAll();
      case DoListOne(id) => var _ := client.ListSingle(id);
      case DoUidl => var _ := client.UidlAll();
      case DoUidlOne(id) => var _ := client.UidlSingle(id);
      case DoRetr(id) => var _ := client.Retr(id);
      case DoTop(id, lines) => var _ := client.Top(id, lines);
      case DoDele(id) => var _ := client.Dele(id);
      case DoRset => var _ := client.Rset();
      case DoNoop => var _ := client.Noop();
      case DoRetrMany(ids) => var _, _, _ := client.RetrMany(ids);
      case DoDeleMany(ids) => var _, _, _ := client.DeleMany(ids);
      case DoUnseen(seen) => var _ := client.UnseenUids(seen);
      case DoFetch(seen) => var _ := client.FetchUnseen(seen);
      case DoPrune(seen) => var uids := new SeenSet(seen); var _ := client.PruneSeen(uids);
    }
  }

  /** Any run of calls, ended by QUIT or not, is orderly; and a client that is authenticated
      stays so. */
  method Converse(client: Pop3Client, calls: seq<ClientCall>, md5: string -> string, quit: bool)
    requires client.Valid() && forall x :: Clean(md5(x))
    modifies client, client.transport
    ensures client.Valid() && Orderly(client)
    ensures old(client.state).Authenticated? ==> client.state.Authenticated?
  {
    for i := 0 to |calls|
      invariant client.Valid()
      invariant old(client.state).Authenticated? ==> client.state.Authenticated?
    {
      var call := calls[i];
      if call.DoLogin? || call.DoApop? || call.DoStls? || call.DoCapa? {
        Enter(client, call, md5);
      } else {
        Ask(client, call);
      }
    }
    if quit { var _ := client.Quit(); }
    ValidIsOrderly(client);
  }
}
