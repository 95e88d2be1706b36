/** The buffered reader and writer on one connection. */
module Transport {
  import opened Basics
  import opened Wire
  import opened Server
  import opened Pipeline
  import opened Connection
  import Schedule

  class Transport {
    var link: Link
    var buffer: string      // bytes written and not yet flushed
    var encrypted: bool
    var closed: bool
    ghost var written: string  // every byte the writer has accepted

    constructor (link: Link, encrypted: bool)
      ensures this.link == link && this.encrypted == encrypted && buffer == written == "" && !closed
    {
      this.link, this.encrypted, this.buffer, this.closed := link, encrypted, "", false;
      this.written := "";
    }

    /** `write_all` on the buffered writer. A failure may come after any part of what was
        buffered has left for the server. */
    method WriteAll(bytes: string) returns (ok: bool)
      modifies this`link, this`buffer, this`written
      ensures written == old(written) + if ok then bytes else ""
      ensures ok ==> buffer == old(buffer) + bytes && !link.writeDead
      ensures ok <==> !old(link).writeDead && (old(link).reliable || old(link).writes > 0)
      ensures ok ==> link == old(link).(writes := Less(old(link).writes, 1))
      ensures !ok ==> buffer == "" && link == Sever(old(link), old(buffer) + bytes)
    {
      ok := !link.writeDead && (link.reliable || link.writes > 0);
      if ok {
        buffer, written := buffer + bytes, written + bytes;
        link := link.(writes := Less(link.writes, 1));
      } else {
        link := Sever(link, buffer + bytes);
        buffer, written := "", written + "";
      }
    }

    method Flush() returns (ok: bool)
      modifies this`link, this`buffer
      ensures buffer == ""
      ensures ok <==> !old(link).writeDead && (old(link).reliable || old(link).writes > 0)
      ensures ok ==> link == Receive(old(link), old(buffer)).(writes := Less(old(link).writes, 1))
      ensures !ok ==> link == Sever(old(link), old(buffer))
      ensures ok ==> !link.writeDead
    {
      ok := !link.writeDead && (link.reliable || link.writes > 0);
      if ok {
        link := Receive(link, buffer);
        link := link.(writes := Less(link.writes, 1));
      } else {
        link := Sever(link, buffer);
      }
      buffer := "";
    }

    ghost predicate Valid()
      reads this
    {
      Tidy(link) && buffer == ""
    }

    /** `send_command`: the line, CRLF, flush. */
    method SendCommand(cmd: string, ghost c: Command) returns (r: Result<()>, ghost d: nat)
      requires Valid() && Sendable(c) && cmd == CommandLine(c)
      modifies this`link, this`buffer, this`written
      ensures old(written) <= written <= old(written) + Sent(c)
      ensures r.Ok? ==> written == old(written) + Sent(c)
      ensures old(link).writeDead ==> written == old(written)
      ensures Valid() && SendOver(old(link), link, [c], r.Ok?, d)
      ensures r.Ok? <==> CanSend(old(link))
      ensures r.Ok? ==> link == Receive(old(link), Sent(c)).(writes := Less(old(link).writes, 3))
      ensures r.Err? ==> r.error.Io?
    {
      ghost var l0, w0, l := link, written, link;
      Growing(w0, cmd);
      var ok := WriteAll(cmd);
      if !ok {
        d := SendSevered(l0, l, link, c, cmd);
        return Err(Io), d;
      }
      l := link;
      ok := WriteAll("\r\n");
      if !ok {
        d := SendSevered(l0, l, link, c, Sent(c));
        return Err(Io), d;
      }
      l := link;
      ok := Flush();
      if !ok {
        d := SendSevered(l0, l, link, c, Sent(c));
        return Err(Io), d;
      }
      d := SendFlushed(l0, l, link, c);
      r := Ok(());
    }

    static lemma Growing(w: string, cmd: string)
      ensures "" + cmd == cmd && w + "" == w && w + cmd + "" == w + cmd
      ensures w + cmd + "\r\n" == w + (cmd + "\r\n")
      ensures w <= w + cmd <= w + cmd + "\r\n" && cmd <= cmd + "\r\n"
    {}

    /** Reading leaves everything but the inbound side of the link alone. */
    static predicate OnlyRead(l0: Link, l1: Link) {
      l1 == l0.(inbound := l1.inbound, lines := l1.lines, readDead := l1.readDead)
    }

    /** `read_line`: one line, or the fault that has struck; the end of the stream, and nothing
        else, sets the closed flag. */
    method ReadLine() returns (r: Result<string>)
      modifies this`link, this`closed
      ensures OnlyRead(old(link), link)
      ensures r.Ok? ==> TakeLine(old(link).inbound) == Some((r.value, link.inbound)) && !link.readDead
      ensures r.Ok? ==> link == old(link).(inbound := link.inbound, lines := Less(old(link).lines, 1))
      ensures r.Err? ==> r.error == old(link).fault && link.readDead
      ensures closed <==> old(closed) || (r.Err? && old(link).fault.ConnectionClosed?)
      ensures r.Ok? <==>
        !old(link).readDead && old(link).inbound != "" && (old(link).reliable || old(link).lines > 0)
    {
      if link.readDead || link.inbound == "" || (!link.reliable && link.lines == 0) {
        link := link.(readDead := true);
        if link.fault.ConnectionClosed? { closed := true; }
        return Err(link.fault);
      }
      var line := TakeLine(link.inbound).value;
      link := link.(inbound := line.1, lines := Less(link.lines, 1));
      return Ok(line.0);
    }

    /** `read_multiline`: the body up to the terminator, or the fault that has struck. */
    method ReadMultiline() returns (r: Result<string>)
      modifies this`link, this`closed
      ensures OnlyRead(old(link), link)
      ensures r.Ok? ==> Decode(old(link).inbound) == Some((r.value, link.inbound)) && !link.readDead
      ensures r.Err? ==> r.error == old(link).fault && link.readDead
      ensures closed <==> old(closed) || (r.Err? && old(link).fault.ConnectionClosed?)
      ensures old(link).readDead ==> r.Err?
      ensures r.Ok? ==> link.lines == Less(old(link).lines, BodyLines(old(link).inbound))
      ensures !old(link).readDead && Decode(old(link).inbound).Some? ==>
        (r.Ok? <==> old(link).reliable || BodyLines(old(link).inbound) <= old(link).lines)
    {
      ghost var n := 0;
      var body := "";
      PrefixedLaws("", "", Decode(link.inbound));
      while true
        invariant OnlyRead(old(link), link) && link.readDead == old(link).readDead
        invariant closed == old(closed)
        invariant Decode(old(link).inbound) == Prefixed(body, Decode(link.inbound))
        invariant BodyLines(old(link).inbound) == n + BodyLines(link.inbound)
        invariant link.lines == Less(old(link).lines, n) && (old(link).reliable || n <= old(link).lines)
        decreases |link.inbound|
      {
        r := ReadLine();
        if r.Err? { return; }
        n := n + 1;
        var trimmed := TrimEol(r.value);
        PrefixedLaws(body, Unstuff(trimmed) + "\n",
                     if trimmed == "." then Some(("", link.inbound)) else Decode(link.inbound));
        if trimmed == "." { break; }
        body := body + (Unstuff(trimmed) + "\n");
      }
      return Ok(body);
    }

    method SetClosed()
      modifies this`closed
      ensures closed
    {
      closed := true;
    }

    /** `upgrade_in_place`. A failed handshake leaves no usable stream behind. */
    method UpgradeInPlace(handshake: Result<()>) returns (r: Result<()>)
      requires Valid()
      modifies this`link, this`encrypted
      ensures Valid()
      ensures old(link).inbound != "" ==> r == Err(Io)
      ensures old(link).inbound == "" && old(encrypted) ==> r == Err(Tls)
      ensures old(link).inbound == "" && !old(encrypted) ==> r == handshake
      ensures encrypted == (old(encrypted) || r.Ok?)
      ensures link.server == old(link).server && (Broken(old(link)) ==> Broken(link))
      ensures old(link).inbound != "" || old(encrypted) || r.Ok? ==> link == old(link)
      ensures old(link).inbound == "" && !old(encrypted) && r.Err? ==> Broken(link) && link.writeDead
    {
      if link.inbound != "" { return Err(Io); }
      if encrypted { return Err(Tls); }
      if handshake.Err? {
        link := link.(reliable := false, lost := true, readDead := true, writeDead := true);
        return handshake;
      }
      encrypted := true;
      return handshake;
    }
  }
}
