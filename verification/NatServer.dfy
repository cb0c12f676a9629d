/** The loop bodies of `Server.serveConn` and `Server.recvService`, on the link manager and on packets. */
module NatServers {
  import opened Net
  import opened PortPool
  import opened Ports
  import opened LinkTable
  import opened LinkRuns
  import opened LinkManagers
  import opened NatPath
  import opened InternetSum
  import opened SplitChecksum
  import opened Packets

  /** What the server did with one received segment. */
  datatype Served = Unsupported | NoPort(error: PortError) | Sent(down: Downlink)

  /** A datagram handed to a connection: the peer header says where it came from. */
  datatype Delivery = Delivery(conn: Conn, proto: u8, peer: Addr)

  class Server {
    const links: LinkManager
    const local: Addr  // the listener's address
    const remote: Conn -> Addr  // the address each connection comes from
    ghost var ops: seq<Op>  // every lookup and Add so far
    ghost var run: seq<Sys>  // the states of the manager and its adapter between them

    constructor (links: LinkManager, local: Addr, remote: Conn -> Addr)
      requires links.Valid() && links.ap.Valid() && links.addr == local
      requires links.View() == Table(local, map[], [], map[]) && links.ap.held == map[]
      ensures this.links == links && this.local == local && this.remote == remote && Valid() && ops == []
    {
      this.links, this.local, this.remote := links, local, remote;
      ops, run := [], [Sys(Table(local, map[], [], map[]), map[])];
    }

    /** The manager is where a run over the same calls is, all made for the connections' own clients. */
    ghost predicate Logged()
      reads this, links, links.ttl, links.ttl.vals, links.words, links.ap
    {
      && Run(local, links.duration, ops, run) && run != [] && FromClients(remote, ops)
      && Now() == Sys(links.View(), links.ap.held)
    }

    /** The state the run has reached. */
    ghost function Now(): Sys
      requires run != []
      reads this`run
    {
      run[|run| - 1]
    }

    ghost predicate Valid()
      reads this, links, links.ttl, links.ttl.vals, links.words
      reads links.ap, links.ap.mgr, links.ap.mgr.os, links.ap.sets
    {
      links.Valid() && links.ap.Valid() && links.addr == local && Logged()
    }

    lemma Held()
      requires Logged()
      ensures SysInv(Now()) && links.Holds()
    {
      RunInv(local, links.duration, ops, run, |run| - 1);
    }

    ghost method Record(op: Op)
      requires Run(local, links.duration, ops, run) && run != [] && FromClients(remote, ops)
      requires SysInv(Now()) && Step(links.duration, Now(), op, Sys(links.View(), links.ap.held))
      requires op.Clean? || op.s.process.addr == remote(op.conn)
      modifies this`ops, this`run
      ensures Logged() && ops == old(ops) + [op]
    {
      hide Step, SysInv;
      ops, run := ops + [op], run + [Sys(links.View(), links.ap.held)];
    }

    /** Nothing changed but one more hit of a link that is there. */
    static ghost predicate Counted(was: Table, now: Table, up: Uplink) {
      && now.addr == was.addr && now.queue == was.queue && now.downs == was.downs
      && now.ups == if up in was.ups then was.ups[up := Cell(was.ups[up].port, was.ups[up].hits + 1)] else was.ups
    }

    /** Replies on the link go to conn, with the port the client process sent from. */
    static ghost predicate Routes(t: Table, u: Uplink, port: u16, conn: Conn) {
      var d := Downlink(u.server, u.proto, AddrPort(t.addr, port));
      d in t.downs && t.downs[d] == DownKey(conn, u.process.port)
    }

    /** Looks the uplink up, and records it unless its counter is full. */
    method Find(up: Uplink, conn: Conn) returns (r: Option<u16>)
      requires Valid() && up.process.addr == remote(conn)
      modifies this`ops, this`run, links`ups, links.words
      ensures r.Some? <==> up in old(links.View()).ups
      ensures !old(links.Saturated(up)) ==>
                && Valid() && links.View().ups.Keys == old(links.View()).ups.Keys
                && (r.Some? ==> r.value == links.View().ups[up].port == old(links.View()).ups[up].port)
                && ops == old(ops) + [Lookup(up, conn)]
                && Counted(old(links.View()), links.View(), up)
      ensures old(links.Saturated(up)) ==> r.Some? && r.value != old(links.View()).ups[up].port
    {
      hide Inv, LinkManager.Valid, Adapter.Valid, Lists, Run, Cleaned;
      Held();
      HitsFit(links.View(), up);
      TouchLinks(links.View(), up);
      r := links.FindUplink(up);
      if !old(links.Saturated(up)) {
        Record(Lookup(up, conn));
      }
    }

    /** Looks the uplink up and adds a link if there is none. */
    method FindOrAdd(up: Uplink, conn: Conn, clock: Clock, now: nat) returns (r: Result<u16, PortError>)
      requires Valid() && up.process.addr == remote(conn)
      modifies this`ops, this`run, links, links.words, links.ttl, links.ttl.vals
      modifies links.ap, links.ap.mgr, links.ap.mgr.os, links.ap.sets
      ensures !old(links.Saturated(up)) ==>
                && Valid() && (r.Ok? <==> up in links.View().ups)
                && (r.Ok? ==> links.View().ups[up].port == r.value)
                && (up in old(links.View()).ups ==>
                      r.Ok? && ops == old(ops) + [Lookup(up, conn)] && Counted(old(links.View()), links.View(), up))
                && (up !in old(links.View()).ups && r.Ok? ==> Routes(links.View(), up, r.value, conn))
                && (up !in old(links.View()).ups ==>
                      |ops| == |old(ops)| + 2 && ops[..|ops| - 1] == old(ops) + [Lookup(up, conn)]
                      && ops[|ops| - 1].Add? && ops[|ops| - 1].s == up && ops[|ops| - 1].conn == conn
                      && ops[|ops| - 1].r == r)
      ensures old(links.Saturated(up)) ==> r.Ok? && r.value != old(links.View()).ups[up].port
    {
      hide Inv, LinkManager.Valid, Adapter.Valid, LinkTable.Cleanup, DropAll, Outcome, Take, Lists, Run, SysInv,
           Counted, Routes;
      var found := Find(up, conn);
      if found.Some? {
        return Ok(found.value);
      }
      r := Open(up, conn, clock, now);
    }

    /** Adds a link for an uplink that has none. */
    method Open(up: Uplink, conn: Conn, clock: Clock, now: nat) returns (r: Result<u16, PortError>)
      requires Valid() && up.process.addr == remote(conn) && up !in links.View().ups
      modifies this`ops, this`run, links, links.words, links.ttl, links.ttl.vals
      modifies links.ap, links.ap.mgr, links.ap.mgr.os, links.ap.sets
      ensures Valid() && (r.Ok? <==> up in links.View().ups)
      ensures r.Ok? ==> links.View().ups[up].port == r.value && Routes(links.View(), up, r.value, conn)
      ensures |ops| == |old(ops)| + 1 && ops[..|ops| - 1] == old(ops)
      ensures ops[|ops| - 1].Add? && ops[|ops| - 1].s == up && ops[|ops| - 1].conn == conn && ops[|ops| - 1].r == r
    {
      hide LinkManager.Valid, Adapter.Valid, LinkTable.Cleanup, DropAll, Outcome, Take, Lists, Run, Distinct, Routed,
           Rooted;
      Held();
      ghost var was := links.View();
      InvLists(was);
      CleanupKeys(was, links.duration, clock);
      ghost var reply, removed;
      r, reply, removed := links.Add(up, conn, clock, now);
      Record(Op.Add(up, conn, reply, r, clock, now));
    }

    /** One segment from a client: find or make its link, then rewrite it for the wire. The link is the one of the
        connection's client address, the segment's own port, and the server it names; the packet leaves from
        that link's port. */
    method Serve(conn: Conn, proto: u8, peer: Addr, pkt: Packet, clock: Clock, now: nat, id: u16) returns (r: Served)
      requires Valid() && pkt.Valid() && pkt.head >= 20 && local.V4? && peer.V4?
      requires proto == TCP || proto == UDP ==> |pkt.Bytes()| >= Field(proto) + 2
      modifies this`ops, this`run, links, links.words, links.ttl, links.ttl.vals
      modifies links.ap, links.ap.mgr, links.ap.mgr.os, links.ap.sets, pkt, pkt.buf
      ensures pkt.Valid() && (r.Unsupported? <==> proto != TCP && proto != UDP)
      ensures r.Unsupported? ==> Valid() && links.View() == old(links.View()) && ops == old(ops)
      ensures !r.Sent? ==> pkt.Bytes() == old(pkt.Bytes())
      ensures !r.Unsupported? ==>
                var seg := old(pkt.Bytes());
                var up := Uplink(AddrPort(remote(conn), 256 * seg[0] as int + seg[1] as int), proto,
                                 AddrPort(peer, 256 * seg[2] as int + seg[3] as int));
                if old(links.Saturated(up)) then
                  r.Sent? && r.down.local.port != old(links.View()).ups[up].port
                else
                  && Valid() && (r.Sent? <==> up in links.View().ups)
                  && (r.Sent? ==> r.down == Downlink(up.server, proto, AddrPort(local, links.View().ups[up].port)))
                  && |ops| > |old(ops)| && ops[..|old(ops)| + 1] == old(ops) + [Lookup(up, conn)]
                  && (up in old(links.View()).ups ==>
                        |ops| == |old(ops)| + 1 && Counted(old(links.View()), links.View(), up))
                  && (up !in old(links.View()).ups && r.Sent? ==>
                        Routes(links.View(), up, r.down.local.port, conn))
                  && (up !in old(links.View()).ups ==>
                        |ops| == |old(ops)| + 2 && ops[|ops| - 1].Add? && ops[|ops| - 1].s == up
                        && ops[|ops| - 1].conn == conn && (ops[|ops| - 1].r.Ok? <==> r.Sent?))
      ensures r.Sent? ==>
                ServerInput(old(pkt.Bytes()), r.down) && pkt.Bytes() == ServerPacket(old(pkt.Bytes()), r.down, id)
    {
      hide LinkManager.Valid, Logged, Adapter.Valid, ServerPacket, LinkManager.Saturated, Counted, Routes;
      if proto != TCP && proto != UDP {
        return Unsupported;
      }
      var b := pkt.Bytes();
      var up := Uplink(AddrPort(remote(conn), Pair(b[0], b[1])), proto, AddrPort(peer, Pair(b[2], b[3])));
      var port := FindOrAdd(up, conn, clock, now);
      if port.Err? {
        return NoPort(port.error);
      }
      var down := Downlink(up.server, up.proto, AddrPort(local, port.value));
      Packets.Server(pkt, down, id);
      return Sent(down);
    }

    /** One datagram from outside: whose reply it is, and the destination port it gets. */
    method Receive(pkt: Packet) returns (r: Option<Delivery>)
      requires Valid() && pkt.Valid() && Readable(pkt.Bytes())
      modifies pkt, pkt.buf
      ensures Valid() && pkt.Valid() && ops == old(ops)
      ensures var b := old(pkt.Bytes());
              if b == [] || b[0] as int / 16 != 4 || (b[9] != 6 && b[9] != 17) then r == None
              else
                var h := 4 * (b[0] as int % 16);
                && h + 4 <= |b| && Tells(b, h, r)
                && (r.Some? ==> Readdressed(b[h..], pkt.Bytes(), links.View().downs[Told(b, h)].clientPort))
    {
      hide LinkManager.Valid, Logged, Adapter.Valid, PutWord, Addr4, Pair, Told;
      ghost var was := pkt.Bytes();
      var key := StripIP(pkt);
      if key.Err? {
        return None;
      }
      StripTells(was);
      var to := links.FindDownlink(key.value);
      if to.None? {
        return None;
      }
      assert pkt.Bytes() == was[HeaderLen(was)..];
      ghost var all := pkt.buf[..];
      PutIn(pkt.buf, pkt.head, pkt.tail, 2, to.value.clientPort);
      SpliceParts(all, pkt.head, pkt.tail, PutWord(all[pkt.head..pkt.tail], 2, to.value.clientPort));
      PutReaddresses(was[HeaderLen(was)..], to.value.clientPort);
      return Some(Delivery(to.value.conn, key.value.proto, key.value.server.addr));
    }

    /** The delivery is to the connection stored for the datagram's addresses and ports, if there is one. */
    ghost predicate Tells(b: seq<u8>, h: nat, r: Option<Delivery>)
      requires |b| >= 20 && h + 4 <= |b|
      reads links, links.ttl
    {
      if Told(b, h) in links.View().downs then
        r == Some(Delivery(links.View().downs[Told(b, h)].conn, b[9], Told(b, h).server.addr))
      else r == None
    }
  }

  /** Source and destination of a datagram whose header has h bytes, as the bytes state them. */
  function Told(b: seq<u8>, h: nat): Downlink
    requires |b| >= 20 && h + 4 <= |b|
  {
    Downlink(AddrPort(V4(Number(b[12..16])), 256 * b[h] as int + b[h + 1] as int), b[9],
             AddrPort(V4(Number(b[16..20])), 256 * b[h + 2] as int + b[h + 3] as int))
  }

  function Number(b: seq<u8>): u32
    requires |b| == 4
  {
    0x100_0000 * b[0] as int + 0x1_0000 * b[1] as int + 0x100 * b[2] as int + b[3] as int
  }

  /** What StripIP answers, by the bytes. */
  lemma StripTells(b: seq<u8>)
    requires Readable(b)
    ensures Strip(b) == Err(NotIPv4) <==> b == [] || b[0] as int / 16 != 4
    ensures Strip(b) == Err(OtherProtocol) <==> b != [] && b[0] as int / 16 == 4 && b[9] != 6 && b[9] != 17
    ensures Strip(b).Ok? ==>
              && b != [] && |b| >= 20 && HeaderLen(b) == 4 * (b[0] as int % 16) && HeaderLen(b) + 4 <= |b|
              && Strip(b).value == Told(b, HeaderLen(b))
  {
  }

  /** The segment with another destination port, and nothing else changed. */
  predicate Readdressed(seg: seq<u8>, out: seq<u8>, port: u16) {
    && |seg| == |out| >= 4 && 256 * out[2] as int + out[3] as int == port
    && forall j :: 0 <= j < |seg| && j != 2 && j != 3 ==> out[j] == seg[j]
  }

  lemma PutReaddresses(seg: seq<u8>, port: u16)
    requires |seg| >= 4
    ensures Readdressed(seg, PutWord(seg, 2, port), port)
  {
  }
}
