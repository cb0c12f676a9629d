/** `Server.serveConn` and `Server.recvService`: a segment out through a link, its reply back in. */
module NatPath {
  import opened Net
  import opened PortPool
  import opened LinkTable
  import opened LinkRuns
  import opened LinkLife
  import opened InternetSum
  import opened SplitChecksum
  import opened Packets
  import Interleaving
  import InterleavedRuns

  datatype Segment = Segment(src: u16, dst: u16)
  datatype Datagram = Datagram(proto: u8, src: AddrPort, dst: AddrPort) {
    /** What the remote server sends back. */
    function Reply(): Datagram { Datagram(proto, dst, src) }
  }

  function Forwarded(local: Addr, localPort: u16, proto: u8, peer: Addr, seg: Segment): Datagram {
    Datagram(proto, AddrPort(local, localPort), AddrPort(peer, seg.dst))
  }

  /** `links.StripIP` after its protocol check. */
  function Stripped(d: Datagram): Downlink { Downlink(d.src, d.proto, d.dst) }

  /** Which connection recvService sends a datagram to, with which destination port. */
  function Delivered(t: Table, d: Datagram): Option<DownKey> {
    if Stripped(d) in t.downs then Some(t.downs[Stripped(d)]) else None
  }

  lemma {:induction false} RunRoute(addr: Addr, ttl: nat, ops: seq<Op>, run: seq<Sys>, i: nat, j: nat, u: Uplink)
    requires Run(addr, ttl, ops, run) && i <= j < |run|
    requires forall k :: i <= k <= j ==> u in run[k].table.ups
    ensures SameRoute(run[i].table, run[j].table, u)
  {
    hide Lists, Distinct, Rooted, Step;
    RunInv(addr, ttl, ops, run, i);
    assert Routed(run[i].table, u);
    if i < j {
      RunRoute(addr, ttl, ops, run, i, j - 1, u);
      RunInv(addr, ttl, ops, run, j - 1);
      StepRoute(ttl, run[j - 1], ops[j - 1], run[j], u);
      SameRouteTransitive(run[i].table, run[j - 1].table, run[j].table, u);
    }
  }

  /** A reply to a segment forwarded through a link, at any time while the link lives, reaches the
      connection that created the link, and with the port the client process sent from. */
  lemma ReplyReachesOwner(addr: Addr, ttl: nat, ops: seq<Op>, run: seq<Sys>, i: nat, j: nat,
                          client: Addr, proto: u8, peer: Addr, seg: Segment)
    requires Run(addr, ttl, ops, run) && i < j < |run|
    requires ops[i].Add? && ops[i].r.Ok?
    requires ops[i].s == Uplink(AddrPort(client, seg.src), proto, AddrPort(peer, seg.dst))
    requires forall k :: i < k <= j ==> ops[i].s in run[k].table.ups
    ensures var p := run[j].table.ups[ops[i].s].port;
            && p == ops[i].r.value
            && Delivered(run[j].table, Forwarded(addr, p, proto, peer, seg).Reply())
               == Some(DownKey(ops[i].conn, seg.src))
  {
    var s := ops[i].s;
    RunInv(addr, ttl, ops, run, i);
    RunInv(addr, ttl, ops, run, i + 1);
    RunRoute(addr, ttl, ops, run, i + 1, j, s);
    var t := run[i + 1].table;
    assert t.ups[s].port == ops[i].r.value;
    assert t.downs[t.LinkOf(s).Down()] == DownKey(ops[i].conn, seg.src);
    assert run[j].table.LinkOf(s).Down() == Stripped(Forwarded(addr, ops[i].r.value, proto, peer, seg).Reply());
  }

  /** The same with any number of threads at work, on one shard or several: in a guarded run, from the
      moment e when the very Add that made the link stores its route. */
  lemma ReplyAmongThreads(start: Interleaving.World, moves: seq<InterleavedRuns.Move>, run: seq<Interleaving.World>,
                          m: nat, e: nat, n: nat, client: Addr, proto: u8, peer: Addr, seg: Segment)
    requires InterleavedRuns.Empty(start) && InterleavedRuns.WorldRun(start, moves, run) && m < e < n <= |moves|
    requires InterleavedRuns.GuardedTo(moves, run, n)
    requires moves[m].a.InsertUp? && moves[e] == InterleavedRuns.Move.Move(moves[m].i, Interleaving.InsertDown)
    requires run[m].pcs[moves[m].i].s == Uplink(AddrPort(client, seg.src), proto, AddrPort(peer, seg.dst))
    requires forall x :: m < x <= n ==> Uplink(AddrPort(client, seg.src), proto, AddrPort(peer, seg.dst)) in run[x].ups
    ensures var p := run[n].ups[Uplink(AddrPort(client, seg.src), proto, AddrPort(peer, seg.dst))].port;
            Delivered(run[n].Flat(), Forwarded(start.addr, p, proto, peer, seg).Reply())
            == Some(DownKey(run[m].pcs[moves[m].i].conn, seg.src))
  {
    hide InterleavedRuns.WorldRun, InterleavedRuns.GuardedTo, InterleavedRuns.Empty;
    InterleavedRuns.RouteLasts(start, moves, run, m, e, n);
  }

  /** The reply to a segment that arrived on one connection goes back to that connection if and only if
      its Add made the link: the uplink key does not hold the connection. */
  lemma ReplyToSender(addr: Addr, ttl: nat, ops: seq<Op>, run: seq<Sys>, i: nat, j: nat, m: nat)
    requires Run(addr, ttl, ops, run) && i < j < m < |run|
    requires ops[i].Add? && ops[i].r.Ok? && ops[j].Lookup? && ops[j].s == ops[i].s
    requires forall k :: i < k <= m ==> ops[i].s in run[k].table.ups
    ensures var s := ops[j].s;
            var sent := Forwarded(addr, run[j].table.ups[s].port, s.proto, s.server.addr,
                                  Segment(s.process.port, s.server.port));
            var to := Delivered(run[m].table, sent.Reply());
            to.Some? && (to.value.conn == ops[j].conn <==> ops[j].conn == ops[i].conn)
  {
    hide Step, SysInv;
    var s := ops[i].s;
    var seg := Segment(s.process.port, s.server.port);
    assert s == Uplink(AddrPort(s.process.addr, seg.src), s.proto, AddrPort(s.server.addr, seg.dst));
    ReplyReachesOwner(addr, ttl, ops, run, i, j, s.process.addr, s.proto, s.server.addr, seg);
    ReplyReachesOwner(addr, ttl, ops, run, i, m, s.process.addr, s.proto, s.server.addr, seg);
  }

  /** Every call is made for a segment of the connection's own client: the uplink names the address the
      connection comes from. */
  ghost predicate FromClients(remote: Conn -> Addr, ops: seq<Op>) {
    forall i :: 0 <= i < |ops| && (ops[i].Lookup? || ops[i].Add?) ==> ops[i].s.process.addr == remote(ops[i].conn)
  }

  /** The reply to any segment, at any time while its link lives, goes to a connection of the very client address
      the segment came from, and with the port it came from. */
  lemma ReplyToOwnClient(remote: Conn -> Addr, addr: Addr, ttl: nat, ops: seq<Op>, run: seq<Sys>, j: nat, m: nat,
                         c: Conn, client: Addr, src: u16, proto: u8, peer: Addr, dst: u16)
    requires Run(addr, ttl, ops, run) && FromClients(remote, ops) && j < m < |run| && remote(c) == client
    requires ops[j].Lookup? || (ops[j].Add? && ops[j].r.Ok?)
    requires ops[j].conn == c && ops[j].s == Uplink(AddrPort(client, src), proto, AddrPort(peer, dst))
    requires forall x :: j < x <= m ==> ops[j].s in run[x].table.ups
    ensures var key := Downlink(AddrPort(peer, dst), proto, AddrPort(addr, run[m].table.ups[ops[j].s].port));
            && key in run[m].table.downs && run[m].table.downs[key].clientPort == src
            && remote(run[m].table.downs[key].conn) == client
  {
    hide Step, SysInv;
    var u := ops[j].s;
    var i := MadeBy(addr, ttl, ops, run, u, m);
    ReplyReachesOwner(addr, ttl, ops, run, i, m, client, proto, peer, Segment(src, dst));
  }

  /** Two connections from one client address, the second using the link the first made. */
  lemma TwoConnections() returns (ops: seq<Op>, run: seq<Sys>)
    ensures |ops| == 2 && Run(V4(1), 30, ops, run)
    ensures ops[0].Add? && ops[0].r.Ok? && ops[1].Lookup? && ops[1].s == ops[0].s && ops[1].conn != ops[0].conn
    ensures var s := ops[1].s;
            s in run[1].table.ups &&
            var sent := Forwarded(V4(1), run[1].table.ups[s].port, s.proto, s.server.addr,
                                  Segment(s.process.port, s.server.port));
            Delivered(run[2].table, sent.Reply()) == Some(DownKey(ops[0].conn, s.process.port))
  {
    hide SysInv, Step, Insert, Take;
    var s := Uplink(AddrPort(V4(7), 1000), UDP, AddrPort(V4(8), 53));
    var empty := Sys(Table(V4(1), map[], [], map[]), map[]);
    var add := Add(s, 1, Bound(5000), Ok(5000), _ => 1, 1);
    var first := FirstStep(V4(1), 30, s, add);
    var second := SecondStep(30, first, s);
    ops, run := [add, Lookup(s, 2)], [empty, first, second];
    ReplyReachesOwner(V4(1), 30, ops, run, 0, 2, s.process.addr, UDP, s.server.addr, Segment(1000, 53));
    ReplyReachesOwner(V4(1), 30, ops, run, 0, 1, s.process.addr, UDP, s.server.addr, Segment(1000, 53));
  }

  lemma SecondStep(ttl: nat, sys: Sys, s: Uplink) returns (after: Sys)
    requires SysInv(sys) && s in sys.table.ups && sys.table.ups[s].hits == 0
    ensures Step(ttl, sys, Lookup(s, 2), after) && s in after.table.ups
  {
    after := sys.(table := Touch(sys.table, s));
  }

  /** The same at the level of bytes. A packet b of the client process goes through Client and Server;
      any answer the remote sends back strips to a key that leads to the connection that created the
      link and to the port b came from. */
  lemma AnswerReachesOwner(addr: Addr, ttl: nat, ops: seq<Op>, run: seq<Sys>, i: nat, j: nat,
                           client: Addr, b: seq<u8>, id: u16, r: seq<u8>)
    requires Run(addr, ttl, ops, run) && i < j < |run| && addr.V4? && ClientInput(b)
    requires ops[i].Add? && ops[i].r.Ok?
    requires ops[i].s.process == AddrPort(client, Word(Payload(b), 0)) && ops[i].s.proto == b[9]
    requires ops[i].s.server == AddrPort(Addr4(b[16..20]), Word(Payload(b), 2))
    requires forall k :: i < k <= j ==> ops[i].s in run[k].table.ups
    requires var down := Downlink(ops[i].s.server, b[9], AddrPort(addr, ops[i].r.value));
             ServerInput(ClientPacket(b), down) && AnswerTo(r, ServerPacket(ClientPacket(b), down, id))
    ensures Strip(r).Ok? && Strip(r).value in run[j].table.downs
    ensures run[j].table.downs[Strip(r).value] == DownKey(ops[i].conn, Word(Payload(b), 0))
  {
    hide Step, SysInv, Addr4, Pair, ServerPacket, ClientPacket, AnswerTo, Checksum;
    var seg := Segment(Word(Payload(b), 0), Word(Payload(b), 2));
    var down := Downlink(ops[i].s.server, b[9], AddrPort(addr, ops[i].r.value));
    ClientKeepsPorts(b);
    AnswerFindsLink(ClientPacket(b), down, id, r);
    ReplyReachesOwner(addr, ttl, ops, run, i, j, client, b[9], Addr4(b[16..20]), seg);
  }

  /** Nothing else is delivered: a datagram accepted from outside answers exactly one live link. */
  lemma DeliveredAnswersLink(sys: Sys, d: Datagram) returns (u: Uplink)
    requires SysInv(sys) && Delivered(sys.table, d).Some?
    ensures u in sys.table.ups && sys.table.LinkOf(u).Down() == Stripped(d)
    ensures u.process.port == Delivered(sys.table, d).value.clientPort
    ensures Has(sys.held, Triple(d.proto, d.dst.port, d.src))
    ensures forall v :: v in sys.table.ups && sys.table.LinkOf(v).Down() == Stripped(d) ==> v == u
  {
    assert Rooted(sys.table, Stripped(d));
    u :| u in sys.table.ups && sys.table.LinkOf(u).Down() == Stripped(d);
    assert Routed(sys.table, u);
    assert sys.table.LinkOf(u).Triple() in Owned(sys.table);
    assert sys.table.LinkOf(u).Triple() == Triple(d.proto, d.dst.port, d.src);
    forall v | v in sys.table.ups && sys.table.LinkOf(v).Down() == Stripped(d) ensures v == u {
      SameKeys(sys.table.LinkOf(v), sys.table.LinkOf(u));
    }
  }
}
