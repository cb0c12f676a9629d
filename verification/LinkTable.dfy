/** The state of `maps.linkManager` as a value, one function per locked section. */
module LinkTable {
  import opened Net
  import opened PortPool
  import PortWord

  datatype Uplink = Uplink(process: AddrPort, proto: u8, server: AddrPort)
  datatype Downlink = Downlink(server: AddrPort, proto: u8, local: AddrPort)
  datatype Link = Link(up: Uplink, local: AddrPort) {
    function Down(): Downlink { Downlink(up.server, up.proto, local) }
    function Triple(): Triple { PortPool.Triple.Triple(up.proto, local.port, up.server) }
  }

  type Conn = nat  // the identity of a client connection
  datatype DownKey = DownKey(conn: Conn, clientPort: u16)
  datatype Cell = Cell(port: u16, hits: nat)

  /** Time 0 is Go's zero `time.Time`. */
  datatype TtlKey = TtlKey(up: Uplink, start: nat) {
    predicate Valid() { up.process.IsValid() && up.server.IsValid() && start != 0 }
    predicate Expired(now: nat, ttl: nat) { Valid() && now - start > ttl }
  }

  /** The k-th reading of the clock within one pass; each iteration makes at most two. */
  type Clock = nat -> nat

  type Ups = map<Uplink, Cell>

  datatype Table = Table(addr: Addr, ups: Ups, queue: seq<TtlKey>, downs: map<Downlink, DownKey>) {
    function LinkOf(u: Uplink): Link
      requires u in ups
    {
      Link(u, AddrPort(addr, ups[u].port))
    }
  }

  // The queue lists every live uplink exactly once

  function UpsOf(s: seq<TtlKey>): (r: seq<Uplink>)
    ensures |r| == |s|
    ensures forall i :: 0 <= i < |s| ==> r[i] == s[i].up
  {
    seq(|s|, i requires 0 <= i < |s| => s[i].up)
  }

  ghost predicate Lists(s: seq<TtlKey>, ups: Ups) {
    multiset(UpsOf(s)) == multiset(ups.Keys)
  }

  lemma UpsOfConcat(a: seq<TtlKey>, b: seq<TtlKey>)
    ensures UpsOf(a + b) == UpsOf(a) + UpsOf(b)
  {
  }

  lemma ListsHead(e: TtlKey, s: seq<TtlKey>, ups: Ups)
    requires Lists([e] + s, ups)
    ensures e.up in ups && multiset(UpsOf(s)) == multiset(ups.Keys) - multiset{e.up}
  {
    UpsOfConcat([e], s);
    assert UpsOf([e]) == [e.up];
    assert e.up in multiset(ups.Keys);
  }

  lemma ListsDrop(e: TtlKey, s: seq<TtlKey>, ups: Ups)
    requires Lists([e] + s, ups)
    ensures e.up in ups && Lists(s, ups - {e.up})
  {
    ListsHead(e, s, ups);
    assert multiset((ups - {e.up}).Keys) == multiset(ups.Keys) - multiset{e.up};
  }

  lemma ListsRotate(e: TtlKey, s: seq<TtlKey>, ups: Ups, c: Cell, now: nat)
    requires Lists([e] + s, ups)
    ensures e.up in ups && Lists(s + [TtlKey(e.up, now)], ups[e.up := c]) && Lists(s + [TtlKey(e.up, now)], ups)
  {
    ListsHead(e, s, ups);
    UpsOfConcat(s, [TtlKey(e.up, now)]);
    assert UpsOf([TtlKey(e.up, now)]) == [e.up];
    assert ups[e.up := c].Keys == ups.Keys;
  }

  // Cleanup

  datatype Swept = Swept(ups: Ups, links: seq<Link>, queue: seq<TtlKey>)

  /** The uplink-locked loop of Cleanup. Iteration i pops `queue[i]`; the loop bound is the current
      queue size, which every removal lowers while i grows. */
  function Sweep(addr: Addr, ttl: nat, clock: Clock, queue: seq<TtlKey>,
                 ups: Ups, i: nat, links: seq<Link>, back: seq<TtlKey>): Swept
    requires i <= |queue| && Lists(queue[i..] + back, ups)
    decreases |queue| - i
  {
    if i + |links| >= |queue| then Swept(ups, links, queue[i..] + back)
    else
      var e := queue[i];
      var again := back + [TtlKey(e.up, clock(2 * i + 1))];
      SweepStep(clock, queue, ups, i, back);
      if !e.Expired(clock(2 * i), ttl) then
        Swept(ups, links, queue[i + 1..] + again)
      else if ups[e.up].hits == 0 then
        Sweep(addr, ttl, clock, queue, ups - {e.up}, i + 1,
              links + [Link(e.up, AddrPort(addr, ups[e.up].port))], back)
      else
        Sweep(addr, ttl, clock, queue, ups[e.up := ups[e.up].(hits := 0)], i + 1, links, again)
  }

  lemma SweepStep(clock: Clock, queue: seq<TtlKey>, ups: Ups, i: nat, back: seq<TtlKey>)
    requires i < |queue| && Lists(queue[i..] + back, ups)
    ensures var e := queue[i];
            var again := back + [TtlKey(e.up, clock(2 * i + 1))];
            && e.up in ups
            && Lists(queue[i + 1..] + back, ups - {e.up})
            && Lists(queue[i + 1..] + again, ups)
            && Lists(queue[i + 1..] + again, ups[e.up := ups[e.up].(hits := 0)])
  {
    var e := queue[i];
    var again := back + [TtlKey(e.up, clock(2 * i + 1))];
    var s := queue[i + 1..] + back;
    assert queue[i..] + back == [e] + s;
    assert queue[i + 1..] + again == s + [TtlKey(e.up, clock(2 * i + 1))];
    ListsDrop(e, s, ups);
    ListsRotate(e, s, ups, ups[e.up].(hits := 0), clock(2 * i + 1));
  }

  function DownSet(links: seq<Link>): set<Downlink> { set l | l in links :: l.Down() }
  function TripleSet(links: seq<Link>): set<Triple> { set l | l in links :: l.Triple() }

  /** Links that reserve different triples. */
  ghost predicate Apart(ls: seq<Link>) {
    forall a, b :: 0 <= a < b < |ls| ==> ls[a].Triple() != ls[b].Triple()
  }

  function Cleanup(t: Table, ttl: nat, clock: Clock): (Table, seq<Link>)
    requires Lists(t.queue, t.ups)
  {
    assert t.queue[0..] + [] == t.queue;
    var s := Sweep(t.addr, ttl, clock, t.queue, t.ups, 0, [], []);
    (Table(t.addr, s.ups, s.queue, t.downs - DownSet(s.links)), s.links)
  }

  /** The two locked sections of Add, after a port was reserved. */
  function Insert(t: Table, s: Uplink, port: u16, conn: Conn, now: nat): Table {
    t.(ups := t.ups[s := Cell(port, 0)],
       queue := t.queue + [TtlKey(s, now)],
       downs := t.downs[Link(s, AddrPort(t.addr, port)).Down() := DownKey(conn, s.process.port)])
  }

  /** One Uplink lookup. */
  function Touch(t: Table, s: Uplink): Table {
    if s in t.ups then t.(ups := t.ups[s := t.ups[s].(hits := t.ups[s].hits + 1)]) else t
  }

  // Invariants

  ghost predicate Distinct(addr: Addr, ups: Ups) {
    forall u, v :: u in ups && v in ups && u != v ==>
      Link(u, AddrPort(addr, ups[u].port)).Triple() != Link(v, AddrPort(addr, ups[v].port)).Triple()
  }

  /** uplinkMap and downlinkMap describe the same links, one to one, and the queue lists them. */
  ghost predicate Inv(t: Table) {
    && Lists(t.queue, t.ups)
    && Distinct(t.addr, t.ups)
    && (forall u :: u in t.ups ==> Routed(t, u))
    && (forall d :: d in t.downs ==> Rooted(t, d))
  }

  /** An uplink's reply comes back through downlinkMap to the process port it left from. */
  ghost predicate Routed(t: Table, u: Uplink)
    requires u in t.ups
  {
    && t.LinkOf(u).Down() in t.downs
    && t.downs[t.LinkOf(u).Down()].clientPort == u.process.port
    && t.ups[u].port != 0 && t.ups[u].hits < PortWord.LOW
  }

  ghost predicate Rooted(t: Table, d: Downlink) {
    exists u :: u in t.ups && t.LinkOf(u).Down() == d
  }

  lemma InvLists(t: Table)
    requires Inv(t)
    ensures Lists(t.queue, t.ups)
  {
  }

  ghost function Owned(t: Table): set<Triple> {
    set u | u in t.ups :: t.LinkOf(u).Triple()
  }

  ghost predicate PoppedExpired(ttl: nat, clock: Clock, queue: seq<TtlKey>, i: nat, u: Uplink) {
    exists j :: i <= j < |queue| && queue[j].up == u && queue[j].Expired(clock(2 * j), ttl)
  }

  /** What a sweep does to the links: those removed were idle and past their time when popped, each
      was popped once, and every other link keeps its port and at most loses its hits. */
  ghost predicate SweepOf(addr: Addr, ttl: nat, clock: Clock, queue: seq<TtlKey>, i: nat,
                          ups: Ups, after: Ups, gone: seq<Link>) {
    && (forall l :: l in gone ==> Removed(addr, ups, after, l) && PoppedExpired(ttl, clock, queue, i, l.up))
    && (forall u :: u in after ==> u in ups && Kept(ups[u], after[u]))
    && (forall u :: u in ups && u !in after ==> Link(u, AddrPort(addr, ups[u].port)) in gone)
    && (forall a, b :: 0 <= a < b < |gone| ==> gone[a].up != gone[b].up)
  }

  ghost predicate Removed(addr: Addr, ups: Ups, after: Ups, l: Link) {
    l.up in ups && l.up !in after && ups[l.up].hits == 0 && l.local == AddrPort(addr, ups[l.up].port)
  }

  ghost predicate Kept(before: Cell, after: Cell) {
    after.port == before.port && (after.hits == before.hits || after.hits == 0)
  }

  lemma SweepOfDrop(addr: Addr, ttl: nat, clock: Clock, queue: seq<TtlKey>, i: nat,
                    ups: Ups, after: Ups, rest: seq<Link>)
    requires i < |queue| && queue[i].up in ups && ups[queue[i].up].hits == 0
    requires queue[i].Expired(clock(2 * i), ttl)
    requires SweepOf(addr, ttl, clock, queue, i + 1, ups - {queue[i].up}, after, rest)
    ensures SweepOf(addr, ttl, clock, queue, i, ups, after,
                    [Link(queue[i].up, AddrPort(addr, ups[queue[i].up].port))] + rest)
  {
    var l := Link(queue[i].up, AddrPort(addr, ups[queue[i].up].port));
    forall m | m in [l] + rest
      ensures Removed(addr, ups, after, m) && PoppedExpired(ttl, clock, queue, i, m.up)
    {
      if m != l {
        assert Removed(addr, ups - {queue[i].up}, after, m) && PoppedExpired(ttl, clock, queue, i + 1, m.up);
      }
    }
  }

  lemma SweepOfKeep(addr: Addr, ttl: nat, clock: Clock, queue: seq<TtlKey>, i: nat,
                    ups: Ups, after: Ups, gone: seq<Link>)
    requires i < |queue| && queue[i].up in ups && ups[queue[i].up].hits != 0
    requires SweepOf(addr, ttl, clock, queue, i + 1, ups[queue[i].up := ups[queue[i].up].(hits := 0)], after, gone)
    requires forall l :: l in gone ==> l.up != queue[i].up
    ensures SweepOf(addr, ttl, clock, queue, i, ups, after, gone)
  {
    forall l | l in gone
      ensures Removed(addr, ups, after, l) && PoppedExpired(ttl, clock, queue, i, l.up)
    {
      assert PoppedExpired(ttl, clock, queue, i + 1, l.up);
    }
  }

  lemma ListsOnce(a: seq<TtlKey>, b: seq<TtlKey>, ups: Ups, i: nat, j: nat)
    requires Lists(a + b, ups) && i < |a| && j < |b|
    ensures a[i].up != b[j].up
  {
    UpsOfConcat(a, b);
    assert multiset(UpsOf(a + b)) == multiset(UpsOf(a)) + multiset(UpsOf(b));
    assert UpsOf(a)[i] in multiset(UpsOf(a)) && UpsOf(b)[j] in multiset(UpsOf(b));
    assert multiset(ups.Keys)[a[i].up] <= 1;
  }

  /** An entry put back by this pass is not popped again by it. */
  lemma NotAgain(addr: Addr, ttl: nat, clock: Clock, queue: seq<TtlKey>, i: nat, e: TtlKey,
                 ups: Ups, back: seq<TtlKey>, after: Ups, gone: seq<Link>)
    requires i <= |queue| && Lists(queue[i..] + (back + [e]), ups)
    requires SweepOf(addr, ttl, clock, queue, i, ups, after, gone)
    ensures forall l :: l in gone ==> l.up != e.up
  {
    forall l | l in gone ensures l.up != e.up {
      assert PoppedExpired(ttl, clock, queue, i, l.up);
      var j :| i <= j < |queue| && queue[j].up == l.up;
      ListsOnce(queue[i..], back + [e], ups, j - i, |back|);
    }
  }

  lemma SweepOfNone(addr: Addr, ttl: nat, clock: Clock, queue: seq<TtlKey>, i: nat, ups: Ups)
    ensures SweepOf(addr, ttl, clock, queue, i, ups, ups, [])
  {
  }

  lemma {:induction false} SweepRemoves(addr: Addr, ttl: nat, clock: Clock, queue: seq<TtlKey>,
                                        ups: Ups, i: nat, links: seq<Link>, back: seq<TtlKey>)
    returns (gone: seq<Link>)
    requires i <= |queue| && Lists(queue[i..] + back, ups)
    ensures var r := Sweep(addr, ttl, clock, queue, ups, i, links, back);
            && r.links == links + gone && Lists(r.queue, r.ups)
            && SweepOf(addr, ttl, clock, queue, i, ups, r.ups, gone)
    ensures gone == [] || i + |links| + 2 * |gone| <= |queue| + 1
    decreases |queue| - i
  {
    hide SweepOf, Lists;
    gone := [];
    SweepOfNone(addr, ttl, clock, queue, i, ups);
    if i + |links| < |queue| {
      var e := queue[i];
      var again := back + [TtlKey(e.up, clock(2 * i + 1))];
      SweepStep(clock, queue, ups, i, back);
      if e.Expired(clock(2 * i), ttl) {
        var after := Sweep(addr, ttl, clock, queue, ups, i, links, back).ups;
        if ups[e.up].hits == 0 {
          var l := Link(e.up, AddrPort(addr, ups[e.up].port));
          var rest := SweepRemoves(addr, ttl, clock, queue, ups - {e.up}, i + 1, links + [l], back);
          gone := [l] + rest;
          assert links + [l] + rest == links + gone;
          SweepOfDrop(addr, ttl, clock, queue, i, ups, after, rest);
        } else {
          var cleared := ups[e.up := ups[e.up].(hits := 0)];
          gone := SweepRemoves(addr, ttl, clock, queue, cleared, i + 1, links, again);
          NotAgain(addr, ttl, clock, queue, i + 1, TtlKey(e.up, clock(2 * i + 1)), cleared, back, after, gone);
          SweepOfKeep(addr, ttl, clock, queue, i, ups, after, gone);
        }
      }
    }
  }

  // What each operation keeps

  lemma SameKeys(a: Link, b: Link)
    requires a.local.addr == b.local.addr
    ensures a.Down() == b.Down() <==> a.Triple() == b.Triple()
  {
  }

  /** Cleanup keeps the invariant and releases exactly the links it returns. */
  lemma CleanupInv(t: Table, ttl: nat, clock: Clock)
    requires Inv(t)
    ensures var (after, links) := Cleanup(t, ttl, clock);
            && Inv(after) && after.addr == t.addr
            && SweepOf(t.addr, ttl, clock, t.queue, 0, t.ups, after.ups, links)
            && after.downs == t.downs - DownSet(links)
            && 2 * |links| <= |t.queue| + 1
  {
    assert t.queue[0..] + [] == t.queue;
    var gone := SweepRemoves(t.addr, ttl, clock, t.queue, t.ups, 0, [], []);
    var (after, links) := Cleanup(t, ttl, clock);
    assert [] + gone == gone;
    CleanupRoutes(t, after, links, ttl, clock);
  }

  lemma CleanupKept(t: Table, ttl: nat, clock: Clock, u: Uplink)
    requires Inv(t) && u in Cleanup(t, ttl, clock).0.ups
    ensures u in t.ups && Kept(t.ups[u], Cleanup(t, ttl, clock).0.ups[u])
  {
    CleanupInv(t, ttl, clock);
    hide Inv, Cleanup, PoppedExpired, Removed;
  }

  lemma CleanupKeys(t: Table, ttl: nat, clock: Clock)
    requires Inv(t)
    ensures Lists(t.queue, t.ups) && Cleanup(t, ttl, clock).0.ups.Keys <= t.ups.Keys
  {
    forall u | u in Cleanup(t, ttl, clock).0.ups ensures u in t.ups {
      CleanupKept(t, ttl, clock, u);
    }
  }

  lemma CleanupDistinct(t: Table, after: Table, links: seq<Link>, ttl: nat, clock: Clock)
    requires Distinct(t.addr, t.ups) && after.addr == t.addr
    requires SweepOf(t.addr, ttl, clock, t.queue, 0, t.ups, after.ups, links)
    ensures Distinct(after.addr, after.ups)
    ensures forall u :: u in after.ups ==> u in t.ups && after.LinkOf(u) == t.LinkOf(u)
  {
    hide PoppedExpired, Removed;
    forall u | u in after.ups ensures u in t.ups && after.LinkOf(u) == t.LinkOf(u) {
      assert Kept(t.ups[u], after.ups[u]);
    }
    forall u, v | u in after.ups && v in after.ups && u != v
      ensures after.LinkOf(u).Triple() != after.LinkOf(v).Triple()
    {
      assert t.LinkOf(u).Triple() != t.LinkOf(v).Triple();
    }
  }

  lemma CleanupRoutes(t: Table, after: Table, links: seq<Link>, ttl: nat, clock: Clock)
    requires Inv(t) && after.addr == t.addr && Lists(after.queue, after.ups)
    requires SweepOf(t.addr, ttl, clock, t.queue, 0, t.ups, after.ups, links)
    requires after.downs == t.downs - DownSet(links)
    ensures Inv(after)
  {
    hide Lists, PoppedExpired, Distinct;
    CleanupDistinct(t, after, links, ttl, clock);
    forall u | u in after.ups ensures Routed(after, u) {
      assert Kept(t.ups[u], after.ups[u]) && Routed(t, u);
      CleanupSpares(t, after, links, ttl, clock, u);
    }
    forall u | u in t.ups && u !in after.ups ensures t.LinkOf(u).Down() in DownSet(links) {
      assert t.LinkOf(u) in links;
    }
    forall d | d in after.downs ensures Rooted(after, d) {
      assert Rooted(t, d);
      var u :| u in t.ups && t.LinkOf(u).Down() == d;
      assert u in after.ups && after.LinkOf(u).Down() == d;
    }
  }

  /** A kept link's downlink is not among those removed. */
  lemma CleanupSpares(t: Table, after: Table, links: seq<Link>, ttl: nat, clock: Clock, u: Uplink)
    requires Distinct(t.addr, t.ups) && u in t.ups && u in after.ups
    requires SweepOf(t.addr, ttl, clock, t.queue, 0, t.ups, after.ups, links)
    ensures t.LinkOf(u).Down() !in DownSet(links)
  {
    hide PoppedExpired;
    forall l | l in links ensures l.Down() != t.LinkOf(u).Down() {
      assert Removed(t.addr, t.ups, after.ups, l) && l == t.LinkOf(l.up);
      SameKeys(l, t.LinkOf(u));
    }
  }

  /** The reservations Cleanup gives up are those of the links it returns, each once. */
  lemma CleanupOwned(t: Table, ttl: nat, clock: Clock)
    requires Inv(t)
    ensures var (after, links) := Cleanup(t, ttl, clock);
            && TripleSet(links) <= Owned(t)
            && Owned(after) == Owned(t) - TripleSet(links)
            && Apart(links)
  {
    CleanupInv(t, ttl, clock);
    var (after, links) := Cleanup(t, ttl, clock);
    SweepOwned(t, after, links, ttl, clock);
  }

  lemma SweepOwned(t: Table, after: Table, links: seq<Link>, ttl: nat, clock: Clock)
    requires after.addr == t.addr && Distinct(t.addr, t.ups)
    requires SweepOf(t.addr, ttl, clock, t.queue, 0, t.ups, after.ups, links)
    ensures TripleSet(links) <= Owned(t)
    ensures Owned(after) == Owned(t) - TripleSet(links)
    ensures Apart(links)
  {
    hide PoppedExpired;
    forall l | l in links ensures l.up in t.ups && l.up !in after.ups && l == t.LinkOf(l.up) {
      assert Removed(t.addr, t.ups, after.ups, l);
    }
    forall u | u in after.ups ensures u in t.ups && after.LinkOf(u) == t.LinkOf(u) {
      assert Kept(t.ups[u], after.ups[u]);
    }
    forall r | r in Owned(after) ensures r in Owned(t) && r !in TripleSet(links) {
      var u :| u in after.ups && after.LinkOf(u).Triple() == r;
      assert forall l :: l in links ==> t.LinkOf(l.up).Triple() != t.LinkOf(u).Triple();
    }
    forall u | u in t.ups && u !in after.ups ensures t.LinkOf(u).Triple() in TripleSet(links) {
      assert t.LinkOf(u) in links;
    }
    forall r | r in Owned(t) && r !in TripleSet(links) ensures r in Owned(after) {
      var u :| u in t.ups && t.LinkOf(u).Triple() == r;
      assert after.LinkOf(u).Triple() == r;
    }
  }

  /** The link a new uplink makes is the table's link for it, and differs from every other. */
  lemma InsertLinks(t: Table, s: Uplink, port: u16, conn: Conn, now: nat)
    requires s !in t.ups && Link(s, AddrPort(t.addr, port)).Triple() !in Owned(t)
    ensures var after := Insert(t, s, port, conn, now);
            var l := Link(s, AddrPort(t.addr, port));
            && after.LinkOf(s) == l
            && forall u :: u in t.ups ==>
                 after.LinkOf(u) == t.LinkOf(u) && t.LinkOf(u).Triple() != l.Triple() && t.LinkOf(u).Down() != l.Down()
  {
    var l := Link(s, AddrPort(t.addr, port));
    forall u | u in t.ups ensures t.LinkOf(u).Triple() != l.Triple() && t.LinkOf(u).Down() != l.Down() {
      assert t.LinkOf(u).Triple() in Owned(t);
      SameKeys(t.LinkOf(u), l);
    }
  }

  lemma InsertDistinct(t: Table, s: Uplink, port: u16, conn: Conn, now: nat)
    requires Distinct(t.addr, t.ups) && s !in t.ups && Link(s, AddrPort(t.addr, port)).Triple() !in Owned(t)
    ensures Distinct(t.addr, Insert(t, s, port, conn, now).ups)
  {
    hide Owned;
    InsertLinks(t, s, port, conn, now);
    var after := Insert(t, s, port, conn, now);
    forall u, v | u in after.ups && v in after.ups && u != v
      ensures after.LinkOf(u).Triple() != after.LinkOf(v).Triple()
    {
      assert u in t.ups && v in t.ups ==> t.LinkOf(u).Triple() != t.LinkOf(v).Triple();
    }
  }

  /** Adding an absent uplink on a triple nobody owns keeps the invariant. */
  lemma InsertInv(t: Table, s: Uplink, port: u16, conn: Conn, now: nat)
    requires Inv(t) && s !in t.ups && port != 0
    requires Link(s, AddrPort(t.addr, port)).Triple() !in Owned(t)
    ensures Inv(Insert(t, s, port, conn, now))
  {
    hide Lists, Owned, Distinct;
    var after := Insert(t, s, port, conn, now);
    var l := Link(s, AddrPort(t.addr, port));
    InsertLists(t, s, Cell(port, 0), now);
    InsertLinks(t, s, port, conn, now);
    InsertDistinct(t, s, port, conn, now);
    forall u | u in after.ups ensures Routed(after, u) {
      assert u != s ==> Routed(t, u);
    }
    forall d | d in after.downs ensures Rooted(after, d) {
      if d == l.Down() {
        assert after.LinkOf(s).Down() == d;
      } else {
        assert Rooted(t, d);
        var u :| u in t.ups && t.LinkOf(u).Down() == d;
        assert after.LinkOf(u).Down() == d;
      }
    }
  }

  lemma InsertOwned(t: Table, s: Uplink, port: u16, conn: Conn, now: nat)
    requires s !in t.ups && Link(s, AddrPort(t.addr, port)).Triple() !in Owned(t)
    ensures Owned(Insert(t, s, port, conn, now)) == Owned(t) + {Link(s, AddrPort(t.addr, port)).Triple()}
  {
    InsertLinks(t, s, port, conn, now);
    var after := Insert(t, s, port, conn, now);
    assert forall u :: u in after.ups <==> u in t.ups || u == s;
  }

  lemma InsertLists(t: Table, s: Uplink, c: Cell, now: nat)
    requires Lists(t.queue, t.ups) && s !in t.ups
    ensures Lists(t.queue + [TtlKey(s, now)], t.ups[s := c])
  {
    UpsOfConcat(t.queue, [TtlKey(s, now)]);
    assert UpsOf([TtlKey(s, now)]) == [s];
    assert multiset(t.ups[s := c].Keys) == multiset(t.ups.Keys) + multiset{s};
  }

  lemma HitsFit(t: Table, s: Uplink)
    requires Inv(t)
    ensures s in t.ups ==> t.ups[s].hits < PortWord.LOW
  {
    assert s in t.ups ==> Routed(t, s);
  }

  lemma TouchLinks(t: Table, s: Uplink)
    ensures Touch(t, s).ups.Keys == t.ups.Keys
    ensures forall u :: u in t.ups ==> Touch(t, s).LinkOf(u) == t.LinkOf(u)
    ensures Owned(Touch(t, s)) == Owned(t)
    ensures Distinct(t.addr, t.ups) ==> Distinct(t.addr, Touch(t, s).ups)
  {
  }

  lemma TouchInv(t: Table, s: Uplink)
    requires Inv(t) && (s in t.ups ==> t.ups[s].hits + 1 < PortWord.LOW)
    ensures Inv(Touch(t, s))
  {
    hide Lists, Distinct, Owned;
    TouchLinks(t, s);
    TouchLists(t, s);
    var after := Touch(t, s);
    forall u | u in after.ups ensures Routed(after, u) {
      assert Routed(t, u);
    }
    forall d | d in after.downs ensures Rooted(after, d) {
      assert Rooted(t, d);
      var u :| u in t.ups && t.LinkOf(u).Down() == d;
      assert after.LinkOf(u).Down() == d;
    }
  }

  lemma TouchLists(t: Table, s: Uplink)
    requires Lists(t.queue, t.ups)
    ensures Lists(t.queue, Touch(t, s).ups)
  {
    assert Touch(t, s).ups.Keys == t.ups.Keys;
  }

  // Expiry

  ghost predicate SortedQueue(s: seq<TtlKey>) {
    forall i, j :: 0 <= i < j < |s| ==> s[i].start <= s[j].start
  }

  ghost predicate Monotone(clock: Clock) {
    forall i, j :: i <= j ==> clock(i) <= clock(j)
  }

  lemma SortedStep(clock: Clock, queue: seq<TtlKey>, i: nat, back: seq<TtlKey>)
    requires i < |queue| && Monotone(clock) && SortedQueue(queue[i..] + back)
    requires forall e :: e in queue[i..] + back ==> e.start <= clock(2 * i)
    ensures var again := back + [TtlKey(queue[i].up, clock(2 * i + 1))];
            && SortedQueue(queue[i + 1..] + back) && SortedQueue(queue[i + 1..] + again)
            && (forall e :: e in queue[i + 1..] + back ==> queue[i].start <= e.start <= clock(2 * i))
            && (forall e :: e in queue[i + 1..] + again ==> queue[i].start <= e.start <= clock(2 * i + 1))
  {
    var again := back + [TtlKey(queue[i].up, clock(2 * i + 1))];
    var s := queue[i..] + back;
    assert s == [queue[i]] + (queue[i + 1..] + back);
    assert s[1..] == queue[i + 1..] + back;
    assert s[1..] + [TtlKey(queue[i].up, clock(2 * i + 1))] == queue[i + 1..] + again;
    forall e | e in s[1..] ensures queue[i].start <= e.start <= clock(2 * i) {
      assert e in s;
      var j :| 0 <= j < |s[1..]| && s[1..][j] == e;
      assert s[0].start <= s[j + 1].start;
    }
    assert queue[i].start <= clock(2 * i) <= clock(2 * i + 1);
  }

  /** With a clock that never goes back, a pass over a queue sorted by stamp leaves it sorted. */
  lemma {:induction false} SweepSorted(addr: Addr, ttl: nat, clock: Clock, queue: seq<TtlKey>,
                                       ups: Ups, i: nat, links: seq<Link>, back: seq<TtlKey>, hi: nat)
    requires i <= |queue| && Lists(queue[i..] + back, ups)
    requires Monotone(clock) && SortedQueue(queue[i..] + back) && forall j :: clock(j) <= hi
    requires forall e :: e in queue[i..] + back ==> e.start <= clock(2 * i)
    ensures var r := Sweep(addr, ttl, clock, queue, ups, i, links, back);
            SortedQueue(r.queue) && forall e :: e in r.queue ==> e.start <= hi
    decreases |queue| - i
  {
    hide Lists, SortedQueue;
    assert clock(2 * i) <= hi;
    if i + |links| < |queue| {
      var e := queue[i];
      var again := back + [TtlKey(e.up, clock(2 * i + 1))];
      SweepStep(clock, queue, ups, i, back);
      SortedStep(clock, queue, i, back);
      assert clock(2 * i) <= clock(2 * i + 1) <= clock(2 * (i + 1)) && clock(2 * i + 1) <= hi;
      if e.Expired(clock(2 * i), ttl) {
        if ups[e.up].hits == 0 {
          SweepSorted(addr, ttl, clock, queue, ups - {e.up}, i + 1,
                      links + [Link(e.up, AddrPort(addr, ups[e.up].port))], back, hi);
        } else {
          SweepSorted(addr, ttl, clock, queue, ups[e.up := ups[e.up].(hits := 0)], i + 1, links, again, hi);
        }
      }
    }
  }

  // Which links a pass removes

  predicate IdleAt(queue: seq<TtlKey>, ups: Ups, j: nat)
    requires j < |queue|
  {
    queue[j].up in ups && ups[queue[j].up].hits == 0
  }

  /** How many entries from i up to k are idle. */
  function IdleCount(queue: seq<TtlKey>, ups: Ups, i: nat, k: nat): nat
    requires i <= k <= |queue|
    decreases k - i
  {
    if i == k then 0 else (if IdleAt(queue, ups, i) then 1 else 0) + IdleCount(queue, ups, i + 1, k)
  }

  /** Every entry from i up to and including k is past its time when popped. */
  ghost predicate ExpiredThrough(ttl: nat, clock: Clock, queue: seq<TtlKey>, i: nat, k: nat)
    requires k < |queue|
  {
    forall j :: i <= j <= k ==> queue[j].Expired(clock(2 * j), ttl)
  }

  lemma {:induction false} IdleCountSame(queue: seq<TtlKey>, ups: Ups, vps: Ups, i: nat, k: nat)
    requires i <= k <= |queue|
    requires forall j :: i <= j < k ==> IdleAt(queue, ups, j) == IdleAt(queue, vps, j)
    ensures IdleCount(queue, ups, i, k) == IdleCount(queue, vps, i, k)
    decreases k - i
  {
    if i < k {
      IdleCountSame(queue, ups, vps, i + 1, k);
    }
  }

  /** Entries are of different uplinks, so what happens to one leaves the idleness of the others alone. */
  lemma OthersSame(queue: seq<TtlKey>, back: seq<TtlKey>, ups: Ups, i: nat, c: Cell)
    requires i < |queue| && Lists(queue[i..] + back, ups) && queue[i].up in ups
    ensures forall j :: i < j < |queue| ==> IdleAt(queue, ups, j) == IdleAt(queue, ups[queue[i].up := c], j)
    ensures forall j :: i < j < |queue| ==> IdleAt(queue, ups, j) == IdleAt(queue, ups - {queue[i].up}, j)
  {
    forall j | i < j < |queue| ensures queue[j].up != queue[i].up && queue[j].up in ups {
      assert queue[i..] + back == [queue[i]] + (queue[i + 1..] + back);
      ListsOnce([queue[i]], queue[i + 1..] + back, ups, 0, j - i - 1);
      ListsMember(queue[i..] + back, ups, j - i);
    }
  }

  lemma ListsMember(s: seq<TtlKey>, ups: Ups, i: nat)
    requires Lists(s, ups) && i < |s|
    ensures s[i].up in ups
  {
    assert UpsOf(s)[i] in multiset(ups.Keys);
  }

  /** The entries a pass removes, exactly: entry k's link goes if and only if it is idle, it and all
      entries before it are past their time when popped, and its position and the number of idle entries
      before it add up to less than the length of the queue. */
  lemma {:induction false} SweepExact(addr: Addr, ttl: nat, clock: Clock, queue: seq<TtlKey>,
                                      ups: Ups, i: nat, links: seq<Link>, back: seq<TtlKey>, k: nat)
    requires i <= k < |queue| && Lists(queue[i..] + back, ups)
    ensures queue[k].up in ups
    ensures queue[k].up !in Sweep(addr, ttl, clock, queue, ups, i, links, back).ups
            <==> (IdleAt(queue, ups, k) && ExpiredThrough(ttl, clock, queue, i, k)
                  && k + |links| + IdleCount(queue, ups, i, k) < |queue|)
    decreases |queue| - i
  {
    hide Lists;
    ListsMember(queue[i..] + back, ups, k - i);
    if i + |links| < |queue| {
      var e := queue[i];
      var again := back + [TtlKey(e.up, clock(2 * i + 1))];
      SweepStep(clock, queue, ups, i, back);
      OthersSame(queue, back, ups, i, ups[e.up].(hits := 0));
      if e.Expired(clock(2 * i), ttl) {
        if ups[e.up].hits == 0 {
          var l := Link(e.up, AddrPort(addr, ups[e.up].port));
          if k == i {
            var gone := SweepRemoves(addr, ttl, clock, queue, ups - {e.up}, i + 1, links + [l], back);
          } else {
            SweepExact(addr, ttl, clock, queue, ups - {e.up}, i + 1, links + [l], back, k);
            IdleCountSame(queue, ups, ups - {e.up}, i + 1, k);
          }
        } else {
          var cleared := ups[e.up := ups[e.up].(hits := 0)];
          if k == i {
            var gone := SweepRemoves(addr, ttl, clock, queue, cleared, i + 1, links, again);
            NotAgain(addr, ttl, clock, queue, i + 1, TtlKey(e.up, clock(2 * i + 1)), cleared, back,
                     Sweep(addr, ttl, clock, queue, cleared, i + 1, links, again).ups, gone);
          } else {
            SweepExact(addr, ttl, clock, queue, cleared, i + 1, links, again, k);
            IdleCountSame(queue, ups, cleared, i + 1, k);
          }
        }
      }
    }
  }

  /** Entry k is an idle link past its time when its turn would come. */
  ghost predicate Due(t: Table, ttl: nat, clock: Clock, k: nat)
    requires k < |t.queue|
  {
    IdleAt(t.queue, t.ups, k) && t.queue[k].Expired(clock(2 * k), ttl)
  }

  /** The pass gets to entry k: no earlier entry stops it, and the shrinking bound is not yet met. */
  ghost predicate Reached(t: Table, ttl: nat, clock: Clock, k: nat)
    requires k < |t.queue|
  {
    ExpiredThrough(ttl, clock, t.queue, 0, k) && k + IdleCount(t.queue, t.ups, 0, k) < |t.queue|
  }

  lemma CleanupExact(t: Table, ttl: nat, clock: Clock, k: nat)
    requires Inv(t) && k < |t.queue|
    ensures t.queue[k].up in t.ups
    ensures t.queue[k].up !in Cleanup(t, ttl, clock).0.ups <==> Due(t, ttl, clock, k) && Reached(t, ttl, clock, k)
  {
    hide Lists;
    assert t.queue[0..] + [] == t.queue;
    SweepExact(t.addr, ttl, clock, t.queue, t.ups, 0, [], [], k);
  }

  lemma {:induction false} IdleCountGrows(queue: seq<TtlKey>, ups: Ups, i: nat, k: nat, m: nat)
    requires i <= k <= m <= |queue|
    ensures IdleCount(queue, ups, i, k) <= IdleCount(queue, ups, i, m)
    decreases k - i
  {
    if i < k {
      IdleCountGrows(queue, ups, i + 1, k, m);
    }
  }

  /** A pass removes every idle link past its time if and only if it reaches the last of them. */
  lemma CleanupMissesNone(t: Table, ttl: nat, clock: Clock, m: nat)
    requires Inv(t) && m < |t.queue| && Due(t, ttl, clock, m)
    requires forall k :: m < k < |t.queue| ==> !Due(t, ttl, clock, k)
    ensures (forall k :: 0 <= k < |t.queue| && Due(t, ttl, clock, k) ==>
               t.queue[k].up !in Cleanup(t, ttl, clock).0.ups) <==> Reached(t, ttl, clock, m)
  {
    hide Inv, Cleanup;
    InvLists(t);
    forall k | 0 <= k < |t.queue| ensures
        (t.queue[k].up !in Cleanup(t, ttl, clock).0.ups <==> Due(t, ttl, clock, k) && Reached(t, ttl, clock, k))
        && (k <= m && Reached(t, ttl, clock, m) ==> Reached(t, ttl, clock, k))
    {
      CleanupExact(t, ttl, clock, k);
      if k <= m {
        IdleCountGrows(t.queue, t.ups, 0, k, m);
      }
    }
  }

  lemma {:induction false} IdleCountAll(queue: seq<TtlKey>, ups: Ups, i: nat, k: nat)
    requires i <= k <= |queue| && forall j :: i <= j < k ==> IdleAt(queue, ups, j)
    ensures IdleCount(queue, ups, i, k) == k - i
    decreases k - i
  {
    if i < k {
      IdleCountAll(queue, ups, i + 1, k);
    }
  }

  lemma {:induction false} SweepHalf(addr: Addr, ttl: nat, clock: Clock, queue: seq<TtlKey>,
                                     ups: Ups, i: nat, links: seq<Link>)
    requires i <= |queue| && Lists(queue[i..] + [], ups) && |links| == i
    requires forall j :: i <= j < |queue| ==> queue[j].Expired(clock(2 * j), ttl)
    requires forall u :: u in ups ==> ups[u].hits == 0
    ensures var r := Sweep(addr, ttl, clock, queue, ups, i, links, []);
            |r.links| == if 2 * i >= |queue| then i else (|queue| + 1) / 2
    decreases |queue| - i
  {
    if 2 * i < |queue| {
      SweepStep(clock, queue, ups, i, []);
      SweepHalf(addr, ttl, clock, queue, ups - {queue[i].up}, i + 1,
                links + [Link(queue[i].up, AddrPort(addr, ups[queue[i].up].port))]);
    }
  }

  /** When every link is idle and past its time, a pass removes exactly the first half, rounded up. */
  lemma CleanupHalf(t: Table, ttl: nat, clock: Clock)
    requires Inv(t)
    requires forall j :: 0 <= j < |t.queue| ==> Due(t, ttl, clock, j)
    ensures forall k :: 0 <= k < |t.queue| ==>
              (t.queue[k].up !in Cleanup(t, ttl, clock).0.ups <==> 2 * k < |t.queue|)
    ensures |Cleanup(t, ttl, clock).1| == (|t.queue| + 1) / 2
  {
    hide Inv, Sweep, IdleAt;
    InvLists(t);
    AllDue(t, ttl, clock);
    forall k | 0 <= k < |t.queue| ensures t.queue[k].up !in Cleanup(t, ttl, clock).0.ups <==> 2 * k < |t.queue| {
      CleanupExact(t, ttl, clock, k);
      IdleCountAll(t.queue, t.ups, 0, k);
    }
    assert t.queue[0..] + [] == t.queue;
    SweepHalf(t.addr, ttl, clock, t.queue, t.ups, 0, []);
  }

  lemma AllDue(t: Table, ttl: nat, clock: Clock)
    requires Lists(t.queue, t.ups) && forall j :: 0 <= j < |t.queue| ==> Due(t, ttl, clock, j)
    ensures forall j :: 0 <= j < |t.queue| ==> IdleAt(t.queue, t.ups, j) && t.queue[j].Expired(clock(2 * j), ttl)
    ensures forall k :: 0 <= k < |t.queue| ==> ExpiredThrough(ttl, clock, t.queue, 0, k)
    ensures forall u :: u in t.ups ==> t.ups[u].hits == 0
  {
    forall j | 0 <= j < |t.queue| ensures IdleAt(t.queue, t.ups, j) && t.queue[j].Expired(clock(2 * j), ttl) {
      assert Due(t, ttl, clock, j);
    }
    forall u | u in t.ups ensures t.ups[u].hits == 0 {
      QueueOf(t, u);
      var j :| 0 <= j < |t.queue| && t.queue[j].up == u;
      assert IdleAt(t.queue, t.ups, j);
    }
  }

  lemma QueueOf(t: Table, u: Uplink)
    requires Lists(t.queue, t.ups) && u in t.ups
    ensures exists j :: 0 <= j < |t.queue| && t.queue[j].up == u
  {
    assert u in multiset(UpsOf(t.queue));
    var j :| 0 <= j < |UpsOf(t.queue)| && UpsOf(t.queue)[j] == u;
    assert t.queue[j].up == u;
  }

  // What a pass does to the links it keeps

  /** Links whose entries are not ahead of the pass are left alone. */
  lemma {:induction false} SweepElsewhere(addr: Addr, ttl: nat, clock: Clock, queue: seq<TtlKey>, ups: Ups, i: nat,
                                          links: seq<Link>, back: seq<TtlKey>, u: Uplink)
    requires i <= |queue| && Lists(queue[i..] + back, ups) && u in ups
    requires forall j :: i <= j < |queue| ==> queue[j].up != u
    ensures u in Sweep(addr, ttl, clock, queue, ups, i, links, back).ups
    ensures Sweep(addr, ttl, clock, queue, ups, i, links, back).ups[u] == ups[u]
    decreases |queue| - i
  {
    hide Lists;
    if i + |links| < |queue| {
      var e := queue[i];
      SweepStep(clock, queue, ups, i, back);
      if e.Expired(clock(2 * i), ttl) {
        if ups[e.up].hits == 0 {
          SweepElsewhere(addr, ttl, clock, queue, ups - {e.up}, i + 1,
                         links + [Link(e.up, AddrPort(addr, ups[e.up].port))], back, u);
        } else {
          SweepElsewhere(addr, ttl, clock, queue, ups[e.up := ups[e.up].(hits := 0)], i + 1, links,
                         back + [TtlKey(e.up, clock(2 * i + 1))], u);
        }
      }
    }
  }

  /** Entries put back stay at the back. */
  lemma {:induction false} SweepBack(addr: Addr, ttl: nat, clock: Clock, queue: seq<TtlKey>, ups: Ups, i: nat,
                                     links: seq<Link>, back: seq<TtlKey>, e: TtlKey)
    requires i <= |queue| && Lists(queue[i..] + back, ups) && e in back
    ensures e in Sweep(addr, ttl, clock, queue, ups, i, links, back).queue
    decreases |queue| - i
  {
    hide Lists;
    if i + |links| < |queue| {
      var d := queue[i];
      var again := back + [TtlKey(d.up, clock(2 * i + 1))];
      SweepStep(clock, queue, ups, i, back);
      if d.Expired(clock(2 * i), ttl) {
        if ups[d.up].hits == 0 {
          SweepBack(addr, ttl, clock, queue, ups - {d.up}, i + 1,
                    links + [Link(d.up, AddrPort(addr, ups[d.up].port))], back, e);
        } else {
          SweepBack(addr, ttl, clock, queue, ups[d.up := ups[d.up].(hits := 0)], i + 1, links, again, e);
        }
      }
    }
  }

  /** Entry k has its turn: every entry before it was past its time, and the bound is not yet met. */
  ghost predicate TurnFrom(ttl: nat, clock: Clock, queue: seq<TtlKey>, ups: Ups, i: nat, links: nat, k: nat)
    requires i <= k < |queue|
  {
    && (forall j :: i <= j < k ==> queue[j].Expired(clock(2 * j), ttl))
    && k + links + IdleCount(queue, ups, i, k) < |queue|
  }

  lemma {:induction false} SweepEntry(addr: Addr, ttl: nat, clock: Clock, queue: seq<TtlKey>, ups: Ups, i: nat,
                                      links: seq<Link>, back: seq<TtlKey>, k: nat)
    requires i <= k < |queue| && Lists(queue[i..] + back, ups)
    ensures var r := Sweep(addr, ttl, clock, queue, ups, i, links, back);
            var turn := TurnFrom(ttl, clock, queue, ups, i, |links|, k);
            var e := queue[k];
            e.up in r.ups ==>
              && e.up in ups
              && r.ups[e.up].hits == (if turn && e.Expired(clock(2 * k), ttl) then 0 else ups[e.up].hits)
              && (if turn then TtlKey(e.up, clock(2 * k + 1)) else e) in r.queue
    decreases |queue| - i
  {
    hide Lists;
    var r := Sweep(addr, ttl, clock, queue, ups, i, links, back);
    ListsMember(queue[i..] + back, ups, k - i);
    if i + |links| >= |queue| {
      assert queue[i..][k - i] == queue[k];
    } else {
      var e := queue[i];
      var again := back + [TtlKey(e.up, clock(2 * i + 1))];
      SweepStep(clock, queue, ups, i, back);
      OthersSame(queue, back, ups, i, ups[e.up].(hits := 0));
      OtherUps(queue, back, ups, i);
      if !e.Expired(clock(2 * i), ttl) {
        assert k > i ==> queue[i + 1..][k - i - 1] == queue[k];
      } else if ups[e.up].hits == 0 {
        if k > i {
          IdleCountSame(queue, ups, ups - {e.up}, i + 1, k);
          SweepEntry(addr, ttl, clock, queue, ups - {e.up}, i + 1,
                     links + [Link(e.up, AddrPort(addr, ups[e.up].port))], back, k);
        } else {
          var gone := SweepRemoves(addr, ttl, clock, queue, ups - {e.up}, i + 1,
                                   links + [Link(e.up, AddrPort(addr, ups[e.up].port))], back);
        }
      } else {
        var cleared := ups[e.up := ups[e.up].(hits := 0)];
        if k > i {
          IdleCountSame(queue, ups, cleared, i + 1, k);
          SweepEntry(addr, ttl, clock, queue, cleared, i + 1, links, again, k);
        } else {
          SweepElsewhere(addr, ttl, clock, queue, cleared, i + 1, links, again, e.up);
          SweepBack(addr, ttl, clock, queue, cleared, i + 1, links, again, TtlKey(e.up, clock(2 * i + 1)));
        }
      }
    }
  }

  lemma OtherUps(queue: seq<TtlKey>, back: seq<TtlKey>, ups: Ups, i: nat)
    requires i < |queue| && Lists(queue[i..] + back, ups)
    ensures forall j :: i < j < |queue| ==> queue[j].up != queue[i].up
  {
    forall j | i < j < |queue| ensures queue[j].up != queue[i].up {
      assert queue[i..] + back == [queue[i]] + (queue[i + 1..] + back);
      ListsOnce([queue[i]], queue[i + 1..] + back, ups, 0, j - i - 1);
    }
  }

  /** Entry j is of a valid link and past its time at the reading made for it. */
  predicate PastTime(t: Table, ttl: nat, clock: Clock, j: nat)
    requires j < |t.queue|
  {
    var e := t.queue[j];
    e.up.process.addr != NoAddr && e.up.server.addr != NoAddr && e.start != 0 && clock(2 * j) - e.start > ttl
  }

  /** A pass comes to entry k: all before it are past their time, and k plus the number of idle ones among them,
      which are gone by then, is less than the length of the queue. */
  ghost predicate Turn(t: Table, ttl: nat, clock: Clock, k: nat)
    requires k < |t.queue|
  {
    && (forall j :: 0 <= j < k ==> PastTime(t, ttl, clock, j))
    && k + |IdleBefore(t, k)| < |t.queue|
  }

  function IdleBefore(t: Table, k: nat): set<nat>
    requires k <= |t.queue|
  {
    set j: nat | j < k && t.queue[j].up in t.ups && t.ups[t.queue[j].up].hits == 0
  }

  lemma {:induction false} IdleBeforeCount(t: Table, k: nat)
    requires k <= |t.queue|
    ensures |IdleBefore(t, k)| == IdleCount(t.queue, t.ups, 0, k)
  {
    if k > 0 {
      IdleBeforeCount(t, k - 1);
      IdleCountLast(t.queue, t.ups, 0, k);
      assert IdleBefore(t, k) == IdleBefore(t, k - 1) + if IdleAt(t.queue, t.ups, k - 1) then {k - 1} else {};
    }
  }

  lemma {:induction false} IdleCountLast(queue: seq<TtlKey>, ups: Ups, i: nat, k: nat)
    requires i < k <= |queue|
    ensures IdleCount(queue, ups, i, k) == IdleCount(queue, ups, i, k - 1) + if IdleAt(queue, ups, k - 1) then 1 else 0
    decreases k - i
  {
    if i + 1 < k {
      IdleCountLast(queue, ups, i + 1, k);
    }
  }

  /** What one pass does to the link of entry k. It goes if and only if its turn comes, it is past its time and
      no lookup was counted. If it stays it keeps its port; if its turn came it is stamped again, and if it was
      past its time its count starts anew. */
  lemma CleanupEntry(t: Table, ttl: nat, clock: Clock, k: nat)
    requires Inv(t) && k < |t.queue|
    ensures var after, u := Cleanup(t, ttl, clock).0, t.queue[k].up;
            var turn, past := Turn(t, ttl, clock, k), PastTime(t, ttl, clock, k);
            && u in t.ups && (u !in after.ups <==> turn && past && t.ups[u].hits == 0)
            && (u in after.ups ==>
                  && after.ups[u] == Cell(t.ups[u].port, if turn && past then 0 else t.ups[u].hits)
                  && TtlKey(u, if turn then clock(2 * k + 1) else t.queue[k].start) in after.queue)
  {
    hide Lists, Inv, Sweep, Kept;
    InvLists(t);
    CleanupExact(t, ttl, clock, k);
    IdleBeforeCount(t, k);
    assert t.queue[0..] + [] == t.queue;
    SweepEntry(t.addr, ttl, clock, t.queue, t.ups, 0, [], [], k);
    assert forall j :: 0 <= j < |t.queue| ==> PastTime(t, ttl, clock, j) == t.queue[j].Expired(clock(2 * j), ttl);
    assert Turn(t, ttl, clock, k) <==> TurnFrom(ttl, clock, t.queue, t.ups, 0, 0, k);
    if t.queue[k].up in Cleanup(t, ttl, clock).0.ups {
      CleanupKept(t, ttl, clock, t.queue[k].up);
      KeptPort(t.ups[t.queue[k].up], Cleanup(t, ttl, clock).0.ups[t.queue[k].up]);
    }
  }

  lemma KeptPort(before: Cell, after: Cell)
    requires Kept(before, after)
    ensures after.port == before.port
  {
  }

  // Where a pass stops

  /** A pass over a sorted queue that stops at a valid entry k, the first one not past its time, leaves
      nothing behind that was past its time at that reading. */
  lemma {:induction false} SweepStops(addr: Addr, ttl: nat, clock: Clock, queue: seq<TtlKey>,
                                      ups: Ups, i: nat, links: seq<Link>, back: seq<TtlKey>, k: nat)
    requires i <= k < |queue| && Lists(queue[i..] + back, ups)
    requires Monotone(clock) && SortedQueue(queue[i..] + back)
    requires forall e :: e in queue[i..] + back ==> e.start <= clock(2 * i)
    requires forall j :: i <= j < k ==> queue[j].Expired(clock(2 * j), ttl)
    requires queue[k].Valid() && !queue[k].Expired(clock(2 * k), ttl)
    requires k + |links| + IdleCount(queue, ups, i, k) < |queue|
    ensures forall e :: e in Sweep(addr, ttl, clock, queue, ups, i, links, back).queue ==>
              !e.Expired(clock(2 * k), ttl)
    decreases |queue| - i
  {
    hide Lists, SortedQueue;
    var e := queue[i];
    var again := back + [TtlKey(e.up, clock(2 * i + 1))];
    SweepStep(clock, queue, ups, i, back);
    SortedStep(clock, queue, i, back);
    OthersSame(queue, back, ups, i, ups[e.up].(hits := 0));
    assert clock(2 * i) <= clock(2 * i + 1) <= clock(2 * (i + 1));
    if k > i {
      if ups[e.up].hits == 0 {
        IdleCountSame(queue, ups, ups - {e.up}, i + 1, k);
        SweepStops(addr, ttl, clock, queue, ups - {e.up}, i + 1,
                   links + [Link(e.up, AddrPort(addr, ups[e.up].port))], back, k);
      } else {
        var cleared := ups[e.up := ups[e.up].(hits := 0)];
        IdleCountSame(queue, ups, cleared, i + 1, k);
        SweepStops(addr, ttl, clock, queue, cleared, i + 1, links, again, k);
      }
    }
  }

  /** The stamps never decrease along the queue, and none lies after time. */
  ghost predicate Stamped(s: seq<TtlKey>, time: nat) {
    SortedQueue(s) && forall e :: e in s ==> e.start <= time
  }

  /** Readings between two times by a clock that never goes back. */
  ghost predicate Between(clock: Clock, lo: nat, hi: nat) {
    Monotone(clock) && forall k :: lo <= clock(k) <= hi
  }

  /** The pass stops at entry k: it gets there, and k is the first entry not past its time. */
  ghost predicate StopsAt(t: Table, ttl: nat, clock: Clock, k: nat)
    requires k < |t.queue|
  {
    && (forall j :: 0 <= j < k ==> t.queue[j].Expired(clock(2 * j), ttl))
    && !t.queue[k].Expired(clock(2 * k), ttl)
    && k + IdleCount(t.queue, t.ups, 0, k) < |t.queue|
  }

  lemma CleanupStamped(t: Table, ttl: nat, clock: Clock, lo: nat, hi: nat)
    requires Inv(t) && Stamped(t.queue, lo) && Between(clock, lo, hi)
    ensures Stamped(Cleanup(t, ttl, clock).0.queue, hi)
    ensures forall k :: 0 <= k < |t.queue| && StopsAt(t, ttl, clock, k) && t.queue[k].Valid() ==>
              forall e :: e in Cleanup(t, ttl, clock).0.queue ==> !e.Expired(clock(2 * k), ttl)
  {
    hide Lists, SortedQueue, Routed, Rooted;
    assert t.queue[0..] + [] == t.queue;
    assert lo <= clock(2 * 0);
    SweepSorted(t.addr, ttl, clock, t.queue, t.ups, 0, [], [], hi);
    forall k | 0 <= k < |t.queue| && StopsAt(t, ttl, clock, k) && t.queue[k].Valid()
      ensures forall e :: e in Cleanup(t, ttl, clock).0.queue ==> !e.Expired(clock(2 * k), ttl)
    {
      SweepStops(t.addr, ttl, clock, t.queue, t.ups, 0, [], [], k);
    }
  }
}
