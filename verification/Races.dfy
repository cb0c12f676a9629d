/** Runs that go wrong: what overlapping calls do, from any state and from an empty server. */
module Races {
  import opened Net
  import opened PortPool
  import opened LinkTable
  import opened Interleaving
  import opened InterleavedRuns
  import opened OrderlyRuns

  /** The moves lead from w to after; lawful ones with the callers keeping the premise. */
  ghost predicate Reaches(w: World, moves: seq<Move>, after: World, lawful: bool)
    decreases |moves|
  {
    if moves == [] then after == w
    else
      && Enabled(w, moves[0].i, moves[0].a) && (lawful ==> Premise(w, moves[0].i, moves[0].a))
      && Reaches(Next(w, moves[0].i, moves[0].a), moves[1..], after, lawful)
  }

  lemma {:induction false} Extend(w: World, moves: seq<Move>, x: World, m: Move, lawful: bool)
    returns (longer: seq<Move>, y: World)
    requires Reaches(w, moves, x, lawful) && Enabled(x, m.i, m.a) && (lawful ==> Premise(x, m.i, m.a))
    ensures longer == moves + [m] && y == Next(x, m.i, m.a) && Reaches(w, longer, y, lawful)
    ensures Listed(y) <==> (m.a.InsertUp? ==> x.pcs[m.i].s !in x.ups)
    decreases |moves|
  {
    hide Premise, Next, Listed;
    ListedExact(x, m.i, m.a);
    longer, y := moves + [m], Next(x, m.i, m.a);
    if moves == [] {
      assert longer[1..] == [] && Reaches(y, [], y, lawful);
    } else {
      var rest, z := Extend(Next(w, moves[0].i, moves[0].a), moves[1..], x, m, lawful);
      assert longer[1..] == rest;
    }
  }

  lemma ReachesNone(w: World, lawful: bool)
    ensures Reaches(w, [], w, lawful)
  {
  }

  lemma {:induction false} ReachesConcat(w: World, ms: seq<Move>, x: World, ns: seq<Move>, y: World, lawful: bool)
    requires Reaches(w, ms, x, lawful) && Reaches(x, ns, y, lawful)
    ensures Reaches(w, ms + ns, y, lawful)
    decreases |ms|
  {
    hide Enabled, Premise, Next;
    if ms == [] {
      assert ms + ns == ns;
    } else {
      ReachesConcat(Next(w, ms[0].i, ms[0].a), ms[1..], x, ns, y, lawful);
      assert (ms + ns)[1..] == ms[1..] + ns;
    }
  }

  // Two calls for one remote

  function OverlapMoves(i: nat, j: nat, a: Uplink, b: Uplink, ca: Conn, cb: Conn, port: u16, now: nat): seq<Move> {
    [Move(i, Choose(a, ca, port)), Move(j, Choose(b, cb, port)), Move(i, Commit), Move(j, Commit),
     Move(i, InsertUp(now)), Move(j, InsertUp(now)), Move(i, InsertDown), Move(j, InsertDown)]
  }

  /** a's replies go to b's connection, on a triple both links own. */
  ghost predicate Misrouted(w: World, a: Uplink, b: Uplink, cb: Conn) {
    && a in w.ups && b in w.ups && a != b && w.LinkOf(a).Triple() == w.LinkOf(b).Triple()
    && w.LinkOf(a).Down() in w.downs && w.downs[w.LinkOf(a).Down()] == DownKey(cb, b.process.port)
  }

  /** The race: from any state with two idle threads, two overlapping Adds of absent uplinks of one remote
      that choose the same port end with both links on one triple and a's replies going to b's connection,
      whether the callers keep the premise or not. */
  lemma OverlapMisroutes(w: World, i: nat, j: nat, a: Uplink, b: Uplink, ca: Conn, cb: Conn, port: u16, now: nat,
                         lawful: bool)
    returns (after: World)
    requires i < |w.pcs| && j < |w.pcs| && i != j && w.pcs[i].Idle? && w.pcs[j].Idle?
    requires a != b && a.proto == b.proto && a.server == b.server && a !in w.ups && b !in w.ups
    requires lawful ==> MayStart(w, a) && MayStart(w, b)
    requires Enabled(w, i, Choose(a, ca, port))
    ensures Reaches(w, OverlapMoves(i, j, a, b, ca, cb, port, now), after, lawful)
    ensures Misrouted(after, a, b, cb) && !Safe(after)
  {
    hide Take, Listed, Reaches, Safe;
    ReachesNone(w, lawful);
    var m1, x1 := Extend(w, [], w, Move(i, Choose(a, ca, port)), lawful);
    var m2, x2 := Extend(w, m1, x1, Move(j, Choose(b, cb, port)), lawful);
    var m3, x3 := Extend(w, m2, x2, Move(i, Commit), lawful);
    var m4, x4 := Extend(w, m3, x3, Move(j, Commit), lawful);
    var m5;
    m5, after := BothInsert(w, m4, x4, i, j, now, lawful);
    assert m5 == OverlapMoves(i, j, a, b, ca, cb, port, now);
    SharedTriple(after, a, b);
  }

  /** Two calls that hold one triple finish their Adds. */
  lemma BothInsert(w: World, ms: seq<Move>, x: World, i: nat, j: nat, now: nat, lawful: bool)
    returns (longer: seq<Move>, after: World)
    requires Reaches(w, ms, x, lawful) && Listed(x)
    requires i < |x.pcs| && j < |x.pcs| && i != j && x.pcs[i].Reserved? && x.pcs[j].Reserved?
    requires x.pcs[i].s !in x.ups && x.pcs[j].s !in x.ups && x.pcs[i].s != x.pcs[j].s
    requires x.pcs[i].s.proto == x.pcs[j].s.proto && x.pcs[i].s.server == x.pcs[j].s.server
    requires x.pcs[i].port == x.pcs[j].port
    ensures longer == ms + [Move(i, InsertUp(now)), Move(j, InsertUp(now)), Move(i, InsertDown), Move(j, InsertDown)]
    ensures Reaches(w, longer, after, lawful)
    ensures Misrouted(after, x.pcs[i].s, x.pcs[j].s, x.pcs[j].conn)
  {
    hide Listed, Reaches;
    var m1, x1 := Extend(w, ms, x, Move(i, InsertUp(now)), lawful);
    var m2, x2 := Extend(w, m1, x1, Move(j, InsertUp(now)), lawful);
    var m3, x3 := Extend(w, m2, x2, Move(i, InsertDown), lawful);
    longer, after := Extend(w, m3, x3, Move(j, InsertDown), lawful);
  }

  lemma SharedTriple(w: World, a: Uplink, b: Uplink)
    requires a in w.ups && b in w.ups && a != b && w.LinkOf(a).Triple() == w.LinkOf(b).Triple()
    ensures !Safe(w)
  {
  }

  // Two calls for one uplink

  /** Two Adds of one uplink, on the same reusable port or on two fresh ones. */
  function TwiceMoves(i: nat, j: nat, s: Uplink, c: Conn, d: Conn, p: u16, q: u16, now: nat): seq<Move> {
    (if p == q then [Move(i, Choose(s, c, p)), Move(j, Choose(s, d, p))]
     else [Move(i, Look(s, c)), Move(j, Look(s, d)), Move(i, Bind(p)), Move(j, Bind(q))])
    + [Move(i, Commit), Move(j, Commit), Move(i, InsertUp(now)), Move(j, InsertUp(now))]
  }

  /** From any state with two idle threads, two overlapping Adds of one uplink queue it twice. With two
      fresh ports every commit on the way is sound. */
  lemma OverlapQueuesTwice(w: World, i: nat, j: nat, s: Uplink, c: Conn, d: Conn, p: u16, q: u16, now: nat)
    returns (after: World)
    requires Listed(w) && i < |w.pcs| && j < |w.pcs| && i != j && w.pcs[i].Idle? && w.pcs[j].Idle? && s !in w.ups
    requires p == q ==> Enabled(w, i, Choose(s, c, p))
    requires p != q ==> Enabled(w, i, Look(s, c)) && (s.proto == TCP || s.proto == UDP) && p != 0 && q != 0
                        && PortKey(s.proto, p) !in w.open && PortKey(s.proto, q) !in w.open
    ensures Reaches(w, TwiceMoves(i, j, s, c, d, p, q, now), after, false)
    ensures !Listed(after) && !Safe(after)
  {
    hide Listed, Reaches, Take, Reusable, AnyReusable, Safe;
    var ms, x := TwoPending(w, i, j, s, c, d, p, q);
    var m1, x1 := Extend(w, ms, x, Move(i, Commit), false);
    var m2, x2 := Extend(w, m1, x1, Move(j, Commit), false);
    var m3, x3 := Extend(w, m2, x2, Move(i, InsertUp(now)), false);
    var m4;
    m4, after := Extend(w, m3, x3, Move(j, InsertUp(now)), false);
    SecondInsert(x3, j, now);
    assert m4 == TwiceMoves(i, j, s, c, d, p, q, now);
  }

  lemma TwoPending(w: World, i: nat, j: nat, s: Uplink, c: Conn, d: Conn, p: u16, q: u16)
    returns (ms: seq<Move>, x: World)
    requires Listed(w) && i < |w.pcs| && j < |w.pcs| && i != j && w.pcs[i].Idle? && w.pcs[j].Idle? && s !in w.ups
    requires p == q ==> Enabled(w, i, Choose(s, c, p))
    requires p != q ==> Enabled(w, i, Look(s, c)) && (s.proto == TCP || s.proto == UDP) && p != 0 && q != 0
                        && PortKey(s.proto, p) !in w.open && PortKey(s.proto, q) !in w.open
    ensures Reaches(w, ms, x, false) && Listed(x) && x.ups == w.ups && |x.pcs| == |w.pcs|
    ensures x.pcs[i].Pending() && x.pcs[j].Pending() && x.pcs[i].s == s && x.pcs[j].s == s
    ensures ms == if p == q then [Move(i, Choose(s, c, p)), Move(j, Choose(s, d, p))]
                  else [Move(i, Look(s, c)), Move(j, Look(s, d)), Move(i, Bind(p)), Move(j, Bind(q))]
  {
    hide Listed, Reaches, Reusable, AnyReusable;
    ReachesNone(w, false);
    if p == q {
      var m1, x1 := Extend(w, [], w, Move(i, Choose(s, c, p)), false);
      ms, x := Extend(w, m1, x1, Move(j, Choose(s, d, p)), false);
    } else {
      var m1, x1 := Extend(w, [], w, Move(i, Look(s, c)), false);
      var m2, x2 := Extend(w, m1, x1, Move(j, Look(s, d)), false);
      var m3, x3 := Extend(w, m2, x2, Move(i, Bind(p)), false);
      ms, x := Extend(w, m3, x3, Move(j, Bind(q)), false);
    }
  }

  // A link that expires inside its own Add

  /** The moves are thread j's own, releasing and closing. */
  predicate Frees(moves: seq<Move>, j: nat) {
    forall k :: 0 <= k < |moves| ==> moves[k].i == j && (moves[k].a.Release? || moves[k].a.Close?)
  }

  /** A release, and the close that follows it when it was the last one on its port. */
  lemma ReleaseOne(w: World, ms: seq<Move>, x: World, j: nat) returns (ns: seq<Move>, y: World)
    requires Reaches(w, ms, x, false) && Listed(x) && j < |x.pcs| && x.pcs[j].Unrouted? && x.pcs[j].ls != []
    ensures Frees(ns, j) && Reaches(w, ms + ns, y, false) && Listed(y)
    ensures y.addr == x.addr && y.downs == x.downs && y.pcs == x.pcs[j := Remaining(x.pcs[j].ls[1..])]
    ensures !Has(y.held, x.pcs[j].ls[0].Triple())
  {
    hide Listed, Reaches, Drop;
    DropHas(x.held, x.pcs[j].ls[0].Triple());
    var m1, x1 := Extend(w, ms, x, Move(j, Release), false);
    ns, y := [Move(j, Release)], x1;
    if x1.pcs[j].Closing? {
      var m2, x2 := Extend(w, m1, x1, Move(j, Close), false);
      ns, y := [Move(j, Release), Move(j, Close)], x2;
      assert ms + ns == m2;
    }
    assert y.pcs == x.pcs[j := Remaining(x.pcs[j].ls[1..])];
  }

  /** Thread j goes on until it has released the k-th of its links. */
  lemma {:induction false} ReleaseThrough(w: World, ms: seq<Move>, x: World, j: nat, k: nat)
    returns (ns: seq<Move>, y: World)
    requires Reaches(w, ms, x, false) && Listed(x) && j < |x.pcs| && x.pcs[j].Unrouted? && k < |x.pcs[j].ls|
    ensures Frees(ns, j) && Reaches(w, ms + ns, y, false) && Listed(y)
    ensures y.addr == x.addr && y.downs == x.downs && |y.pcs| == |x.pcs|
    ensures forall i :: 0 <= i < |x.pcs| && i != j ==> y.pcs[i] == x.pcs[i]
    ensures !Has(y.held, x.pcs[j].ls[k].Triple())
    decreases k
  {
    hide Listed, Reaches, Has;
    ns, y := ReleaseOne(w, ms, x, j);
    if k > 0 {
      assert x.pcs[j].ls[1..][k - 1] == x.pcs[j].ls[k];
      var more, z := ReleaseThrough(w, ms + ns, y, j, k - 1);
      assert ms + (ns + more) == ms + ns + more;
      ns, y := ns + more, z;
    }
  }

  /** From any state in which Cleanup has dropped the route of a link whose Add has yet to store it, the
      Add's second section is too late: before or after the release, it leaves a route nobody owns. */
  lemma LateRoute(w: World, i: nat, j: nat, k: nat) returns (early: World, late: World, ns: seq<Move>, ps: seq<Move>)
    requires Listed(w) && i < |w.pcs| && j < |w.pcs| && w.pcs[i].Inserted? && w.pcs[j].Unrouted?
    requires k < |w.pcs[j].ls| && w.pcs[j].ls[k].Down() == DownOf(w, w.pcs[i])
    ensures Frees(ns, j) && Reaches(w, [Move(i, InsertDown)] + ns, early, false) && !Safe(early)
    ensures Frees(ps, j) && Reaches(w, ps + [Move(i, InsertDown)], late, false) && !Safe(late)
  {
    hide Listed, Reaches, Safe, Frees, Has;
    var d := DownOf(w, w.pcs[i]);
    assert DownTriple(d) == w.pcs[j].ls[k].Triple();
    ReachesNone(w, false);
    var m1, x1 := Extend(w, [], w, Move(i, InsertDown), false);
    assert m1 == [Move(i, InsertDown)];
    ns, early := ReleaseThrough(w, m1, x1, j, k);
    Unowned(early, d);
    var y;
    ps, y := ReleaseThrough(w, [], w, j, k);
    assert [] + ps == ps;
    var m2;
    m2, late := Extend(w, ps, y, Move(i, InsertDown), false);
    Unowned(late, d);
  }

  /** A late Add redirects the finished route of the link that has taken its place: from any state in order
      in which an Add of the link's uplink and port is pending that is not the one that made it. */
  lemma StaleRoute(w: World, i: nat) returns (after: World)
    requires WorldInv(w) && i < |w.pcs| && w.pcs[i].Inserted?
    requires var s := w.pcs[i].s;
             && s in w.ups && w.ups[s].port == w.pcs[i].port && s in w.makers && w.makers[s] != w.pcs[i].conn
             && !InsertedBy(w.pcs, w.adders, s, w.pcs[i].port)
    ensures Reaches(w, [Move(i, InsertDown)], after, false) && !Safe(after)
    ensures var s := w.pcs[i].s;
            && s in w.ups && s in after.ups && RoutedTo(w, s) && !RoutedTo(after, s)
            && after.LinkOf(s).Down() in after.downs && after.downs[after.LinkOf(s).Down()].conn == w.pcs[i].conn
  {
    hide Listed, Distinct, NonEmpty, Owned, CoverOk, OpenOk, DownsOk, ThreadsOk, Pairs, Reaches, Safe;
    var s := w.pcs[i].s;
    assert UpOk(w, s);
    ReachesNone(w, false);
    var ms;
    ms, after := Extend(w, [], w, Move(i, InsertDown), false);
    assert ms == [Move(i, InsertDown)];
    assert !InsertedBy(after.pcs, after.adders, s, after.ups[s].port);
    Misplaced(after, s);
  }

  lemma Misplaced(w: World, u: Uplink)
    requires u in w.ups && !RoutedTo(w, u) && !InsertedBy(w.pcs, w.adders, u, w.ups[u].port)
    ensures !Safe(w)
  {
  }

  // From an empty server of one shard

  function Server(addr: Addr): World { Start(1, 1, addr, 2) }

  lemma ServerListed(addr: Addr)
    ensures Listed(Server(addr))
  {
    StartInv(1, 1, addr, 2);
  }

  /** With one shard, that shard is the whole. */
  lemma OnePart(ups: Ups)
    ensures Part(1, ups, 0) == ups
    ensures forall u :: ShardOf(1, u) == 0
  {
    forall u ensures ShardOf(1, u) == 0 {
      assert ShardOf(1, u) < 1;
    }
  }

  /** An empty server is such a state. */
  lemma TwiceFromStart(s: Uplink, c: Conn, d: Conn, p: u16, q: u16, now: nat) returns (after: World)
    requires s.server.IsValid() && (s.proto == TCP || s.proto == UDP) && p != 0 && q != 0 && p != q
    ensures Reaches(Server(V4(1)), TwiceMoves(0, 1, s, c, d, p, q, now), after, false)
    ensures !Listed(after) && !Safe(after)
  {
    hide Listed, Reaches, Safe;
    ServerListed(V4(1));
    after := OverlapQueuesTwice(Server(V4(1)), 0, 1, s, c, d, p, q, now);
  }

  function FirstMoves(s: Uplink, conn: Conn, port: u16, now: nat): seq<Move> {
    [Move(0, Look(s, conn)), Move(0, Bind(port)), Move(0, Commit), Move(0, InsertUp(now))]
  }

  /** The first Add on an empty server, by thread 0, up to its uplink section. */
  lemma FirstInserted(addr: Addr, s: Uplink, conn: Conn, port: u16, now: nat, lawful: bool)
    returns (moves: seq<Move>, x: World)
    requires s.server.IsValid() && (s.proto == TCP || s.proto == UDP) && port != 0
    ensures moves == FirstMoves(s, conn, port, now) && Reaches(Server(addr), moves, x, lawful)
    ensures x.pcs == [Inserted(s, conn, port), Idle] && Listed(x) && x.mutx == 1 && x.addr == addr
    ensures x.ups == map[s := Cell(port, 0)] && x.queues == [[TtlKey(s, now)]]
    ensures x.held == map[PortKey(s.proto, port) := {s.server}] && x.open == {PortKey(s.proto, port)}
  {
    hide Listed, Reaches;
    var w := Server(addr);
    ServerListed(addr);
    OnePart(map[]);
    ReachesNone(w, lawful);
    var m1, x1 := Extend(w, [], w, Move(0, Look(s, conn)), lawful);
    var m2, x2 := Extend(w, m1, x1, Move(0, Bind(port)), lawful);
    var m3, x3 := Extend(w, m2, x2, Move(0, Commit), lawful);
    moves, x := Extend(w, m3, x3, Move(0, InsertUp(now)), lawful);
    assert ShardOf(1, s) == 0 && x.queues[0] == [TtlKey(s, now)];
    var none: set<AddrPort> := {};
    assert none + {s.server} == {s.server};
  }

  lemma FirstLink(addr: Addr, s: Uplink, conn: Conn, port: u16, now: nat)
    returns (moves: seq<Move>, x: World)
    requires s.server.IsValid() && (s.proto == TCP || s.proto == UDP) && port != 0
    ensures moves == FirstMoves(s, conn, port, now) + [Move(0, InsertDown)]
    ensures Reaches(Server(addr), moves, x, true)
    ensures x.pcs == [Idle, Idle] && Listed(x) && x.mutx == 1 && x.addr == addr
    ensures x.ups == map[s := Cell(port, 0)] && x.queues == [[TtlKey(s, now)]]
    ensures x.held == map[PortKey(s.proto, port) := {s.server}]
  {
    hide Listed, Reaches;
    var ms, x1 := FirstInserted(addr, s, conn, port, now, true);
    moves, x := Extend(Server(addr), ms, x1, Move(0, InsertDown), true);
  }

  /** The race is real: two connections whose clients ask for one remote, on a server with one link. */
  lemma RaceFromStart(s: Uplink, a: Uplink, b: Uplink) returns (after: World)
    requires s == Uplink(AddrPort(V4(7), 1000), UDP, AddrPort(V4(8), 53))
    requires a == Uplink(AddrPort(V4(5), 1000), UDP, AddrPort(V4(9), 53))
    requires b == Uplink(AddrPort(V4(6), 1000), UDP, AddrPort(V4(9), 53))
    ensures Reaches(Server(V4(1)),
                    FirstMoves(s, 3, 5000, 1) + [Move(0, InsertDown)] + OverlapMoves(0, 1, a, b, 1, 2, 5000, 1),
                    after, true)
    ensures Misrouted(after, a, b, 2) && !Safe(after)
  {
    hide Listed, Reaches, Safe, Misrouted;
    var ms, x := FirstLink(V4(1), s, 3, 5000, 1);
    after := OverlapMisroutes(x, 0, 1, a, b, 1, 2, 5000, 1, true);
    ReachesConcat(Server(V4(1)), ms, x, OverlapMoves(0, 1, a, b, 1, 2, 5000, 1), after, true);
  }

  /** A pass over one expired idle link removes it. */
  lemma SweepOne(t: Table, s: Uplink, start: nat, ttl: nat, clock: Clock)
    requires t.queue == [TtlKey(s, start)] && Lists(t.queue, t.ups) && s in t.ups && t.ups[s].hits == 0
    requires TtlKey(s, start).Expired(clock(0), ttl)
    ensures SweepAll(t, ttl, clock) == LinkTable.Swept(t.ups - {s}, [t.LinkOf(s)], [])
  {
    SweepStep(clock, t.queue, t.ups, 0, []);
    assert t.queue[0..] + [] == t.queue && t.queue[1..] + [] == [];
    var l := t.LinkOf(s);
    assert LinkTable.Sweep(t.addr, ttl, clock, t.queue, t.ups - {s}, 1, [l], []) == Swept(t.ups - {s}, [l], []);
    assert [] + [l] == [l];
  }

  lemma DropOnly(k: PortKey, r: AddrPort)
    ensures Drop(map[k := {r}], Triple(k.proto, k.port, r)) == map[]
  {
    assert {r} - {r} == {};
  }

  function Ten(): Clock { _ => 10 }

  function CleanMoves(i: nat): seq<Move> {
    [Move(i, Sweep(0, 0, Ten())), Move(i, DropDowns), Move(i, Release)]
  }

  /** Thread i takes the only link out of its shard. */
  lemma SweepOnly(w: World, ms: seq<Move>, x: World, i: nat, s: Uplink, port: u16, lawful: bool)
    returns (longer: seq<Move>, y: World)
    requires Reaches(w, ms, x, lawful) && i < |x.pcs| && x.pcs[i].Idle? && Listed(x) && x.mutx == 1
    requires s.server.IsValid() && s.process.IsValid()
    requires x.ups == map[s := Cell(port, 0)] && x.queues == [[TtlKey(s, 1)]]
    requires lawful ==> forall j :: 0 <= j < |x.pcs| ==> !x.pcs[j].Inserted?
    ensures longer == ms + [Move(i, Sweep(0, 0, Ten()))] && Reaches(w, longer, y, lawful) && Listed(y)
    ensures y.pcs == x.pcs[i := Collected([x.LinkOf(s)])] && y.ups == map[] && y.queues == [[]]
    ensures y == x.(pcs := y.pcs, ups := y.ups, queues := y.queues)
  {
    hide Listed, Lists, Reaches, SweepAll;
    OnePart(x.ups);
    ShardLists(x, 0);
    SweepOne(x.Shard(0), s, 1, 0, Ten());
    longer, y := Extend(w, ms, x, Move(i, Sweep(0, 0, Ten())), lawful);
  }

  /** Thread i cleans the only link, up to the moment before it closes the socket. */
  lemma CleanOne(w: World, ms: seq<Move>, x: World, i: nat, s: Uplink, port: u16, lawful: bool)
    returns (longer: seq<Move>, y: World)
    requires Reaches(w, ms, x, lawful) && i < |x.pcs| && x.pcs[i].Idle? && Listed(x) && x.mutx == 1
    requires s.server.IsValid() && s.process.IsValid()
    requires x.ups == map[s := Cell(port, 0)] && x.queues == [[TtlKey(s, 1)]]
    requires x.held == map[PortKey(s.proto, port) := {s.server}]
    requires lawful ==> forall j :: 0 <= j < |x.pcs| ==> !x.pcs[j].Inserted?
    ensures longer == ms + CleanMoves(i)
    ensures Reaches(w, longer, y, lawful) && Listed(y) && y.addr == x.addr && y.mutx == 1 && y.queues == [[]]
    ensures y.pcs == x.pcs[i := Closing(PortKey(s.proto, port), [])] && y.held == map[] && y.ups == map[]
    ensures y.open == x.open && y.makers == x.makers && y.adders == x.adders
  {
    hide Listed, Lists, Reaches, SweepAll;
    var m1, x1 := SweepOnly(w, ms, x, i, s, port, lawful);
    var m2, x2 := Extend(w, m1, x1, Move(i, DropDowns), lawful);
    var l := x.LinkOf(s);
    assert x2.pcs == x.pcs[i := Unrouted([l])];
    DropOnly(PortKey(s.proto, port), s.server);
    longer, y := Extend(w, m2, x2, Move(i, Release), lawful);
    assert [l][1..] == [];
  }

  /** A DelPort that frees the port between a choice and its commit. Whether its socket is closed before
      or after the commit, a reserved port ends without a socket. */
  lemma FreedFromStart(s: Uplink, a: Uplink) returns (early: World, late: World)
    requires s == Uplink(AddrPort(V4(7), 1000), UDP, AddrPort(V4(8), 53))
    requires a == Uplink(AddrPort(V4(5), 1000), UDP, AddrPort(V4(9), 53))
    ensures var moves := FirstMoves(s, 3, 5000, 1) + [Move(0, InsertDown), Move(1, Choose(a, 1, 5000))] + CleanMoves(0);
            && Reaches(Server(V4(1)), moves + [Move(0, Close), Move(1, Commit)], early, true) && !Safe(early)
            && Reaches(Server(V4(1)), moves + [Move(1, Commit), Move(0, Close)], late, true) && !Safe(late)
  {
    hide Listed, Reaches, Safe;
    var w := Server(V4(1));
    var ms, x := FirstLink(V4(1), s, 3, 5000, 1);
    var m1, x1 := Extend(w, ms, x, Move(1, Choose(a, 1, 5000)), true);
    var m2, x2 := CleanOne(w, m1, x1, 0, s, 5000, true);
    early, late := FreedOrders(w, m2, x2, 0, 1);
    assert m2 == FirstMoves(s, 3, 5000, 1) + [Move(0, InsertDown), Move(1, Choose(a, 1, 5000))] + CleanMoves(0);
  }

  /** One thread is about to close the socket of a port another is about to commit. */
  lemma FreedOrders(w: World, ms: seq<Move>, x: World, i: nat, j: nat) returns (early: World, late: World)
    requires Reaches(w, ms, x, true) && Listed(x)
    requires i < |x.pcs| && j < |x.pcs| && i != j && x.pcs[i].Closing? && x.pcs[j].Chosen?
    requires x.pcs[j].Wanted().Key() == x.pcs[i].k
    ensures Reaches(w, ms + [Move(i, Close), Move(j, Commit)], early, true) && !Safe(early)
    ensures Reaches(w, ms + [Move(j, Commit), Move(i, Close)], late, true) && !Safe(late)
  {
    hide Listed, Reaches, Safe;
    var m3, x3 := Extend(w, ms, x, Move(i, Close), true);
    m3, early := Extend(w, m3, x3, Move(j, Commit), true);
    Unbacked(early, x.pcs[i].k);
    var m4, x4 := Extend(w, ms, x, Move(j, Commit), true);
    m4, late := Extend(w, m4, x4, Move(i, Close), true);
    Unbacked(late, x.pcs[i].k);
    assert m3 == ms + [Move(i, Close), Move(j, Commit)] && m4 == ms + [Move(j, Commit), Move(i, Close)];
  }

  lemma Unbacked(w: World, k: PortKey)
    requires k in w.held && k !in w.open
    ensures !Safe(w)
  {
  }

  /** A link that expires inside its own Add: the route stored afterwards is nobody's. */
  lemma ExpiryFromStart(s: Uplink) returns (after: World)
    requires s == Uplink(AddrPort(V4(7), 1000), UDP, AddrPort(V4(8), 53))
    ensures Reaches(Server(V4(1)), FirstMoves(s, 3, 5000, 1) + CleanMoves(1) + [Move(0, InsertDown)], after, false)
    ensures s !in after.ups && exists d :: d in after.downs && !Has(after.held, DownTriple(d))
    ensures !Safe(after)
  {
    hide Listed, Reaches, Safe;
    var w := Server(V4(1));
    var m4, x4 := FirstInserted(V4(1), s, 3, 5000, 1, false);
    var m5, x5 := CleanOne(w, m4, x4, 1, s, 5000, false);
    var m6;
    m6, after := Extend(w, m5, x5, Move(0, InsertDown), false);
    Unowned(after, Link(s, AddrPort(V4(1), 5000)).Down());
  }

  lemma Unowned(w: World, d: Downlink)
    requires d in w.downs && !Has(w.held, DownTriple(d))
    ensures !Safe(w)
  {
  }

  /** One guarded step more of a run in order that keeps the premise. */
  lemma GuardedStep(w: World, ms: seq<Move>, x: World, m: Move) returns (longer: seq<Move>, y: World)
    requires Reaches(w, ms, x, true) && WorldInv(x) && Enabled(x, m.i, m.a)
    requires Premise(x, m.i, m.a) && Guard(x, m.i, m.a)
    ensures longer == ms + [m] && y == Next(x, m.i, m.a) && Reaches(w, longer, y, true) && WorldInv(y) && Listed(y)
  {
    hide Reaches, Enabled, Premise, Guard, Next;
    StepKeeps(x, m.i, m.a);
    longer, y := Extend(w, ms, x, m, true);
  }

  /** Two Adds for different remotes that both find nothing to share take a port each, though one would do.
      The callers keep the premise and every step is guarded. */
  lemma TwoPortsFromStart(a: Uplink, b: Uplink, c: Conn, d: Conn, p: u16, q: u16) returns (after: World)
    requires a.server.IsValid() && b.server.IsValid() && a.server != b.server
    requires (a.proto == TCP || a.proto == UDP) && a.proto == b.proto && p != q && p != 0 && q != 0
    ensures Reaches(Server(V4(1)), PortMoves(a, b, c, d, p, q), after, true) && Safe(after)
    ensures |PortsOf(after.held, a.proto)| == 2 && forall r :: |LoadOf(after.held, a.proto, r)| <= 1
  {
    hide Listed, Reaches, Safe, WorldInv, PortsOf, LoadOf;
    var w := Server(V4(1));
    var m4, x4 := TwoOpened(a, b, c, d, p, q);
    var m5, x5 := GuardedStep(w, m4, x4, Move(0, Commit));
    var m6;
    m6, after := GuardedStep(w, m5, x5, Move(1, Commit));
    assert m6 == PortMoves(a, b, c, d, p, q);
    InvSafe(after);
    TwoHeld(after.held, a.proto, p, q, a.server, b.server);
  }

  lemma TwoOpened(a: Uplink, b: Uplink, c: Conn, d: Conn, p: u16, q: u16) returns (ms: seq<Move>, x: World)
    requires a.server.IsValid() && b.server.IsValid() && a.server != b.server
    requires (a.proto == TCP || a.proto == UDP) && a.proto == b.proto && p != q && p != 0 && q != 0
    ensures ms == PortMoves(a, b, c, d, p, q)[..4] && Reaches(Server(V4(1)), ms, x, true) && WorldInv(x) && Listed(x)
    ensures x.held == map[] && x.open == {PortKey(a.proto, p), PortKey(a.proto, q)}
    ensures x.pcs == [Opened(a, c, p), Opened(b, d, q)]
  {
    hide Listed, Reaches, WorldInv;
    var w := Server(V4(1));
    StartInv(1, 1, V4(1), 2);
    ServerListed(V4(1));
    ReachesNone(w, true);
    var m1, x1 := GuardedStep(w, [], w, Move(0, Look(a, c)));
    var m2, x2 := GuardedStep(w, m1, x1, Move(1, Look(b, d)));
    var m3, x3 := GuardedStep(w, m2, x2, Move(0, Bind(p)));
    ms, x := GuardedStep(w, m3, x3, Move(1, Bind(q)));
  }

  function PortMoves(a: Uplink, b: Uplink, c: Conn, d: Conn, p: u16, q: u16): seq<Move> {
    [Move(0, Look(a, c)), Move(1, Look(b, d)), Move(0, Bind(p)), Move(1, Bind(q)), Move(0, Commit), Move(1, Commit)]
  }

  lemma TwoHeld(h: Held, proto: u8, p: u16, q: u16, r: AddrPort, s: AddrPort)
    requires p != q && r != s && h.Keys == {PortKey(proto, p), PortKey(proto, q)}
    requires h[PortKey(proto, p)] == {r} && h[PortKey(proto, q)] == {s}
    ensures |PortsOf(h, proto)| == 2 && forall t :: |LoadOf(h, proto, t)| <= 1
  {
    assert PortsOf(h, proto) == {PortKey(proto, p), PortKey(proto, q)};
    forall t ensures |LoadOf(h, proto, t)| <= 1 {
      var one := if t == r then {PortKey(proto, p)} else {PortKey(proto, q)};
      SubsetCard(LoadOf(h, proto, t), one);
    }
  }

  // A late Add and the link that has taken its place

  function SecondMoves(s: Uplink, conn: Conn): seq<Move> {
    [Move(1, Look(s, conn)), Move(1, Bind(5000)), Move(1, Commit), Move(1, InsertUp(20)), Move(1, InsertDown)]
  }

  function LateMoves(s: Uplink): seq<Move> {
    FirstMoves(s, 3, 5000, 1) + CleanMoves(1) + [Move(1, Close)] + SecondMoves(s, 4) + [Move(0, InsertDown)]
  }

  /** Thread 1 adds the uplink again, on the port that has become free, while the first Add is pending. */
  lemma SecondLink(w: World, ms: seq<Move>, x: World, s: Uplink) returns (longer: seq<Move>, y: World)
    requires Reaches(w, ms, x, false) && Listed(x) && x.mutx == 1 && x.ups == map[] && x.held == map[] && x.open == {}
    requires x.pcs == [Inserted(s, 3, 5000), Idle] && s.server.IsValid() && s.proto == UDP
    ensures longer == ms + SecondMoves(s, 4) && Reaches(w, longer, y, false) && Listed(y) && y.addr == x.addr
    ensures y.ups == map[s := Cell(5000, 0)] && y.pcs == [Inserted(s, 3, 5000), Idle]
    ensures s in y.makers && y.makers[s] == 4 && s in y.adders && y.adders[s] == 1 && RoutedTo(y, s)
  {
    hide Listed, Reaches, Take;
    var m3, x3 := SecondReserved(w, ms, x, s);
    var m4, x4 := Extend(w, m3, x3, Move(1, InsertUp(20)), false);
    longer, y := Extend(w, m4, x4, Move(1, InsertDown), false);
  }

  lemma SecondReserved(w: World, ms: seq<Move>, x: World, s: Uplink) returns (longer: seq<Move>, y: World)
    requires Reaches(w, ms, x, false) && Listed(x) && x.held == map[] && x.open == {}
    requires x.pcs == [Inserted(s, 3, 5000), Idle] && s.server.IsValid() && s.proto == UDP
    ensures longer == ms + SecondMoves(s, 4)[..3] && Reaches(w, longer, y, false) && Listed(y)
    ensures y == x.(held := y.held, open := y.open, pcs := [Inserted(s, 3, 5000), Reserved(s, 4, 5000)])
  {
    hide Listed, Reaches, Take;
    var m1, x1 := Extend(w, ms, x, Move(1, Look(s, 4)), false);
    var m2, x2 := Extend(w, m1, x1, Move(1, Bind(5000)), false);
    longer, y := Extend(w, m2, x2, Move(1, Commit), false);
  }

  /** A link expires inside its own Add, another connection makes the link anew on the same port, and then
      the first Add stores its route: the replies of the finished link go to the wrong connection. */
  lemma StaleFromStart(s: Uplink) returns (before: World, after: World)
    requires s == Uplink(AddrPort(V4(7), 1000), UDP, AddrPort(V4(8), 53))
    ensures Reaches(Server(V4(1)), LateMoves(s), after, false) && !Safe(after)
    ensures s in before.ups && RoutedTo(before, s) && before.makers[s] == 4
    ensures Enabled(before, 0, InsertDown) && after == Next(before, 0, InsertDown)
    ensures s in after.ups && after.LinkOf(s).Down() in after.downs && after.downs[after.LinkOf(s).Down()].conn == 3
  {
    hide Listed, Reaches, Safe;
    var w := Server(V4(1));
    var m1, x1 := FirstInserted(V4(1), s, 3, 5000, 1, false);
    var m2, x2 := CleanOne(w, m1, x1, 1, s, 5000, false);
    var m3, x3 := Extend(w, m2, x2, Move(1, Close), false);
    var m4, x4 := SecondLink(w, m3, x3, s);
    before := x4;
    var m5;
    m5, after := Extend(w, m4, x4, Move(0, InsertDown), false);
    assert m5 == LateMoves(s);
    Misplaced(after, s);
  }
}
