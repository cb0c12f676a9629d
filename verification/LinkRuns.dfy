/** Whole runs of one `linkManager` with its adapter. */
module LinkRuns {
  import opened Net
  import opened PortPool
  import opened LinkTable
  import PortWord

  ghost predicate HeldBy(h: Held, t: Table) {
    forall r :: r in Owned(t) ==> Has(h, r)
  }

  datatype Sys = Sys(table: Table, held: Held)

  /** One DelPort per removed link. */
  function DropAll(h: Held, links: seq<Link>): Held {
    if links == [] then h else DropAll(Drop(h, links[0].Triple()), links[1..])
  }

  lemma {:induction false} DropAllHas(h: Held, links: seq<Link>)
    ensures forall t :: Has(DropAll(h, links), t) <==> Has(h, t) && t !in TripleSet(links)
    ensures NonEmpty(h) ==> NonEmpty(DropAll(h, links))
  {
    if links != [] {
      DropHas(h, links[0].Triple());
      DropAllHas(Drop(h, links[0].Triple()), links[1..]);
      assert TripleSet(links) == {links[0].Triple()} + TripleSet(links[1..]);
    }
  }

  datatype Op =
    | Clean(clock: Clock)
    | Lookup(s: Uplink, conn: Conn)  // a segment that arrived on conn
    | Add(s: Uplink, conn: Conn, reply: Reply, r: Result<u16, PortError>, clock: Clock, now: nat)

  function Cleaned(sys: Sys, ttl: nat, clock: Clock): Sys
    requires Lists(sys.table.queue, sys.table.ups)
  {
    var (t, links) := Cleanup(sys.table, ttl, clock);
    Sys(t, DropAll(sys.held, links))
  }

  /** The reservations are exactly the triples of the live links. */
  ghost predicate SysInv(sys: Sys) {
    && Inv(sys.table)
    && NonEmpty(sys.held)
    && forall t :: Has(sys.held, t) <==> t in Owned(sys.table)
  }

  /** One call. The caller adds only absent uplinks, and no port word overflows. */
  ghost predicate Step(ttl: nat, sys: Sys, op: Op, after: Sys)
    requires SysInv(sys)
  {
    match op
    case Clean(clock) => after == Cleaned(sys, ttl, clock)
    case Lookup(s, _) =>
      && (s in sys.table.ups ==> sys.table.ups[s].hits + 1 < PortWord.LOW)
      && after == sys.(table := Touch(sys.table, s))
    case Add(s, conn, reply, r, clock, now) =>
      var c := Cleaned(sys, ttl, clock);
      && s !in sys.table.ups
      && Outcome(c.held, s.proto, s.server, reply, r)
      && after == if r.Ok?
                  then Sys(Insert(c.table, s, r.value, conn, now),
                           Take(c.held, Triple(s.proto, r.value, s.server)))
                  else c
  }

  lemma CleanedInv(sys: Sys, ttl: nat, clock: Clock)
    requires SysInv(sys)
    ensures SysInv(Cleaned(sys, ttl, clock))
    ensures Cleaned(sys, ttl, clock).table.addr == sys.table.addr
    ensures Cleaned(sys, ttl, clock).table.ups.Keys <= sys.table.ups.Keys
  {
    hide Inv, Cleanup, DropAll, SweepOf, Owned;
    InvLists(sys.table);
    CleanupInv(sys.table, ttl, clock);
    CleanupOwned(sys.table, ttl, clock);
    DropAllHas(sys.held, Cleanup(sys.table, ttl, clock).1);
    CleanupKeys(sys.table, ttl, clock);
  }

  /** A fresh or reusable port is a triple no live link has. */
  lemma AddInv(c: Sys, s: Uplink, conn: Conn, reply: Reply, r: Result<u16, PortError>, now: nat)
    requires SysInv(c) && s !in c.table.ups && r.Ok? && Outcome(c.held, s.proto, s.server, reply, r)
    ensures SysInv(Sys(Insert(c.table, s, r.value, conn, now), Take(c.held, Triple(s.proto, r.value, s.server))))
  {
    hide Inv, Insert, Take, Owned;
    var t := Triple(s.proto, r.value, s.server);
    assert !Has(c.held, t);
    assert t == Link(s, AddrPort(c.table.addr, r.value)).Triple();
    TakeHas(c.held, t);
    InsertInv(c.table, s, r.value, conn, now);
    InsertOwned(c.table, s, r.value, conn, now);
  }

  lemma StepInv(ttl: nat, sys: Sys, op: Op, after: Sys)
    requires SysInv(sys) && Step(ttl, sys, op, after)
    ensures SysInv(after) && after.table.addr == sys.table.addr
  {
    hide Cleaned, Take, Owned, Lists, Distinct, Routed, Rooted;
    match op
    case Clean(clock) => CleanedInv(sys, ttl, clock);
    case Lookup(s, _) => LookupInv(sys, s);
    case Add(s, conn, reply, r, clock, now) =>
      CleanedInv(sys, ttl, clock);
      if r.Ok? {
        AddInv(Cleaned(sys, ttl, clock), s, conn, reply, r, now);
      }
  }

  lemma LookupInv(sys: Sys, s: Uplink)
    requires SysInv(sys) && (s in sys.table.ups ==> sys.table.ups[s].hits + 1 < PortWord.LOW)
    ensures SysInv(sys.(table := Touch(sys.table, s)))
  {
    hide Inv, Touch, Owned;
    TouchInv(sys.table, s);
    TouchLinks(sys.table, s);
  }

  // Runs

  ghost predicate Run(addr: Addr, ttl: nat, ops: seq<Op>, run: seq<Sys>) {
    && |run| == |ops| + 1
    && run[0] == Sys(Table(addr, map[], [], map[]), map[])
    && forall i :: 0 <= i < |ops| ==> SysInv(run[i]) ==> Step(ttl, run[i], ops[i], run[i + 1])
  }

  /** Safety of every run: maps in step, queue complete, reservations exactly the live triples. */
  lemma {:induction false} RunInv(addr: Addr, ttl: nat, ops: seq<Op>, run: seq<Sys>, i: nat)
    requires Run(addr, ttl, ops, run) && i < |run|
    ensures SysInv(run[i]) && run[i].table.addr == addr
  {
    if i == 0 {
      assert multiset(UpsOf([])) == multiset{};
      assert run[0].table.ups.Keys == {};
    } else {
      RunInv(addr, ttl, ops, run, i - 1);
      StepInv(ttl, run[i - 1], ops[i - 1], run[i]);
    }
  }

  /** Link u has the same local port and the same route in both tables. */
  ghost predicate SameRoute(t: Table, after: Table, u: Uplink) {
    && u in t.ups && u in after.ups
    && after.LinkOf(u) == t.LinkOf(u)
    && t.LinkOf(u).Down() in t.downs && t.LinkOf(u).Down() in after.downs
    && after.downs[t.LinkOf(u).Down()] == t.downs[t.LinkOf(u).Down()]
  }

  lemma CleanRoute(t: Table, ttl: nat, clock: Clock, u: Uplink)
    requires Inv(t) && u in Cleanup(t, ttl, clock).0.ups
    ensures SameRoute(t, Cleanup(t, ttl, clock).0, u)
  {
    hide Lists, SweepOf, Distinct, Cleanup, Rooted;
    CleanupInv(t, ttl, clock);
    CleanupKept(t, ttl, clock, u);
    assert Routed(t, u) && Routed(Cleanup(t, ttl, clock).0, u);
  }

  lemma InsertRoute(c: Table, s: Uplink, port: u16, conn: Conn, now: nat, u: Uplink)
    requires Inv(c) && s !in c.ups && u in c.ups
    requires Link(s, AddrPort(c.addr, port)).Triple() !in Owned(c)
    ensures SameRoute(c, Insert(c, s, port, conn, now), u)
  {
    hide Lists, Distinct, Owned, Rooted;
    InsertLinks(c, s, port, conn, now);
    assert Routed(c, u);
  }

  lemma SameRouteTransitive(a: Table, b: Table, c: Table, u: Uplink)
    requires SameRoute(a, b, u) && SameRoute(b, c, u)
    ensures SameRoute(a, c, u)
  {
  }

  lemma AddRoute(sys: Sys, ttl: nat, op: Op, after: Sys, u: Uplink)
    requires SysInv(sys) && op.Add? && Step(ttl, sys, op, after) && u in sys.table.ups && u in after.table.ups
    ensures SameRoute(sys.table, after.table, u)
  {
    hide Distinct, Cleanup, Owned;
    var c := Cleaned(sys, ttl, op.clock);
    CleanedInv(sys, ttl, op.clock);
    assert u != op.s;
    CleanRoute(sys.table, ttl, op.clock, u);
    if op.r.Ok? {
      assert !Has(c.held, Link(op.s, AddrPort(c.table.addr, op.r.value)).Triple());
      InsertRoute(c.table, op.s, op.r.value, op.conn, op.now, u);
      SameRouteTransitive(sys.table, c.table, after.table, u);
    }
  }

  /** A link live on both sides of a step has the same route on both. */
  lemma StepRoute(ttl: nat, sys: Sys, op: Op, after: Sys, u: Uplink)
    requires SysInv(sys) && Step(ttl, sys, op, after) && u in sys.table.ups && u in after.table.ups
    ensures SameRoute(sys.table, after.table, u)
  {
    hide Lists, Distinct, Owned, Cleanup, Insert;
    match op
    case Lookup(_, _) => assert Routed(sys.table, u);
    case Clean(clock) => CleanRoute(sys.table, ttl, clock, u);
    case Add(_, _, _, _, _, _) => AddRoute(sys, ttl, op, after, u);
  }

  // Runs with a clock

  /** All readings and stamps of a call lie between two times, its own stamp last. */
  ghost predicate TimedOp(op: Op, lo: nat, hi: nat) {
    lo <= hi &&
    match op
    case Clean(clock) => Between(clock, lo, hi)
    case Lookup(_, _) => true
    case Add(_, _, _, _, clock, now) => Between(clock, lo, now) && now <= hi
  }

  ghost predicate Timed(ops: seq<Op>, times: seq<nat>) {
    |times| == |ops| + 1 && forall i :: 0 <= i < |ops| ==> TimedOp(ops[i], times[i], times[i + 1])
  }

  lemma StampedLater(s: seq<TtlKey>, lo: nat, hi: nat)
    requires Stamped(s, lo) && lo <= hi
    ensures Stamped(s, hi)
  {
  }

  lemma StampedAppend(s: seq<TtlKey>, u: Uplink, now: nat)
    requires Stamped(s, now)
    ensures Stamped(s + [TtlKey(u, now)], now)
  {
  }

  lemma StepStamped(ttl: nat, sys: Sys, op: Op, after: Sys, lo: nat, hi: nat)
    requires SysInv(sys) && Step(ttl, sys, op, after) && TimedOp(op, lo, hi) && Stamped(sys.table.queue, lo)
    ensures Stamped(after.table.queue, hi)
  {
    hide Inv, Cleanup, Stamped, Owned, DropAll, Outcome, Take;
    InvLists(sys.table);
    match op
    case Clean(clock) => CleanupStamped(sys.table, ttl, clock, lo, hi);
    case Lookup(s, _) => StampedLater(sys.table.queue, lo, hi);
    case Add(s, _, _, r, clock, now) =>
      CleanupStamped(sys.table, ttl, clock, lo, now);
      var c := Cleaned(sys, ttl, clock).table.queue;
      StampedAppend(c, s, now);
      StampedLater(after.table.queue, now, hi);
  }

  /** With a clock that never goes back, the queue is sorted by stamp in every state of every run. */
  lemma {:induction false} RunStamped(addr: Addr, ttl: nat, ops: seq<Op>, run: seq<Sys>, times: seq<nat>, i: nat)
    requires Run(addr, ttl, ops, run) && Timed(ops, times) && i < |run|
    ensures Stamped(run[i].table.queue, times[i])
  {
    hide SysInv, Step, TimedOp;
    if i > 0 {
      RunStamped(addr, ttl, ops, run, times, i - 1);
      RunInv(addr, ttl, ops, run, i - 1);
      StepStamped(ttl, run[i - 1], ops[i - 1], run[i], times[i - 1], times[i]);
    }
  }

  function ClockOf(op: Op): Clock
    requires !op.Lookup?
  {
    op.clock
  }

  /** In every such run, a pass that stops at a valid entry leaves nothing past its time behind. */
  lemma RunStops(addr: Addr, ttl: nat, ops: seq<Op>, run: seq<Sys>, times: seq<nat>, i: nat, k: nat)
    requires Run(addr, ttl, ops, run) && Timed(ops, times) && i < |ops| && !ops[i].Lookup?
    requires k < |run[i].table.queue| && run[i].table.queue[k].Valid()
    requires StopsAt(run[i].table, ttl, ClockOf(ops[i]), k)
    ensures SysInv(run[i])
    ensures forall e :: e in Cleaned(run[i], ttl, ClockOf(ops[i])).table.queue ==>
              !e.Expired(ClockOf(ops[i])(2 * k), ttl)
  {
    hide Inv, Step, Cleanup, StopsAt, Stamped, Owned, DropAll;
    RunInv(addr, ttl, ops, run, i);
    InvLists(run[i].table);
    RunStamped(addr, ttl, ops, run, times, i);
    assert TimedOp(ops[i], times[i], times[i + 1]);
    var hi := if ops[i].Clean? then times[i + 1] else ops[i].now;
    CleanupStamped(run[i].table, ttl, ClockOf(ops[i]), times[i], hi);
  }

  // Passes that leave something behind

  lemma FirstStep(addr: Addr, ttl: nat, s: Uplink, add: Op) returns (after: Sys)
    requires add.Add? && add.s == s && add.r.Ok? && add.r.value != 0 && add.reply == Bound(add.r.value)
    requires s.server.IsValid() && (s.proto == TCP || s.proto == UDP)
    ensures var empty := Sys(Table(addr, map[], [], map[]), map[]);
            SysInv(empty) && Step(ttl, empty, add, after) && SysInv(after) && s in after.table.ups
    ensures after.table.ups == map[s := Cell(add.r.value, 0)] && after.table.queue == [TtlKey(s, add.now)]
    ensures after.held == map[PortKey(s.proto, add.r.value) := {s.server}]
  {
    var empty := Sys(Table(addr, map[], [], map[]), map[]);
    assert multiset(UpsOf([])) == multiset{};
    assert empty.table.ups.Keys == {};
    assert Cleaned(empty, ttl, add.clock) == empty by { assert empty.table.downs - {} == map[]; }
    after := Sys(Insert(empty.table, s, add.r.value, add.conn, add.now),
                 Take(map[], Triple(s.proto, add.r.value, s.server)));
    StepInv(ttl, empty, add, after);
    var none: set<AddrPort> := {};
    assert none + {s.server} == {s.server};
  }

  /** A pass over one entry that is not past its time stamps it again and takes nothing. */
  lemma CleanYoung(t: Table, s: Uplink, start: nat, ttl: nat, clock: Clock)
    requires Lists(t.queue, t.ups) && t.queue == [TtlKey(s, start)] && !t.queue[0].Expired(clock(0), ttl)
    ensures Cleanup(t, ttl, clock) == (t.(queue := [TtlKey(s, clock(1))]), [])
  {
    assert t.queue[0..] + [] == t.queue && t.queue[1..] + ([] + [TtlKey(s, clock(1))]) == [TtlKey(s, clock(1))];
    assert DownSet([]) == {} && t.downs - DownSet([]) == t.downs;
  }

  function At(now: nat): Clock { _ => now }

  /** A second Add for the same remote, before the first link has expired, takes a port of its own. */
  lemma SecondAdd(sys: Sys, a: Uplink, add: Op) returns (after: Sys)
    requires SysInv(sys) && add.Add? && add.s != a && add.r.Ok? && add.r.value == 5001 && add.reply == Bound(5001)
    requires add.clock == At(1) && add.now == 1 && add.s.proto == UDP == a.proto && add.s.server == a.server
    requires a.server.IsValid() && sys.table.ups == map[a := Cell(5000, 0)] && sys.table.queue == [TtlKey(a, 1)]
    requires sys.held == map[PortKey(UDP, 5000) := {a.server}]
    ensures Step(30, sys, add, after) && SysInv(after)
    ensures after.table.ups == map[a := Cell(5000, 0)][add.s := Cell(5001, 0)]
    ensures after.table.queue == [TtlKey(a, 1), TtlKey(add.s, 1)]
  {
    hide Inv, Lists, Cleanup, Take, Owned;
    InvLists(sys.table);
    CleanYoung(sys.table, a, 1, 30, At(1));
    assert Cleaned(sys, 30, At(1)) == sys;
    after := Sys(Insert(sys.table, add.s, 5001, add.conn, 1), Take(sys.held, Triple(UDP, 5001, a.server)));
    AddInv(sys, add.s, add.conn, add.reply, add.r, 1);
  }

  /** A run from an empty manager whose last pass finds two links, both idle and past their time, and
      takes only the first. */
  lemma OneLeft() returns (ops: seq<Op>, run: seq<Sys>)
    ensures |ops| == 3 && Run(V4(1), 30, ops, run) && SysInv(run[2]) && ops[2].Clean?
    ensures var t := run[2].table;
            && |t.queue| == 2 && (forall k :: 0 <= k < 2 ==> Due(t, 30, ops[2].clock, k))
            && t.queue[0].up !in run[3].table.ups && t.queue[1].up in run[3].table.ups
  {
    hide SysInv, Step, Insert, Take, Cleanup;
    var a := Uplink(AddrPort(V4(7), 1000), UDP, AddrPort(V4(8), 53));
    var b := a.(process := AddrPort(V4(7), 1001));
    var add := Add(a, 1, Bound(5000), Ok(5000), At(1), 1);
    var more := Add(b, 1, Bound(5001), Ok(5001), At(1), 1);
    var empty := Sys(Table(V4(1), map[], [], map[]), map[]);
    var first := FirstStep(V4(1), 30, a, add);
    var second := SecondAdd(first, a, more);
    ops := [add, more, Clean(At(100))];
    LatePass(second, 30, At(100));
    run := [empty, first, second, Cleaned(second, 30, At(100))];
  }

  lemma LatePass(sys: Sys, ttl: nat, clock: Clock)
    requires SysInv(sys) && |sys.table.queue| == 2 && forall k :: 0 <= k < 2 ==> Due(sys.table, ttl, clock, k)
    ensures Lists(sys.table.queue, sys.table.ups)
    ensures Step(ttl, sys, Clean(clock), Cleaned(sys, ttl, clock))
    ensures sys.table.queue[0].up !in Cleaned(sys, ttl, clock).table.ups
    ensures sys.table.queue[1].up in Cleaned(sys, ttl, clock).table.ups
  {
    hide Inv, Cleanup;
    InvLists(sys.table);
    CleanupHalf(sys.table, ttl, clock);
    CleanedInv(sys, ttl, clock);
  }
}
