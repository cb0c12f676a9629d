/** The interleaved model against the sequential one: every run of one link manager, call after call, is what a
    single thread does through its locked sections. */
module Alone {
  import opened Net
  import opened PortPool
  import opened LinkTable
  import opened LinkRuns
  import opened Interleaving
  import opened InterleavedRuns
  import opened Races

  /** One shard and one idle thread, with a socket open for every reserved port and no other. */
  ghost predicate Still(w: World) {
    w.mutx == 1 && |w.queues| == 1 && Listed(w) && w.pcs == [Idle] && w.open == w.held.Keys
  }

  /** The state the calls of the sequential model work on. */
  function Seen(w: World): Sys
    requires |w.queues| == 1
  {
    Sys(Table(w.addr, w.ups, w.queues[0], w.downs), w.held)
  }

  lemma ShardIsAll(w: World)
    requires w.mutx == 1 && |w.queues| == 1 && Listed(w)
    ensures w.Shard(0) == Seen(w).table && Lists(w.queues[0], w.ups)
    ensures forall part :: Swapped(w, 0, part) == part
  {
    OnePart(w.ups);
    ShardLists(w, 0);
    forall part ensures Swapped(w, 0, part) == part {
      assert w.ups - w.ups.Keys == map[];
    }
  }

  /** A lookup. */
  lemma LookupAlone(w: World, ms: seq<Move>, x: World, u: Uplink) returns (longer: seq<Move>, y: World)
    requires Reaches(w, ms, x, false) && Still(x) && Enabled(x, 0, Hit(u))
    ensures Reaches(w, longer, y, false) && Still(y) && Seen(y) == Seen(x).(table := Touch(Seen(x).table, u))
  {
    hide Listed, Reaches;
    longer, y := Extend(w, ms, x, Move(0, Hit(u)), false);
  }

  /** DelPort for one link after the other. */
  lemma {:induction false} ReleaseAlone(w: World, ms: seq<Move>, x: World, ls: seq<Link>)
    returns (longer: seq<Move>, y: World)
    requires Reaches(w, ms, x, false) && Listed(x) && x.pcs == [Remaining(ls)] && x.open == x.held.Keys
    ensures Reaches(w, longer, y, false) && Listed(y)
    ensures y == x.(held := DropAll(x.held, ls), open := y.open, pcs := [Idle]) && y.open == y.held.Keys
    decreases |ls|
  {
    hide Listed, Reaches, Drop;
    longer, y := ms, x;
    if ls != [] {
      var m1, x1 := Extend(w, ms, x, Move(0, Release), false);
      var t := ls[0].Triple();
      DropKeysExactly(x.held, t);
      if t.Key() in x1.held {
        longer, y := ReleaseAlone(w, m1, x1, ls[1..]);
      } else {
        var m2, x2 := Extend(w, m1, x1, Move(0, Close), false);
        longer, y := ReleaseAlone(w, m2, x2, ls[1..]);
      }
    }
  }

  lemma DropKeysExactly(h: Held, t: Triple)
    ensures Drop(h, t).Keys == h.Keys || Drop(h, t).Keys == h.Keys - {t.Key()}
    ensures t.Key() !in Drop(h, t) ==> Drop(h, t).Keys == h.Keys - {t.Key()}
    ensures t.Key() in Drop(h, t) ==> Drop(h, t).Keys == h.Keys
  {
  }

  /** A whole Cleanup: its three sections and its DelPorts. */
  lemma CleanAlone(w: World, ms: seq<Move>, x: World, ttl: nat, clock: Clock) returns (longer: seq<Move>, y: World)
    requires Reaches(w, ms, x, false) && Still(x) && Lists(Seen(x).table.queue, Seen(x).table.ups)
    ensures Reaches(w, longer, y, false) && Still(y) && Seen(y) == Cleaned(Seen(x), ttl, clock)
  {
    hide Listed, Lists, Reaches, DropAll, LinkTable.Sweep;
    ShardIsAll(x);
    var r := SweepAll(x.Shard(0), ttl, clock);
    var m1, x1 := Extend(w, ms, x, Move(0, Sweep(0, ttl, clock)), false);
    assert x1.ups == r.ups && x1.queues == [r.queue];
    if r.links == [] {
      NothingDropped(x.held, x.downs);
      longer, y := m1, x1;
    } else {
      var m2, x2 := Extend(w, m1, x1, Move(0, DropDowns), false);
      longer, y := ReleaseAlone(w, m2, x2, r.links);
    }
  }

  lemma NothingDropped(h: Held, downs: map<Downlink, DownKey>)
    ensures DropAll(h, []) == h && downs - DownSet([]) == downs
  {
    assert DownSet([]) == {};
  }

  /** GetPort and the two sections of Add. */
  lemma InsertAlone(w: World, ms: seq<Move>, x: World, op: Op) returns (longer: seq<Move>, y: World)
    requires Reaches(w, ms, x, false) && Still(x) && op.Add? && op.r.Ok? && op.s !in x.ups
    requires Outcome(x.held, op.s.proto, op.s.server, op.reply, op.r)
    ensures Reaches(w, longer, y, false) && Still(y)
    ensures Seen(y) == Sys(Insert(Seen(x).table, op.s, op.r.value, op.conn, op.now),
                           Take(x.held, Triple(op.s.proto, op.r.value, op.s.server)))
  {
    hide Listed, Reaches, Take;
    var s, port := op.s, op.r.value;
    OnePart(x.ups);
    TakeKeys(x.held, Triple(s.proto, port, s.server));
    var m2, x2 := PortAlone(w, ms, x, op);
    var m3, x3 := Extend(w, m2, x2, Move(0, Commit), false);
    var m4, x4 := Extend(w, m3, x3, Move(0, InsertUp(op.now)), false);
    longer, y := Extend(w, m4, x4, Move(0, InsertDown), false);
    assert ShardOf(1, s) == 0 && y.queues == [x.queues[0] + [TtlKey(s, op.now)]];
  }

  /** GetPort before it takes the table's lock: a port to reuse, or a fresh socket. */
  lemma PortAlone(w: World, ms: seq<Move>, x: World, op: Op) returns (longer: seq<Move>, y: World)
    requires Reaches(w, ms, x, false) && Still(x) && op.Add? && op.r.Ok?
    requires Outcome(x.held, op.s.proto, op.s.server, op.reply, op.r)
    ensures Reaches(w, longer, y, false) && Listed(y)
    ensures y == x.(open := x.held.Keys + {PortKey(op.s.proto, op.r.value)}, pcs := y.pcs)
    ensures |y.pcs| == 1 && y.pcs[0] in {Chosen(op.s, op.conn, op.r.value), Opened(op.s, op.conn, op.r.value)}
  {
    hide Listed, Reaches;
    var s, port := op.s, op.r.value;
    if AnyReusable(x.held, s.proto, s.server) {
      longer, y := Extend(w, ms, x, Move(0, Choose(s, op.conn, port)), false);
    } else {
      var m1, x1 := Extend(w, ms, x, Move(0, Look(s, op.conn)), false);
      longer, y := Extend(w, m1, x1, Move(0, Bind(port)), false);
    }
  }

  /** One call of the sequential model, done by a thread alone. */
  lemma StepAlone(w: World, ms: seq<Move>, x: World, ttl: nat, op: Op, after: Sys) returns (longer: seq<Move>, y: World)
    requires Reaches(w, ms, x, false) && Still(x) && SysInv(Seen(x)) && Step(ttl, Seen(x), op, after)
    ensures Reaches(w, longer, y, false) && Still(y) && Seen(y) == after
  {
    hide Listed, Reaches, Cleaned, Inv, Touch, Insert, Take, Outcome, Lists;
    InvLists(Seen(x).table);
    match op
    case Clean(clock) => longer, y := CleanAlone(w, ms, x, ttl, clock);
    case Lookup(s, _) =>
      HitEnabled(x, s);
      longer, y := LookupAlone(w, ms, x, s);
    case Add(s, conn, reply, r, clock, now) =>
      longer, y := CleanAlone(w, ms, x, ttl, clock);
      CleanedInv(Seen(x), ttl, clock);
      if r.Ok? {
        longer, y := InsertAlone(w, longer, y, op);
      }
  }

  lemma HitEnabled(x: World, s: Uplink)
    requires Still(x) && (s in x.ups ==> x.ups[s].hits + 1 < 0x1_0000_0000_0000)
    ensures Enabled(x, 0, Hit(s))
  {
  }

  /** Every run of the sequential model, in which call follows call, is a run of the interleaved one: whatever the
      sequential theorems say of a state, a thread reaches it through its locked sections. */
  lemma {:induction false} RunAlone(addr: Addr, ttl: nat, ops: seq<Op>, run: seq<Sys>, n: nat)
    returns (moves: seq<Move>, w: World)
    requires Run(addr, ttl, ops, run) && n < |run|
    ensures Reaches(Start(1, 1, addr, 1), moves, w, false) && Still(w) && Seen(w) == run[n]
  {
    hide Still, Reaches, Step, SysInv;
    if n == 0 {
      moves, w := [], Start(1, 1, addr, 1);
      ReachesNone(w, false);
      StartStill(addr);
    } else {
      moves, w := RunAlone(addr, ttl, ops, run, n - 1);
      RunInv(addr, ttl, ops, run, n - 1);
      moves, w := StepAlone(Start(1, 1, addr, 1), moves, w, ttl, ops[n - 1], run[n]);
    }
  }

  lemma StartStill(addr: Addr)
    ensures Still(Start(1, 1, addr, 1)) && Seen(Start(1, 1, addr, 1)) == Sys(Table(addr, map[], [], map[]), map[])
  {
    hide Listed;
    StartInv(1, 1, addr, 1);
    InvListed(Start(1, 1, addr, 1));
  }

  lemma InvListed(w: World)
    requires WorldInv(w)
    ensures Listed(w)
  {
  }
}
