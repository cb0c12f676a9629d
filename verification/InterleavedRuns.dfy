/** Runs of the interleaved threads: when a step is unsafe, what safe runs guarantee, and the races. */
module InterleavedRuns {
  import opened Net
  import opened PortPool
  import opened LinkTable
  import opened Sharding
  import opened Interleaving

  /** What the code would have to check, and does not. A commit needs an open socket and a free triple, a
      new link an uplink that is not live, a route a link that is its Add's own, a release a link without
      a route, and a close a port that nobody has reserved again. */
  ghost predicate Guard(w: World, i: nat, a: Action)
    requires Enabled(w, i, a)
  {
    match a
    case Commit => Sound(w, i)
    case InsertUp(_) => w.pcs[i].s !in w.ups
    case InsertDown => OwnRoute(w, i)
    case Release => w.pcs[i].ls[0].Down() !in w.downs
    case Close => w.pcs[i].k !in w.held
    case _ => true
  }

  lemma StepKeeps(w: World, i: nat, a: Action)
    requires WorldInv(w) && Enabled(w, i, a) && Guard(w, i, a)
    ensures WorldInv(Next(w, i, a))
  {
    hide WorldInv, Next, Sound, OwnRoute;
    match a
    case Choose(_, _, _) => StartKeeps(w, i, a);
    case Look(_, _) => StartKeeps(w, i, a);
    case Bind(port) => BindKeeps(w, i, port);
    case Fail => StartKeeps(w, i, a);
    case Commit => CommitKeeps(w, i);
    case InsertUp(now) => InsertUpKeeps(w, i, now);
    case InsertDown => InsertDownKeeps(w, i);
    case Hit(u) => HitKeeps(w, i, u);
    case Sweep(k, ttl, clock) => SweepKeeps(w, i, k, ttl, clock);
    case DropDowns => DropDownsKeeps(w, i);
    case Release => ReleaseKeeps(w, i);
    case Close => CloseKeeps(w, i);
  }

  lemma InvSafe(w: World)
    requires WorldInv(w)
    ensures Safe(w)
  {
    hide Listed, NonEmpty, Claimed, Owned, Distinct, RoutedTo, InsertedBy;
    forall u | u in w.ups ensures w.LinkOf(u).Triple() in Owned(w.Flat()) && UpOk(w, u) {
      OwnedHas(w.Flat(), u);
    }
    forall u, j | u in w.ups && 0 <= j < |w.pcs| ensures w.LinkOf(u).Triple() !in w.pcs[j].Claim() {
      assert ThreadOk(w.Flat(), w.pcs[j]);
    }
    forall t, j | 0 <= j < |w.pcs| && t in w.pcs[j].Claim() ensures Has(w.held, t) {
      ClaimedBy(w.pcs, j, t);
    }
  }

  /** From a state in order, any step of any thread leads to a safe state if and only if what the code
      leaves unchecked happens to hold at that moment. */
  lemma StepExact(w: World, i: nat, a: Action)
    requires WorldInv(w) && Enabled(w, i, a)
    ensures Safe(Next(w, i, a)) <==> Guard(w, i, a)
  {
    hide WorldInv, Next, Safe;
    if Guard(w, i, a) {
      StepKeeps(w, i, a);
      InvSafe(Next(w, i, a));
    } else {
      match a
      case Commit => StaleCommit(w, i);
      case InsertUp(now) => SecondInsert(w, i, now);
      case InsertDown => StrayRoute(w, i);
      case Release => EarlyRelease(w, i);
      case Close => EarlyClose(w, i);
      case _ =>
    }
  }

  lemma StaleCommit(w: World, i: nat)
    requires WorldInv(w) && Enabled(w, i, Commit) && !Sound(w, i)
    ensures !Safe(Next(w, i, Commit))
  {
    hide Listed, Distinct, Owned, Claimed, DownsOk, UpsOk, Take, NonEmpty, ThreadsOk, Pairs, RoutedTo;
    var after, t := Next(w, i, Commit), w.pcs[i].Wanted();
    TakeKeys(w.held, t);
    assert t in after.pcs[i].Claim();
    if Has(w.held, t) {
      if t in Owned(w.Flat()) {
        OwnerOf(w.Flat(), t);
      } else {
        ClaimantOf(w.pcs, t);
        var j: nat :| j < |w.pcs| && t in w.pcs[j].Claim();
        assert after.pcs[j] == w.pcs[j] && t in after.pcs[j].Claim();
      }
    } else {
      assert t.Key() in after.held && t.Key() !in after.open;
    }
  }

  lemma OwnerOf(t: Table, r: Triple)
    requires r in Owned(t)
    ensures exists u :: u in t.ups && t.LinkOf(u).Triple() == r
  {
  }

  lemma ClaimantOf(pcs: seq<Pc>, t: Triple)
    requires Claimed(pcs, t)
    ensures exists j: nat :: j < |pcs| && t in pcs[j].Claim()
  {
    var j :| 0 <= j < |pcs| && t in pcs[j].Claim();
    assert (j as nat) < |pcs|;
  }

  /** A live uplink inserted again is queued twice, and the pass that pops its second entry finds no
      link. */
  lemma SecondInsert(w: World, i: nat, now: nat)
    requires Enabled(w, i, InsertUp(now)) && w.pcs[i].s in w.ups
    ensures !Listed(Next(w, i, InsertUp(now))) && !Safe(Next(w, i, InsertUp(now)))
  {
    hide Lists;
    var s := w.pcs[i].s;
    var k := ShardOf(w.mutx, s);
    var after := Next(w, i, InsertUp(now));
    assert s in Part(w.mutx, w.ups, k) && Lists(w.queues[k], Part(w.mutx, w.ups, k));
    QueuedTwice(w.queues[k], Part(w.mutx, w.ups, k), Part(w.mutx, after.ups, k), s, now);
  }

  lemma QueuedTwice(q: seq<TtlKey>, ups: Ups, vps: Ups, s: Uplink, now: nat)
    requires Lists(q, ups) && s in ups
    ensures !Lists(q + [TtlKey(s, now)], vps)
  {
    UpsOfConcat(q, [TtlKey(s, now)]);
    assert UpsOf([TtlKey(s, now)]) == [s];
    assert multiset(UpsOf(q + [TtlKey(s, now)])) == multiset(UpsOf(q)) + multiset{s};
    assert multiset(UpsOf(q))[s] == 1 && multiset(vps.Keys)[s] <= 1;
  }

  /** Nothing but a second insertion of a live uplink, by any thread in any state, spoils the queues. */
  lemma ListedExact(w: World, i: nat, a: Action)
    requires Enabled(w, i, a)
    ensures Listed(Next(w, i, a)) <==> (a.InsertUp? ==> w.pcs[i].s !in w.ups)
  {
    hide Lists, Part, Take, Drop, SweepAll, Swapped, Reusable, AnyReusable;
    match a
    case InsertUp(now) =>
      if w.pcs[i].s in w.ups {
        SecondInsert(w, i, now);
      } else {
        InsertListed(w, i, now);
      }
    case Sweep(k, ttl, clock) => PassListed(w, i, k, ttl, clock);
    case _ => SameListed(w, Next(w, i, a));
  }

  lemma PassListed(w: World, i: nat, k: nat, ttl: nat, clock: Clock)
    requires Enabled(w, i, Sweep(k, ttl, clock))
    ensures Listed(Next(w, i, Sweep(k, ttl, clock)))
  {
    hide Lists, Part, Swapped, PoppedExpired;
    var t := w.Shard(k);
    assert t.queue[0..] + [] == t.queue;
    var gone := SweepRemoves(t.addr, ttl, clock, t.queue, t.ups, 0, [], []);
    SweptListed(w, k, SweepAll(t, ttl, clock));
  }

  lemma StrayRoute(w: World, i: nat)
    requires WorldInv(w) && Enabled(w, i, InsertDown) && !OwnRoute(w, i)
    ensures !Safe(Next(w, i, InsertDown))
  {
    hide Listed, Distinct, NonEmpty, Owned, CoverOk, OpenOk, DownsOk, UpsOk, ThreadsOk, Pairs, InsertedBy;
    var was, after := w.pcs[i], Next(w, i, InsertDown);
    var d := DownOf(w, was);
    assert d in after.downs && DownTriple(d) == was.Wanted();
    if Has(w.held, was.Wanted()) {
      var u :| u in w.ups && w.LinkOf(u).Triple() == was.Wanted() && !MayRoute(w, i, u);
      SameKeys(w.LinkOf(u), Link(was.s, AddrPort(w.addr, was.port)));
      assert !RoutedTo(after, u) && !InsertedBy(after.pcs, after.adders, u, after.ups[u].port);
    }
  }

  lemma EarlyRelease(w: World, i: nat)
    requires Enabled(w, i, Release) && w.pcs[i].ls[0].Down() in w.downs
    ensures !Safe(Next(w, i, Release))
  {
    hide Listed, Drop;
    DropHas(w.held, w.pcs[i].ls[0].Triple());
    assert DownTriple(w.pcs[i].ls[0].Down()) == w.pcs[i].ls[0].Triple();
  }

  lemma EarlyClose(w: World, i: nat)
    requires Enabled(w, i, Close) && w.pcs[i].k in w.held
    ensures !Safe(Next(w, i, Close))
  {
    assert w.pcs[i].k !in Next(w, i, Close).open;
  }

  // Runs

  datatype Move = Move(i: nat, a: Action)

  /** An empty server of mutx shards. */
  function Start(mutx: u8, shards: nat, addr: Addr, threads: nat): World {
    World(mutx, addr, map[], map[], seq(shards, _ => []), map[], {}, map[], map[], seq(threads, _ => Idle))
  }

  ghost predicate Moved(w: World, m: Move, after: World) {
    Enabled(w, m.i, m.a) && after == Next(w, m.i, m.a)
  }

  /** Any interleaving of any number of threads, on one shard or several. */
  ghost predicate WorldRun(start: World, moves: seq<Move>, run: seq<World>) {
    && |run| == |moves| + 1 && run[0] == start
    && forall k :: 0 <= k < |moves| ==> Moved(run[k], moves[k], run[k + 1])
  }

  ghost predicate Empty(w: World) {
    exists mutx, shards, addr, threads ::
      w == Start(mutx, shards, addr, threads) && 0 < mutx && mutx as int <= shards
  }

  ghost predicate GuardedTo(moves: seq<Move>, run: seq<World>, n: nat)
    requires n <= |moves| && |run| == |moves| + 1
  {
    forall k :: 0 <= k < n ==> Enabled(run[k], moves[k].i, moves[k].a) && Guard(run[k], moves[k].i, moves[k].a)
  }

  lemma StartInv(mutx: u8, shards: nat, addr: Addr, threads: nat)
    requires 0 < mutx && mutx as int <= shards
    ensures WorldInv(Start(mutx, shards, addr, threads))
  {
    var w := Start(mutx, shards, addr, threads);
    forall k | 0 <= k < shards ensures Lists(w.queues[k], Part(mutx, w.ups, k)) {
      assert multiset(UpsOf([])) == multiset{};
      assert Part(mutx, w.ups, k).Keys == {};
    }
  }

  /** The invariant holds in every state of a run up to its first unguarded step. */
  lemma {:induction false} WorldRunInv(start: World, moves: seq<Move>, run: seq<World>, n: nat)
    requires Empty(start) && WorldRun(start, moves, run) && n <= |moves| && GuardedTo(moves, run, n)
    ensures WorldInv(run[n]) && run[n].addr == start.addr && run[n].mutx == start.mutx
    ensures |run[n].pcs| == |start.pcs| && |run[n].queues| == |start.queues|
  {
    hide WorldInv, Enabled, Guard, Next;
    if n == 0 {
      var mutx, shards, addr, threads :|
        start == Start(mutx, shards, addr, threads) && 0 < mutx && mutx as int <= shards;
      StartInv(mutx, shards, addr, threads);
    } else {
      WorldRunInv(start, moves, run, n - 1);
      assert Moved(run[n - 1], moves[n - 1], run[n]);
      StepKeeps(run[n - 1], moves[n - 1].i, moves[n - 1].a);
      NextShape(run[n - 1], moves[n - 1].i, moves[n - 1].a);
    }
  }

  lemma NextShape(w: World, i: nat, a: Action)
    requires Enabled(w, i, a)
    ensures Next(w, i, a).addr == w.addr && Next(w, i, a).mutx == w.mutx
    ensures |Next(w, i, a).pcs| == |w.pcs| && |Next(w, i, a).queues| == |w.queues|
  {
    hide Lists, Take, Drop, SweepAll;
  }

  lemma {:induction false} SafeRunGuarded(start: World, moves: seq<Move>, run: seq<World>, n: nat)
    requires Empty(start) && WorldRun(start, moves, run) && n <= |moves|
    requires forall k :: 0 <= k <= n ==> Safe(run[k])
    ensures GuardedTo(moves, run, n)
  {
    hide Safe, Next, Enabled, Guard, Empty;
    if n > 0 {
      SafeRunGuarded(start, moves, run, n - 1);
      WorldRunInv(start, moves, run, n - 1);
      assert Moved(run[n - 1], moves[n - 1], run[n]);
      StepExact(run[n - 1], moves[n - 1].i, moves[n - 1].a);
    }
  }

  /** Every state of a run is safe if and only if every step of it was guarded. Nothing is assumed of the
      callers: Adds of one uplink may overlap, and links may expire inside their own Adds. */
  lemma SafeExactly(start: World, moves: seq<Move>, run: seq<World>)
    requires Empty(start) && WorldRun(start, moves, run)
    ensures (forall k :: 0 <= k < |run| ==> Safe(run[k])) <==> GuardedTo(moves, run, |moves|)
  {
    hide Safe, Enabled, Guard, WorldInv, Empty;
    if GuardedTo(moves, run, |moves|) {
      forall k | 0 <= k < |run| ensures Safe(run[k]) {
        assert GuardedTo(moves, run, k);
        WorldRunInv(start, moves, run, k);
        InvSafe(run[k]);
      }
    }
    if forall k :: 0 <= k < |run| ==> Safe(run[k]) {
      SafeRunGuarded(start, moves, run, |moves|);
    }
  }

  // No call in flight

  function DownPart(mutx: u8, downs: map<Downlink, DownKey>, k: nat): map<Downlink, DownKey> {
    map d | d in downs && ShardOf(mutx, Uplink(d.server, d.proto, d.server)) == k :: downs[d]
  }

  /** The shards one by one, each with its own maps and queue. */
  function Shards(w: World): seq<Table> {
    seq(|w.queues|, k requires 0 <= k < |w.queues| =>
      Table(w.addr, Part(w.mutx, w.ups, k), w.queues[k], DownPart(w.mutx, w.downs, k)))
  }

  /** When no call is in flight, the shards meet the sequential invariant in full. */
  lemma Quiescent(w: World)
    requires WorldInv(w) && forall i :: 0 <= i < |w.pcs| ==> w.pcs[i].Idle?
    ensures ShardsInv(w.mutx, w.addr, Shards(w)) && Exact(Shards(w), w.held) && w.open == w.held.Keys
  {
    hide Lists, NonEmpty, Distinct, Owned;
    assert forall t :: !Claimed(w.pcs, t);
    forall k | 0 <= k < |w.queues| ensures Inv(Shards(w)[k]) && InShard(w.mutx, k, Shards(w)[k]) {
      QuiescentShard(w, k);
    }
    forall r ensures r in Owned(w.Flat()) <==> r in AllOwned(Shards(w)) {
      OwnedInShards(w, r);
    }
    assert forall k :: k in w.open <==> k in w.held;
  }

  lemma OwnedInShards(w: World, r: Triple)
    requires Listed(w)
    ensures r in Owned(w.Flat()) <==> r in AllOwned(Shards(w))
  {
    hide Lists, Part, DownPart, Owned;
    if r in Owned(w.Flat()) {
      OwnerOf(w.Flat(), r);
      var u :| u in w.ups && w.LinkOf(u).Triple() == r;
      InOwnPart(w, u);
      var k := ShardOf(w.mutx, u);
      OwnedHas(Shards(w)[k], u);
      assert Shards(w)[k] == Table(w.addr, Part(w.mutx, w.ups, k), w.queues[k], DownPart(w.mutx, w.downs, k));
      assert Shards(w)[k].LinkOf(u) == w.LinkOf(u);
      assert r in AllOwned(Shards(w));
    }
    if r in AllOwned(Shards(w)) {
      var k :| 0 <= k < |w.queues| && r in Owned(Shards(w)[k]);
      OwnerOf(Shards(w)[k], r);
      var u :| u in Shards(w)[k].ups && Shards(w)[k].LinkOf(u).Triple() == r;
      PartOfWhole(w, k, u);
      assert w.LinkOf(u).Triple() == r;
      OwnedHas(w.Flat(), u);
    }
  }

  lemma InOwnPart(w: World, u: Uplink)
    requires u in w.ups
    ensures u in Part(w.mutx, w.ups, ShardOf(w.mutx, u)) && Part(w.mutx, w.ups, ShardOf(w.mutx, u))[u] == w.ups[u]
  {
  }

  lemma PartOfWhole(w: World, k: nat, u: Uplink)
    requires u in Part(w.mutx, w.ups, k)
    ensures u in w.ups && Part(w.mutx, w.ups, k)[u] == w.ups[u] && ShardOf(w.mutx, u) == k
  {
  }

  lemma QuiescentShard(w: World, k: nat)
    requires WorldInv(w) && k < |w.queues| && forall i :: 0 <= i < |w.pcs| ==> w.pcs[i].Idle?
    ensures Inv(Shards(w)[k]) && InShard(w.mutx, k, Shards(w)[k])
  {
    hide Lists, NonEmpty, OpenOk, Pairs, ThreadsOk;
    var t := Shards(w)[k];
    forall u | u in t.ups ensures Routed(t, u) && u.server.IsValid() {
      assert UpOk(w, u) && t.LinkOf(u) == w.LinkOf(u);
    }
    forall d | d in t.downs ensures Rooted(t, d) {
      assert DownTriple(d) in Owned(w.Flat());
      var u :| u in w.ups && w.LinkOf(u).Triple() == DownTriple(d);
      assert UpOk(w, u) && w.LinkOf(u).Down() == d;
      assert u in t.ups && t.LinkOf(u).Down() == d;
    }
  }

  // Where replies go

  /** No guarded step changes who made a live link, nor its port, nor gives it another route to store or
      touches the one its own Add has stored. */
  lemma RouteStep(w: World, i: nat, a: Action, u: Uplink)
    requires WorldInv(w) && Enabled(w, i, a) && Guard(w, i, a)
    requires u in w.ups && u in w.makers && u in w.adders && u in Next(w, i, a).ups
    ensures var after := Next(w, i, a);
            && after.ups[u].port == w.ups[u].port && u in after.makers && after.makers[u] == w.makers[u]
            && u in after.adders && after.adders[u] == w.adders[u]
            && (!InsertedBy(w.pcs, w.adders, u, w.ups[u].port) ==>
                  !InsertedBy(after.pcs, after.adders, u, w.ups[u].port) && RoutedTo(w, u) && RoutedTo(after, u))
  {
    hide WorldInv, Lists, Owned, Distinct, Take, Drop, SweepAll, Swapped, Part, Reusable, AnyReusable, RoutedTo;
    var after := Next(w, i, a);
    InvUp(w, u);
    if a.Sweep? {
      SweepEffect(w, a.k, a.ttl, a.clock);
      assert Kept(w.ups[u], after.ups[u]);
    }
    StepKeeps(w, i, a);
    InvUp(after, u);
  }

  lemma InvUp(w: World, u: Uplink)
    requires WorldInv(w) && u in w.ups
    ensures Distinct(w.addr, w.ups) && (RoutedTo(w, u) || InsertedBy(w.pcs, w.adders, u, w.ups[u].port))
  {
    assert UpOk(w, u);
  }

  lemma InsertMakes(w: World, i: nat, now: nat)
    requires Enabled(w, i, InsertUp(now))
    ensures var after, pc := Next(w, i, InsertUp(now)), w.pcs[i];
            && pc.s in after.ups && after.ups[pc.s].port == pc.port
            && pc.s in after.makers && after.makers[pc.s] == pc.conn
            && pc.s in after.adders && after.adders[pc.s] == i
  {
    hide Listed;
  }

  /** A link keeps its port and its maker for as long as it lives. */
  lemma {:induction false} MakerLasts(start: World, moves: seq<Move>, run: seq<World>, m: nat, n: nat)
    requires Empty(start) && WorldRun(start, moves, run) && m < n <= |moves| && GuardedTo(moves, run, n)
    requires moves[m].a.InsertUp?
    requires forall x :: m < x <= n ==> run[m].pcs[moves[m].i].s in run[x].ups
    ensures var pc := run[m].pcs[moves[m].i];
            && run[n].ups[pc.s].port == pc.port && pc.s in run[n].makers && run[n].makers[pc.s] == pc.conn
            && pc.s in run[n].adders && run[n].adders[pc.s] == moves[m].i
  {
    hide Next, WorldInv, Listed, Guard, Empty, RoutedTo;
    assert Moved(run[n - 1], moves[n - 1], run[n]);
    if n == m + 1 {
      InsertMakes(run[m], moves[m].i, moves[m].a.now);
    } else {
      MakerLasts(start, moves, run, m, n - 1);
      WorldRunInv(start, moves, run, n - 1);
      RouteStep(run[n - 1], moves[n - 1].i, moves[n - 1].a, run[m].pcs[moves[m].i].s);
    }
  }

  lemma StoreEnds(w: World, i: nat, u: Uplink, p: u16)
    requires Enabled(w, i, InsertDown) && u in w.adders && w.adders[u] == i
    ensures var after := Next(w, i, InsertDown);
            !InsertedBy(after.pcs, after.adders, u, p)
  {
    hide Listed;
  }

  /** From the second section of its own Add on, nothing is left to store for a link while it lives. */
  lemma {:induction false} StoredLasts(start: World, moves: seq<Move>, run: seq<World>, m: nat, e: nat, n: nat)
    requires Empty(start) && WorldRun(start, moves, run) && m < e < n <= |moves| && GuardedTo(moves, run, n)
    requires moves[m].a.InsertUp? && moves[e] == Move(moves[m].i, InsertDown)
    requires forall x :: m < x <= n ==> run[m].pcs[moves[m].i].s in run[x].ups
    ensures var pc := run[m].pcs[moves[m].i];
            !InsertedBy(run[n].pcs, run[n].adders, pc.s, pc.port)
  {
    hide Next, WorldInv, Listed, Guard, Empty, InsertedBy, RoutedTo;
    var pc := run[m].pcs[moves[m].i];
    assert Moved(run[n - 1], moves[n - 1], run[n]);
    MakerLasts(start, moves, run, m, n - 1);
    if n == e + 1 {
      StoreEnds(run[e], moves[m].i, pc.s, pc.port);
    } else {
      StoredLasts(start, moves, run, m, e, n - 1);
      WorldRunInv(start, moves, run, n - 1);
      RouteStep(run[n - 1], moves[n - 1].i, moves[n - 1].a, pc.s);
    }
  }

  /** Once the Add that made a link has stored its route, the link's replies go to that Add's connection,
      with the process's own port, for as long as it lives and whatever the other threads do, Adds of the
      same uplink and port that are late included. */
  lemma RouteLasts(start: World, moves: seq<Move>, run: seq<World>, m: nat, e: nat, n: nat)
    requires Empty(start) && WorldRun(start, moves, run) && m < e < n <= |moves| && GuardedTo(moves, run, n)
    requires moves[m].a.InsertUp? && moves[e] == Move(moves[m].i, InsertDown)
    requires forall x :: m < x <= n ==> run[m].pcs[moves[m].i].s in run[x].ups
    ensures var pc := run[m].pcs[moves[m].i];
            var d := Link(pc.s, AddrPort(start.addr, pc.port)).Down();
            && run[n].ups[pc.s].port == pc.port
            && d in run[n].downs && run[n].downs[d] == DownKey(pc.conn, pc.s.process.port)
  {
    hide Next, Listed, Guard, Empty, InsertedBy, Distinct, WorldInv;
    StoredLasts(start, moves, run, m, e, n);
    MakerLasts(start, moves, run, m, n);
    WorldRunInv(start, moves, run, n);
    InvUp(run[n], run[m].pcs[moves[m].i].s);
  }
}
