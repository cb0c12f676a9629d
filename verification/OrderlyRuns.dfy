/** What callers can do so that every step is guarded. */
module OrderlyRuns {
  import opened Net
  import opened PortPool
  import opened LinkTable
  import opened Interleaving
  import opened InterleavedRuns

  // What callers can do to be safe

  /** No other call for the same uplink is in flight, and it is not live. */
  ghost predicate MayStart(w: World, s: Uplink) {
    s !in w.ups && forall j :: 0 <= j < |w.pcs| && w.pcs[j].Adding() ==> w.pcs[j].s != s
  }

  /** The pass takes no link whose own Add is still between its two sections. */
  ghost predicate SparesInserted(w: World, ups: Ups) {
    forall j :: 0 <= j < |w.pcs| && w.pcs[j].Inserted? ==> w.pcs[j].s in ups
  }

  /** The premise: calls for one uplink do not overlap, and no link expires inside its own Add. */
  ghost predicate Premise(w: World, i: nat, a: Action)
    requires Enabled(w, i, a)
  {
    match a
    case Choose(s, _, _) => MayStart(w, s)
    case Look(s, _) => MayStart(w, s)
    case Sweep(_, _, _) => SparesInserted(w, Next(w, i, a).ups)
    case _ => true
  }

  ghost predicate CollectedBy(pcs: seq<Pc>, t: Triple) {
    exists i :: 0 <= i < |pcs| && pcs[i].Collected? && t in pcs[i].Claim()
  }

  /** What the premise maintains: Adds in flight are for different uplinks, not live before their uplink
      section and live and their own after it, and every route is of a live link or of one whose Cleanup
      is about to remove it. */
  ghost predicate Orderly(w: World) {
    && (forall i :: 0 <= i < |w.pcs| ==> AddOk(w, w.pcs[i]))
    && (forall i, j :: 0 <= i < |w.pcs| && 0 <= j < |w.pcs| && i != j && w.pcs[i].Adding() && w.pcs[j].Adding() ==>
          w.pcs[i].s != w.pcs[j].s)
    && RoutesOk(w)
  }

  ghost predicate RoutesOk(w: World) {
    forall d :: d in w.downs ==> DownTriple(d) in Owned(w.Flat()) || CollectedBy(w.pcs, DownTriple(d))
  }

  ghost predicate AddOk(w: World, pc: Pc) {
    && (pc.Adding() && !pc.Inserted? ==> pc.s !in w.ups)
    && (pc.Inserted? ==>
          pc.s in w.ups && w.ups[pc.s].port == pc.port && pc.s in w.makers && w.makers[pc.s] == pc.conn)
  }

  /** In an orderly state the map sections and the releases are guarded. */
  lemma OrderlyGuards(w: World, i: nat, a: Action)
    requires WorldInv(w) && Orderly(w) && Enabled(w, i, a) && (a.InsertUp? || a.InsertDown? || a.Release?)
    ensures Guard(w, i, a)
  {
    hide Listed, NonEmpty, UpsOk, OpenOk, Owned, Apart, CollectedBy, InsertedBy;
    assert AddOk(w, w.pcs[i]) && ThreadOk(w.Flat(), w.pcs[i]);
    match a
    case InsertUp(_) =>
    case InsertDown =>
      OwnedHas(w.Flat(), w.pcs[i].s);
      assert w.LinkOf(w.pcs[i].s).Triple() == w.pcs[i].Wanted();
    case Release =>
      var l := w.pcs[i].ls[0];
      assert l.Triple() in w.pcs[i].Claim() && DownTriple(l.Down()) == l.Triple();
      NotCollectedElse(w, i, l.Triple());
    case _ =>
  }

  lemma NotCollectedElse(w: World, i: nat, t: Triple)
    requires Pairs(w.pcs) && i < |w.pcs| && t in w.pcs[i].Claim() && !w.pcs[i].Collected?
    ensures !CollectedBy(w.pcs, t)
  {
    forall j | 0 <= j < |w.pcs| ensures !(w.pcs[j].Collected? && t in w.pcs[j].Claim()) {
      assert j != i ==> w.pcs[i].Claim() !! w.pcs[j].Claim();
    }
  }

  lemma CollectedStays(pcs: seq<Pc>, i: nat, pc: Pc)
    requires i < |pcs| && !pcs[i].Collected?
    ensures forall t :: CollectedBy(pcs, t) ==> CollectedBy(pcs[i := pc], t)
  {
    forall t | CollectedBy(pcs, t) ensures CollectedBy(pcs[i := pc], t) {
      var j :| 0 <= j < |pcs| && pcs[j].Collected? && t in pcs[j].Claim();
      assert pcs[i := pc][j] == pcs[j];
    }
  }

  lemma OrderlyDowns(w: World, i: nat, a: Action)
    requires WorldInv(w) && Orderly(w) && Enabled(w, i, a)
    ensures RoutesOk(Next(w, i, a))
  {
    hide Listed, NonEmpty, UpsOk, OpenOk, Owned, Apart, CollectedBy, InsertedBy, Take, Drop, SweepAll, Swapped, Part;
    var after := Next(w, i, a);
    assert AddOk(w, w.pcs[i]) && ThreadOk(w.Flat(), w.pcs[i]);
    if !w.pcs[i].Collected? {
      CollectedStays(w.pcs, i, after.pcs[i]);
    }
    match a
    case InsertUp(_) => InsertUps(w.Flat(), w.pcs[i].s, w.pcs[i].port);
                        OwnedSame(after.Flat(), w.Flat().(ups := after.ups));
    case InsertDown =>
      OwnedSame(w.Flat(), after.Flat());
      OwnedHas(w.Flat(), w.pcs[i].s);
    case Hit(u) =>
      TouchLinks(w.Flat(), u);
      OwnedSame(after.Flat(), Touch(w.Flat(), u));
    case Sweep(k, ttl, clock) => SweptDowns(w, i, k, ttl, clock);
    case DropDowns =>
      OwnedSame(w.Flat(), after.Flat());
      forall d | d in after.downs && DownTriple(d) !in Owned(w.Flat()) ensures CollectedBy(after.pcs, DownTriple(d)) {
        StillCollected(w.addr, w.pcs, i, d);
      }
    case _ => OwnedSame(w.Flat(), after.Flat());
  }

  lemma SweptDowns(w: World, i: nat, k: nat, ttl: nat, clock: Clock)
    requires WorldInv(w) && Orderly(w) && Enabled(w, i, Sweep(k, ttl, clock))
    ensures RoutesOk(Next(w, i, Sweep(k, ttl, clock)))
  {
    hide Lists, NonEmpty, UpsOk, OpenOk, Owned, Apart, CollectedBy, InsertedBy, SweepAll, Swapped, Part, Distinct;
    var r := SweepAll(w.Shard(k), ttl, clock);
    var after := Next(w, i, Sweep(k, ttl, clock));
    SweepEffect(w, k, ttl, clock);
    OwnedSame(after.Flat(), w.(ups := Swapped(w, k, r.ups), queues := w.queues[k := r.queue]).Flat());
    CollectedStays(w.pcs, i, after.pcs[i]);
    assert r.links != [] ==> after.pcs[i] == Collected(r.links);
    forall t | t in TripleSet(r.links) ensures CollectedBy(after.pcs, t) {
      NowCollected(after.pcs, i, t);
    }
  }

  lemma NowCollected(pcs: seq<Pc>, i: nat, t: Triple)
    requires i < |pcs| && pcs[i].Collected? && t in pcs[i].Claim()
    ensures CollectedBy(pcs, t)
  {
  }

  /** A downlink left over by thread i's section belongs to another collecting thread. */
  lemma StillCollected(addr: Addr, pcs: seq<Pc>, i: nat, d: Downlink)
    requires i < |pcs| && pcs[i].Collected? && d !in DownSet(pcs[i].ls) && d.local.addr == addr
    requires forall l :: l in pcs[i].ls ==> l.local.addr == addr
    requires CollectedBy(pcs, DownTriple(d))
    ensures CollectedBy(pcs[i := Unrouted(pcs[i].ls)], DownTriple(d))
  {
    var j :| 0 <= j < |pcs| && pcs[j].Collected? && DownTriple(d) in pcs[j].Claim();
    assert forall l :: l in pcs[i].ls && l.Triple() == DownTriple(d) ==> l.Down() == d;
    assert pcs[i := Unrouted(pcs[i].ls)][j] == pcs[j];
  }

  lemma OrderlyAdds(w: World, i: nat, a: Action)
    requires WorldInv(w) && Orderly(w) && Enabled(w, i, a) && Premise(w, i, a)
    ensures forall j :: 0 <= j < |w.pcs| ==> AddOk(Next(w, i, a), Next(w, i, a).pcs[j])
  {
    hide NonEmpty, UpsOk, OpenOk, Owned, Apart, CollectedBy, InsertedBy, Take, Drop, SweepAll, Swapped, Part, Lists,
         CoverOk, DownsOk, ThreadsOk, Pairs, Reusable, AnyReusable, Distinct;
    var after := Next(w, i, a);
    if a.Sweep? {
      SweepEffect(w, a.k, a.ttl, a.clock);
    }
    forall j | 0 <= j < |w.pcs| ensures AddOk(after, after.pcs[j]) {
      assert AddOk(w, w.pcs[j]);
    }
  }

  lemma OrderlyKeeps(w: World, i: nat, a: Action)
    requires WorldInv(w) && Orderly(w) && Enabled(w, i, a) && Premise(w, i, a)
    ensures Orderly(Next(w, i, a))
  {
    hide WorldInv, AddOk, CollectedBy, Owned, Take, Drop, SweepAll, Swapped, Part, Listed, Reusable, AnyReusable;
    OrderlyAdds(w, i, a);
    OrderlyDowns(w, i, a);
    NextShape(w, i, a);
  }

  // When a pass takes a link inside its own Add

  ghost predicate Finishing(pcs: seq<Pc>, u: Uplink) {
    exists i :: 0 <= i < |pcs| && pcs[i].Inserted? && pcs[i].s == u
  }

  /** The pass over shard k spares the links inside their own Adds if and only if it finds none of their
      entries idle and past its time when it reaches it. */
  lemma SparesExactly(w: World, i: nat, k: nat, ttl: nat, clock: Clock)
    requires Orderly(w) && Enabled(w, i, Sweep(k, ttl, clock))
    ensures SparesInserted(w, Next(w, i, Sweep(k, ttl, clock)).ups)
            <==> forall e :: 0 <= e < |w.queues[k]| && Finishing(w.pcs, w.queues[k][e].up) ==>
                   !(Due(w.Shard(k), ttl, clock, e) && Reached(w.Shard(k), ttl, clock, e))
  {
    hide Lists, Part, Swapped, SweepAll, Due, Reached, IdleAt, ExpiredThrough, IdleCount;
    var t, after := w.Shard(k), Next(w, i, Sweep(k, ttl, clock));
    ShardLists(w, k);
    forall e | 0 <= e < |w.queues[k]|
      ensures w.queues[k][e].up in after.ups <==> !(Due(t, ttl, clock, e) && Reached(t, ttl, clock, e))
    {
      SweptEntry(w, k, ttl, clock, e);
    }
    if forall e :: 0 <= e < |w.queues[k]| && Finishing(w.pcs, w.queues[k][e].up) ==> w.queues[k][e].up in after.ups {
      forall j | 0 <= j < |w.pcs| && w.pcs[j].Inserted? ensures w.pcs[j].s in after.ups {
        assert AddOk(w, w.pcs[j]);
        EntryOf(w, k, ttl, clock, w.pcs[j].s);
      }
    }
  }

  lemma SweptEntry(w: World, k: nat, ttl: nat, clock: Clock, e: nat)
    requires Listed(w) && k < |w.queues| && e < |w.queues[k]|
    requires Lists(w.Shard(k).queue, w.Shard(k).ups)
    ensures var t := w.Shard(k);
            w.queues[k][e].up in Swapped(w, k, SweepAll(t, ttl, clock).ups)
            <==> !(Due(t, ttl, clock, e) && Reached(t, ttl, clock, e))
  {
    hide Lists;
    var t := w.Shard(k);
    assert t.queue[0..] + [] == t.queue;
    SweepExact(t.addr, ttl, clock, t.queue, t.ups, 0, [], [], e);
    assert t.ups == Part(w.mutx, w.ups, k) && t.queue[e].up in t.ups;
  }

  /** A live link is in the queue of the shard that is swept, or the pass leaves it alone. */
  lemma EntryOf(w: World, k: nat, ttl: nat, clock: Clock, u: Uplink)
    requires Listed(w) && k < |w.queues| && u in w.ups && Lists(w.Shard(k).queue, w.Shard(k).ups)
    ensures u in Swapped(w, k, SweepAll(w.Shard(k), ttl, clock).ups)
            || exists e :: 0 <= e < |w.queues[k]| && w.queues[k][e].up == u
  {
    hide Lists, SweepAll;
    if u in Part(w.mutx, w.ups, k) {
      QueueOf(w.Shard(k), u);
    }
  }

  /** In particular it spares them when none of their entries is past its time at its reading. */
  lemma SparesFresh(w: World, i: nat, k: nat, ttl: nat, clock: Clock)
    requires Orderly(w) && Enabled(w, i, Sweep(k, ttl, clock))
    requires forall e :: 0 <= e < |w.queues[k]| && Finishing(w.pcs, w.queues[k][e].up) ==>
               !w.queues[k][e].Expired(clock(2 * e), ttl)
    ensures Premise(w, i, Sweep(k, ttl, clock))
  {
    hide Orderly, Finishing, Listed, SparesInserted, Reached;
    SparesExactly(w, i, k, ttl, clock);
  }

  // Runs that keep the premise

  ghost predicate KeepsPremise(moves: seq<Move>, run: seq<World>)
    requires |run| == |moves| + 1
  {
    forall k :: 0 <= k < |moves| ==> Enabled(run[k], moves[k].i, moves[k].a) && Premise(run[k], moves[k].i, moves[k].a)
  }

  ghost predicate PortsGuarded(moves: seq<Move>, run: seq<World>, n: nat)
    requires n <= |moves| && |run| == |moves| + 1
  {
    forall k :: 0 <= k < n ==> Enabled(run[k], moves[k].i, moves[k].a)
                               && (moves[k].a.Commit? || moves[k].a.Close? ==> Guard(run[k], moves[k].i, moves[k].a))
  }

  lemma StartOrderly(start: World)
    requires Empty(start)
    ensures Orderly(start)
  {
  }

  /** When callers keep the premise, only the commits and the closes are left to guard. */
  lemma {:induction false} LawfulGuards(start: World, moves: seq<Move>, run: seq<World>, n: nat)
    requires Empty(start) && WorldRun(start, moves, run) && n <= |moves|
    requires KeepsPremise(moves, run) && PortsGuarded(moves, run, n)
    ensures GuardedTo(moves, run, n) && Orderly(run[n])
  {
    hide WorldInv, Enabled, Guard, Next, Empty, Orderly, Premise;
    if n == 0 {
      StartOrderly(start);
    } else {
      LawfulGuards(start, moves, run, n - 1);
      WorldRunInv(start, moves, run, n - 1);
      var w, m := run[n - 1], moves[n - 1];
      assert Moved(w, m, run[n]);
      OrderlyKeeps(w, m.i, m.a);
      if m.a.InsertUp? || m.a.InsertDown? || m.a.Release? {
        OrderlyGuards(w, m.i, m.a);
      } else if !m.a.Commit? && !m.a.Close? {
        OtherGuards(w, m.i, m.a);
      }
    }
  }

  lemma OtherGuards(w: World, i: nat, a: Action)
    requires Enabled(w, i, a)
    requires !(a.InsertUp? || a.InsertDown? || a.Release? || a.Commit? || a.Close?)
    ensures Guard(w, i, a)
  {
    hide Listed;
  }

  // Choices that hold

  /** The move commits triple t. */
  predicate Commits(w: World, m: Move, t: Triple) {
    m.a.Commit? && m.i < |w.pcs| && w.pcs[m.i].Pending() && w.pcs[m.i].Wanted() == t
  }

  function ChoiceOf(a: Action): Triple
    requires a.Choose?
  {
    Triple(a.s.proto, a.port, a.s.server)
  }

  /** A step of another thread reserves a triple only by committing it. */
  lemma OtherStep(w: World, m: Move, i: nat, t: Triple)
    requires Enabled(w, m.i, m.a) && i < |w.pcs| && m.i != i && !Has(w.held, t)
    requires !Commits(w, m, t)
    ensures |Next(w, m.i, m.a).pcs| == |w.pcs| && Next(w, m.i, m.a).pcs[i] == w.pcs[i]
    ensures !Has(Next(w, m.i, m.a).held, t)
  {
    hide Listed, Take, Drop, SweepAll, Swapped, Part;
    match m.a
    case Commit => TakeHas(w.held, w.pcs[m.i].Wanted());
    case Release => DropHas(w.held, w.pcs[m.i].ls[0].Triple());
    case _ =>
  }

  lemma ChoiceStarts(w: World, i: nat, a: Action)
    requires a.Choose? && Enabled(w, i, a)
    ensures i < |Next(w, i, a).pcs| && Next(w, i, a).pcs[i] == Chosen(a.s, a.conn, a.port)
    ensures !Has(Next(w, i, a).held, ChoiceOf(a))
  {
    hide Listed;
  }

  lemma {:induction false} ChoiceWaits(start: World, moves: seq<Move>, run: seq<World>, m: nat, n: nat, i: nat)
    requires WorldRun(start, moves, run) && m < n <= |moves|
    requires moves[m].i == i && moves[m].a.Choose?
    requires forall x :: m < x < n ==> moves[x].i != i
    requires forall x :: m < x < n ==> !Commits(run[x], moves[x], ChoiceOf(moves[m].a))
    ensures i < |run[n].pcs| && run[n].pcs[i] == Chosen(moves[m].a.s, moves[m].a.conn, moves[m].a.port)
    ensures !Has(run[n].held, ChoiceOf(moves[m].a))
  {
    hide Enabled, Next, Commits;
    if n == m + 1 {
      assert Moved(run[m], moves[m], run[n]);
      ChoiceStarts(run[m], i, moves[m].a);
    } else {
      ChoiceWaits(start, moves, run, m, n - 1, i);
      assert Moved(run[n - 1], moves[n - 1], run[n]);
      OtherStep(run[n - 1], moves[n - 1], i, ChoiceOf(moves[m].a));
    }
  }

  /** If between a choice and its commit no other call commits the same triple, and the port is never
      freed, the commit is guarded: calls for one remote must not overlap, nor a DelPort free the port. */
  lemma ChoiceHolds(start: World, moves: seq<Move>, run: seq<World>, m: nat, n: nat, i: nat)
    requires Empty(start) && WorldRun(start, moves, run) && m < n < |moves| && GuardedTo(moves, run, n)
    requires moves[m].i == i && moves[m].a.Choose? && moves[n] == Move(i, Commit)
    requires forall x :: m < x < n ==> moves[x].i != i
    requires forall x :: m < x < n ==> !Commits(run[x], moves[x], ChoiceOf(moves[m].a))
    requires ChoiceOf(moves[m].a).Key() in run[n].held
    ensures Enabled(run[n], i, Commit) && Guard(run[n], i, Commit)
  {
    hide Listed, Next, Empty;
    ChoiceWaits(start, moves, run, m, n, i);
    WorldRunInv(start, moves, run, n);
    assert Moved(run[n], moves[n], run[n + 1]);
  }

  // GetPort and DelPort as one step each

  predicate Midway(pc: Pc) { pc.Pending() || pc.Closing? }

  /** A call that has chosen or opened a port, or freed one, takes the very next step of the run. */
  ghost predicate Atomic(moves: seq<Move>, run: seq<World>)
    requires |run| == |moves| + 1
  {
    forall m :: 0 <= m < |moves| ==> Undivided(moves, run, m)
  }

  ghost predicate Undivided(moves: seq<Move>, run: seq<World>, m: nat)
    requires m < |moves| && |run| == |moves| + 1
  {
    moves[m].i < |run[m + 1].pcs| && Midway(run[m + 1].pcs[moves[m].i]) ==>
      m + 1 < |moves| && moves[m + 1].i == moves[m].i && (moves[m + 1].a.Commit? || moves[m + 1].a.Close?)
  }

  /** The step after a choice, an opening or a release of the same thread is guarded. */
  lemma NextGuarded(w: World, i: nat, a: Action, b: Action)
    requires WorldInv(w) && Enabled(w, i, a) && Enabled(Next(w, i, a), i, b)
    requires !Midway(w.pcs[i]) && (b.Commit? || b.Close?)
    ensures Guard(Next(w, i, a), i, b)
  {
    hide Listed, Distinct, NonEmpty, Owned, CoverOk, DownsOk, UpsOk, Pairs, ThreadsOk, SweepAll, Swapped, Part, Drop,
         HandledBy;
  }

  lemma StaysMidway(w: World, i: nat, a: Action, j: nat)
    requires Enabled(w, i, a) && j < |w.pcs| && Midway(Next(w, i, a).pcs[j])
    ensures j == i || Midway(w.pcs[j])
  {
    hide Listed, Take, Drop, SweepAll, Swapped, Part;
  }

  /** Only the thread that has just moved is midway. */
  ghost predicate OnlyLast(moves: seq<Move>, run: seq<World>, n: nat)
    requires n <= |moves| && |run| == |moves| + 1
  {
    forall j :: 0 <= j < |run[n].pcs| && Midway(run[n].pcs[j]) ==> n > 0 && moves[n - 1].i == j
  }

  lemma CommitEnds(w: World, i: nat, a: Action)
    requires Enabled(w, i, a) && (a.Commit? || a.Close?)
    ensures !Midway(Next(w, i, a).pcs[i])
  {
    hide Listed, Take;
  }

  lemma {:induction false} AtomicGuarded(start: World, moves: seq<Move>, run: seq<World>, n: nat)
    requires Empty(start) && WorldRun(start, moves, run) && KeepsPremise(moves, run) && Atomic(moves, run)
    requires n <= |moves|
    ensures PortsGuarded(moves, run, n)
    ensures OnlyLast(moves, run, n)
  {
    hide WorldInv, Next, Guard, Enabled, Midway, Empty, KeepsPremise;
    if n == 0 {
      forall j | 0 <= j < |run[0].pcs| ensures !Midway(run[0].pcs[j]) {
        NoneMidway(start, j);
      }
    } else {
      AtomicGuarded(start, moves, run, n - 1);
      if n > 1 {
        AtomicGuarded(start, moves, run, n - 2);
      }
      var w, m := run[n - 1], moves[n - 1];
      assert Moved(w, m, run[n]);
      NextShape(w, m.i, m.a);
      LastGuarded(start, moves, run, n - 1);
      forall j | 0 <= j < |run[n].pcs| && Midway(run[n].pcs[j]) ensures moves[n - 1].i == j {
        StaysMidway(w, m.i, m.a, j);
        assert n > 1 ==> Undivided(moves, run, n - 2);
      }
    }
  }

  lemma NoneMidway(start: World, j: nat)
    requires Empty(start) && j < |start.pcs|
    ensures !Midway(start.pcs[j])
  {
  }

  lemma LastGuarded(start: World, moves: seq<Move>, run: seq<World>, n: nat)
    requires Empty(start) && WorldRun(start, moves, run) && KeepsPremise(moves, run) && Atomic(moves, run)
    requires n < |moves| && PortsGuarded(moves, run, n)
    requires OnlyLast(moves, run, n) && (n > 0 ==> OnlyLast(moves, run, n - 1))
    ensures Enabled(run[n], moves[n].i, moves[n].a)
    ensures moves[n].a.Commit? || moves[n].a.Close? ==> Guard(run[n], moves[n].i, moves[n].a)
  {
    hide WorldInv, Next, KeepsPremise, Empty, Listed, Guard;
    assert Moved(run[n], moves[n], run[n + 1]);
    if moves[n].a.Commit? || moves[n].a.Close? {
      assert Midway(run[n].pcs[moves[n].i]);
      var w, m := run[n - 1], moves[n - 1];
      assert Moved(w, m, run[n]);
      LawfulGuards(start, moves, run, n - 1);
      WorldRunInv(start, moves, run, n - 1);
      NextShape(w, m.i, m.a);
      assert n > 1 ==> Undivided(moves, run, n - 2);
      if m.a.Commit? || m.a.Close? {
        CommitEnds(w, m.i, m.a);
      }
      NextGuarded(w, m.i, m.a, moves[n].a);
    }
  }

  /** With GetPort and DelPort undivided, every run that keeps the premise is safe in every state. */
  lemma AtomicRunsSafe(start: World, moves: seq<Move>, run: seq<World>)
    requires Empty(start) && WorldRun(start, moves, run) && KeepsPremise(moves, run) && Atomic(moves, run)
    ensures forall k :: 0 <= k < |run| ==> Safe(run[k])
  {
    hide Atomic, Safe, GuardedTo, PortsGuarded, Empty, KeepsPremise, Orderly;
    AtomicGuarded(start, moves, run, |moves|);
    LawfulGuards(start, moves, run, |moves|);
    SafeExactly(start, moves, run);
  }

  // Port economy

  /** A commit that adds a port while another of the protocol could be shared. */
  predicate Wasteful(w: World, m: Move) {
    m.a.Commit? && m.i < |w.pcs| && w.pcs[m.i].Pending() && !Thrifty(w.held, w.pcs[m.i].Wanted())
  }

  function Wasted(moves: seq<Move>, run: seq<World>, n: nat): (k: nat)
    requires n <= |moves| && |run| == |moves| + 1
    ensures (forall x :: 0 <= x < n ==> !Wasteful(run[x], moves[x])) ==> k == 0
  {
    if n == 0 then 0
    else Wasted(moves, run, n - 1) + if Wasteful(run[n - 1], moves[n - 1]) then 1 else 0
  }

  lemma StepHeld(w: World, i: nat, a: Action)
    requires Enabled(w, i, a)
    ensures Next(w, i, a).held == w.held
            || (a.Commit? && Next(w, i, a).held == Take(w.held, w.pcs[i].Wanted()))
            || (a.Release? && Next(w, i, a).held == Drop(w.held, w.pcs[i].ls[0].Triple()))
  {
    hide Listed, Take, Drop, SweepAll, Swapped, Part;
  }

  lemma TakeOne(h: Held, t: Triple, proto: u8)
    ensures |PortsOf(Take(h, t), proto)| <= |PortsOf(h, proto)| + 1
  {
    assert PortsOf(Take(h, t), proto) <= PortsOf(h, proto) + {t.Key()};
    SubsetCard(PortsOf(Take(h, t), proto), PortsOf(h, proto) + {t.Key()});
  }

  lemma DropPorts(h: Held, t: Triple, proto: u8)
    ensures PortsOf(Drop(h, t), proto) <= PortsOf(h, proto)
  {
  }

  /** A step that is not wasteful adds a port only to a remote that is then on every port. */
  lemma EconomyStep(w: World, m: Move, proto: u8) returns (remote: AddrPort)
    requires Enabled(w, m.i, m.a)
    ensures var h, after := w.held, Next(w, m.i, m.a).held;
            && |PortsOf(after, proto)| <= |PortsOf(h, proto)| + 1
            && (!Wasteful(w, m) ==>
                  || |PortsOf(after, proto)| <= |PortsOf(h, proto)|
                  || LoadOf(after, proto, remote) == PortsOf(after, proto))
  {
    hide Listed, Next, Take, Drop, Thrifty, LoadOf, PortsOf;
    StepHeld(w, m.i, m.a);
    remote := AddrPort(NoAddr, 0);
    var h, after := w.held, Next(w, m.i, m.a).held;
    if m.a.Commit? {
      var t := w.pcs[m.i].Wanted();
      TakeOne(h, t, proto);
      if Thrifty(h, t) {
        remote := t.remote;
        TakePorts(h, t, proto);
      }
    } else if m.a.Release? {
      DropPorts(h, w.pcs[m.i].ls[0].Triple(), proto);
    }
    if PortsOf(after, proto) <= PortsOf(h, proto) {
      SubsetCard(PortsOf(after, proto), PortsOf(h, proto));
    }
  }

  /** In every run of any number of threads, the ports held exceed the most reservations one remote has had
      at once by at most the number of wasteful commits. */
  lemma {:induction false} EconomyAmongThreads(start: World, moves: seq<Move>, run: seq<World>, proto: u8, n: nat)
    returns (j: nat, remote: AddrPort)
    requires Empty(start) && WorldRun(start, moves, run) && n <= |moves|
    ensures j <= n
    ensures |PortsOf(run[n].held, proto)| <= |LoadOf(run[j].held, proto, remote)| + Wasted(moves, run, n)
  {
    hide Enabled, Next, Wasteful, LoadOf;
    if n == 0 {
      j, remote := 0, AddrPort(NoAddr, 0);
      assert PortsOf(run[0].held, proto) == {};
    } else {
      assert Moved(run[n - 1], moves[n - 1], run[n]);
      var r := EconomyStep(run[n - 1], moves[n - 1], proto);
      if LoadOf(run[n].held, proto, r) == PortsOf(run[n].held, proto) {
        j, remote := n, r;
      } else {
        j, remote := EconomyAmongThreads(start, moves, run, proto, n - 1);
      }
    }
  }
}
