/** `maps.mutxLinkManager` as a value: tables over one adapter, chosen by the last byte of the server. */
module Sharding {
  import opened Net
  import opened PortPool
  import opened LinkTable
  import opened LinkRuns
  import PortWord

  function LastByte(a: Addr): u8
    requires a.IsValid()
  {
    match a
    case V4(b) => b % 0x100
    case V6(b, _) => b % 0x100
  }

  /** Index of the manager responsible for a server. */
  function Shard(mutx: u8, a: Addr): nat
    requires mutx > 0 && a.IsValid()
  {
    LastByte(a) % mutx
  }

  /** A manager of shard i holds only links to servers of shard i. */
  ghost predicate InShard(mutx: u8, i: nat, t: Table)
    requires mutx > 0
  {
    forall u :: u in t.ups ==> u.server.IsValid() && Shard(mutx, u.server.addr) == i
  }

  ghost predicate ShardsInv(mutx: u8, addr: Addr, ts: seq<Table>) {
    && 0 < mutx && mutx as int <= |ts|
    && forall i :: 0 <= i < |ts| ==> Inv(ts[i]) && ts[i].addr == addr && InShard(mutx, i, ts[i])
  }

  ghost function AllOwned(ts: seq<Table>): set<Triple> {
    set i, r | 0 <= i < |ts| && r in Owned(ts[i]) :: r
  }

  /** The shared adapter reserves the union of what the shards own. */
  ghost predicate Exact(ts: seq<Table>, h: Held) {
    NonEmpty(h) && forall r :: Has(h, r) <==> r in AllOwned(ts)
  }

  lemma DownShard(mutx: u8, addr: Addr, ts: seq<Table>, i: nat, d: Downlink)
    requires ShardsInv(mutx, addr, ts) && i < |ts| && d in ts[i].downs
    ensures d.server.IsValid() && Shard(mutx, d.server.addr) == i
  {
    assert Rooted(ts[i], d);
    var u :| u in ts[i].ups && ts[i].LinkOf(u).Down() == d;
  }

  lemma OwnedShard(mutx: u8, addr: Addr, ts: seq<Table>, i: nat, r: Triple)
    requires ShardsInv(mutx, addr, ts) && i < |ts| && r in Owned(ts[i])
    ensures r.remote.IsValid() && Shard(mutx, r.remote.addr) == i
  {
    var u :| u in ts[i].ups && ts[i].LinkOf(u).Triple() == r;
  }

  /** No two shards share an uplink, a downlink or a reservation. */
  lemma ShardsDisjoint(mutx: u8, addr: Addr, ts: seq<Table>, i: nat, j: nat)
    requires ShardsInv(mutx, addr, ts) && i < |ts| && j < |ts| && i != j
    ensures ts[i].ups.Keys !! ts[j].ups.Keys
    ensures ts[i].downs.Keys !! ts[j].downs.Keys
    ensures Owned(ts[i]) !! Owned(ts[j])
  {
    forall d | d in ts[i].downs ensures d !in ts[j].downs {
      DownShard(mutx, addr, ts, i, d);
      if d in ts[j].downs {
        DownShard(mutx, addr, ts, j, d);
      }
    }
    forall r | r in Owned(ts[i]) ensures r !in Owned(ts[j]) {
      OwnedShard(mutx, addr, ts, i, r);
      if r in Owned(ts[j]) {
        OwnedShard(mutx, addr, ts, j, r);
      }
    }
  }

  // The union of the shards, as one flat manager's maps

  function AllUps(ts: seq<Table>): Ups {
    if ts == [] then map[] else AllUps(ts[..|ts| - 1]) + ts[|ts| - 1].ups
  }

  function AllDowns(ts: seq<Table>): map<Downlink, DownKey> {
    if ts == [] then map[] else AllDowns(ts[..|ts| - 1]) + ts[|ts| - 1].downs
  }

  lemma {:induction false} AllUpsAt(ts: seq<Table>, i: nat, u: Uplink)
    requires i < |ts| && forall j :: 0 <= j < |ts| && j != i ==> u !in ts[j].ups
    ensures u in AllUps(ts) <==> u in ts[i].ups
    ensures u in ts[i].ups ==> AllUps(ts)[u] == ts[i].ups[u]
  {
    var init := ts[..|ts| - 1];
    if i < |init| {
      AllUpsAt(init, i, u);
    } else {
      AllUpsNone(init, u);
    }
  }

  lemma {:induction false} AllUpsNone(ts: seq<Table>, u: Uplink)
    requires forall j :: 0 <= j < |ts| ==> u !in ts[j].ups
    ensures u !in AllUps(ts)
  {
    if ts != [] {
      AllUpsNone(ts[..|ts| - 1], u);
    }
  }

  lemma {:induction false} AllDownsAt(ts: seq<Table>, i: nat, d: Downlink)
    requires i < |ts| && forall j :: 0 <= j < |ts| && j != i ==> d !in ts[j].downs
    ensures d in AllDowns(ts) <==> d in ts[i].downs
    ensures d in ts[i].downs ==> AllDowns(ts)[d] == ts[i].downs[d]
  {
    var init := ts[..|ts| - 1];
    if i < |init| {
      AllDownsAt(init, i, d);
    } else {
      AllDownsNone(init, d);
    }
  }

  lemma {:induction false} AllDownsNone(ts: seq<Table>, d: Downlink)
    requires forall j :: 0 <= j < |ts| ==> d !in ts[j].downs
    ensures d !in AllDowns(ts)
  {
    if ts != [] {
      AllDownsNone(ts[..|ts| - 1], d);
    }
  }

  /** Asking the responsible shard is asking one flat manager that holds every link. */
  lemma LookupIsFlat(mutx: u8, addr: Addr, ts: seq<Table>, u: Uplink)
    requires ShardsInv(mutx, addr, ts) && u.server.IsValid()
    ensures var t := ts[Shard(mutx, u.server.addr)];
            && (u in AllUps(ts) <==> u in t.ups)
            && (u in t.ups ==> AllUps(ts)[u] == t.ups[u])
  {
    var k := Shard(mutx, u.server.addr);
    forall j | 0 <= j < |ts| && j != k ensures u !in ts[j].ups {
      assert InShard(mutx, j, ts[j]);
    }
    AllUpsAt(ts, k, u);
  }

  lemma ReplyIsFlat(mutx: u8, addr: Addr, ts: seq<Table>, d: Downlink)
    requires ShardsInv(mutx, addr, ts) && d.server.IsValid()
    ensures var t := ts[Shard(mutx, d.server.addr)];
            && (d in AllDowns(ts) <==> d in t.downs)
            && (d in t.downs ==> AllDowns(ts)[d] == t.downs[d])
  {
    var k := Shard(mutx, d.server.addr);
    forall j | 0 <= j < |ts| && j != k ensures d !in ts[j].downs {
      if d in ts[j].downs {
        DownShard(mutx, addr, ts, j, d);
      }
    }
    AllDownsAt(ts, k, d);
  }

  // Steps of one shard keep the whole

  lemma AllOwnedStep(mutx: u8, addr: Addr, ts: seq<Table>, k: nat, t: Table, lost: set<Triple>, won: set<Triple>)
    requires ShardsInv(mutx, addr, ts) && k < |ts|
    requires lost <= Owned(ts[k]) && Owned(t) == Owned(ts[k]) - lost + won
    ensures AllOwned(ts[k := t]) == AllOwned(ts) - lost + won
  {
    hide Inv, Owned, InShard;
    var us := ts[k := t];
    forall i | 0 <= i < |ts| && i != k ensures us[i] == ts[i] && Owned(ts[i]) !! lost {
      ShardsDisjoint(mutx, addr, ts, i, k);
    }
    assert us[k] == t;
    forall r | r in AllOwned(ts) && r !in lost ensures r in AllOwned(us) {
      var i :| 0 <= i < |ts| && r in Owned(ts[i]);
      assert r in Owned(us[i]);
    }
    forall r | r in AllOwned(us) ensures r in AllOwned(ts) - lost + won {
      var i :| 0 <= i < |us| && r in Owned(us[i]);
    }
  }

  /** Replacing shard k by a table that gained and lost some triples changes the union accordingly. */
  lemma ShardStep(mutx: u8, addr: Addr, ts: seq<Table>, k: nat, t: Table, h: Held, after: Held,
                  lost: set<Triple>, won: set<Triple>)
    requires ShardsInv(mutx, addr, ts) && Exact(ts, h) && k < |ts|
    requires Inv(t) && t.addr == addr && InShard(mutx, k, t) && NonEmpty(after)
    requires lost <= Owned(ts[k]) && Owned(t) == Owned(ts[k]) - lost + won
    requires forall r :: Has(after, r) <==> (Has(h, r) && r !in lost) || r in won
    ensures ShardsInv(mutx, addr, ts[k := t]) && Exact(ts[k := t], after)
  {
    hide Inv, Owned, InShard, AllOwned, Has;
    AllOwnedStep(mutx, addr, ts, k, t, lost, won);
  }

  lemma CleanupInShard(mutx: u8, k: nat, t: Table, ttl: nat, clock: Clock)
    requires Inv(t) && mutx > 0 && InShard(mutx, k, t)
    ensures InShard(mutx, k, Cleanup(t, ttl, clock).0)
  {
    CleanupInv(t, ttl, clock);
  }

  /** Cleaning one shard releases that shard's links and nobody else's. */
  lemma ShardCleanup(mutx: u8, addr: Addr, ts: seq<Table>, k: nat, ttl: nat, clock: Clock, h: Held)
    requires ShardsInv(mutx, addr, ts) && Exact(ts, h) && k < |ts|
    ensures var (t, links) := Cleanup(ts[k], ttl, clock);
            ShardsInv(mutx, addr, ts[k := t]) && Exact(ts[k := t], DropAll(h, links))
  {
    hide Inv, Owned, InShard, AllOwned, Has, Cleanup, SweepOf, Lists, DropAll, TripleSet;
    InvLists(ts[k]);
    var (t, links) := Cleanup(ts[k], ttl, clock);
    CleanupInv(ts[k], ttl, clock);
    CleanupOwned(ts[k], ttl, clock);
    CleanupInShard(mutx, k, ts[k], ttl, clock);
    DropAllHas(h, links);
    ShardStep(mutx, addr, ts, k, t, h, DropAll(h, links), TripleSet(links), {});
  }

  /** Adding through the responsible shard keeps every shard apart, though they share the ports. */
  lemma ShardAdd(mutx: u8, addr: Addr, ts: seq<Table>, s: Uplink, conn: Conn, reply: Reply,
                 r: Result<u16, PortError>, now: nat, h: Held)
    requires ShardsInv(mutx, addr, ts) && Exact(ts, h) && s.server.IsValid()
    requires s !in ts[Shard(mutx, s.server.addr)].ups && r.Ok? && Outcome(h, s.proto, s.server, reply, r)
    ensures var k := Shard(mutx, s.server.addr);
            var us := ts[k := Insert(ts[k], s, r.value, conn, now)];
            ShardsInv(mutx, addr, us) && Exact(us, Take(h, Triple(s.proto, r.value, s.server)))
  {
    hide Inv, Owned, InShard, AllOwned, Take;
    var k := Shard(mutx, s.server.addr);
    var tr := Triple(s.proto, r.value, s.server);
    assert !Has(h, tr);
    OwnedIsReserved(ts, k);
    assert tr == Link(s, AddrPort(addr, r.value)).Triple();
    TakeHas(h, tr);
    InsertInv(ts[k], s, r.value, conn, now);
    InsertOwned(ts[k], s, r.value, conn, now);
    InsertInShard(mutx, ts[k], s, r.value, conn, now);
    ShardStep(mutx, addr, ts, k, Insert(ts[k], s, r.value, conn, now), h, Take(h, tr), {}, {tr});
  }

  lemma TouchShard(mutx: u8, addr: Addr, ts: seq<Table>, k: nat, s: Uplink, h: Held)
    requires ShardsInv(mutx, addr, ts) && Exact(ts, h) && k < |ts|
    requires s in ts[k].ups ==> ts[k].ups[s].hits + 1 < PortWord.LOW
    ensures ShardsInv(mutx, addr, ts[k := Touch(ts[k], s)]) && Exact(ts[k := Touch(ts[k], s)], h)
  {
    hide Inv, Owned, AllOwned, Has;
    TouchInv(ts[k], s);
    TouchLinks(ts[k], s);
    ShardStep(mutx, addr, ts, k, Touch(ts[k], s), h, h, {}, {});
  }

  /** What one Add does to the responsible manager's table and to the shared reservations. */
  ghost predicate Added(ttl: nat, t: Table, h: Held, s: Uplink, conn: Conn, clock: Clock, now: nat,
                        r: Result<u16, PortError>, reply: Reply, ls: seq<Link>, after: Table, held: Held)
  {
    && Lists(t.queue, t.ups)
    && var c := Cleanup(t, ttl, clock);
       && ls == c.1
       && Outcome(DropAll(h, ls), s.proto, s.server, reply, r)
       && held == (if r.Ok? then Take(DropAll(h, ls), Triple(s.proto, r.value, s.server)) else DropAll(h, ls))
       && after == if r.Ok? then Insert(c.0, s, r.value, conn, now) else c.0
  }

  lemma AddedShard(mutx: u8, addr: Addr, ts: seq<Table>, k: nat, ttl: nat, s: Uplink, conn: Conn, clock: Clock,
                   now: nat, r: Result<u16, PortError>, reply: Reply, ls: seq<Link>, after: Table, h: Held, held: Held)
    requires ShardsInv(mutx, addr, ts) && Exact(ts, h)
    requires s.server.IsValid() && k == Shard(mutx, s.server.addr) && s !in ts[k].ups
    requires Added(ttl, ts[k], h, s, conn, clock, now, r, reply, ls, after, held)
    ensures ShardsInv(mutx, addr, ts[k := after]) && Exact(ts[k := after], held)
  {
    hide Inv, Exact, InShard, Cleanup, Outcome, Lists, Insert, Take, DropAll;
    ShardCleanup(mutx, addr, ts, k, ttl, clock, h);
    CleanupKeys(ts[k], ttl, clock);
    var us := ts[k := Cleanup(ts[k], ttl, clock).0];
    if r.Ok? {
      ShardAdd(mutx, addr, us, s, conn, reply, r, now, DropAll(h, ls));
      assert us[k := after] == ts[k := after];
    }
  }

  lemma ExactHeldBy(ts: seq<Table>, k: nat, h: Held)
    requires Exact(ts, h) && k < |ts|
    ensures HeldBy(h, ts[k])
  {
    OwnedIsReserved(ts, k);
  }

  lemma OwnedIsReserved(ts: seq<Table>, k: nat)
    requires k < |ts|
    ensures Owned(ts[k]) <= AllOwned(ts)
  {
    assert forall r :: r in Owned(ts[k]) ==> r in AllOwned(ts);
  }

  lemma InsertInShard(mutx: u8, t: Table, s: Uplink, port: u16, conn: Conn, now: nat)
    requires mutx > 0 && s.server.IsValid() && InShard(mutx, Shard(mutx, s.server.addr), t)
    ensures InShard(mutx, Shard(mutx, s.server.addr), Insert(t, s, port, conn, now))
  {
  }

  // Cleaning every shard in turn

  /** The links the first n shards give up, in order. */
  function LinksOf(ts: seq<Table>, ttl: nat, clocks: nat -> Clock, n: nat): seq<Link>
    requires n <= |ts| && forall i :: 0 <= i < n ==> Lists(ts[i].queue, ts[i].ups)
  {
    if n == 0 then [] else LinksOf(ts, ttl, clocks, n - 1) + Cleanup(ts[n - 1], ttl, clocks(n - 1)).1
  }

  lemma {:induction false} DropAllConcat(h: Held, a: seq<Link>, b: seq<Link>)
    ensures DropAll(h, a + b) == DropAll(DropAll(h, a), b)
  {
    if a == [] {
      assert a + b == b;
    } else {
      assert (a + b)[1..] == a[1..] + b;
      DropAllConcat(Drop(h, a[0].Triple()), a[1..], b);
    }
  }

  lemma EmptyShards(mutx: u8, addr: Addr, ts: seq<Table>)
    requires 0 < mutx && mutx as int <= |ts|
    requires forall t :: t in ts ==> t == Table(addr, map[], [], map[])
    ensures ShardsInv(mutx, addr, ts) && Exact(ts, map[])
  {
    forall i | 0 <= i < |ts| ensures Inv(ts[i]) && ts[i].addr == addr && InShard(mutx, i, ts[i]) && Owned(ts[i]) == {} {
      assert ts[i] in ts;
      assert multiset(UpsOf([])) == multiset{};
      assert ts[i].ups.Keys == {};
    }
  }

  lemma ShardsLists(mutx: u8, addr: Addr, ts: seq<Table>)
    requires ShardsInv(mutx, addr, ts)
    ensures forall i :: 0 <= i < |ts| ==> Inv(ts[i]) && Lists(ts[i].queue, ts[i].ups)
  {
  }

  lemma DropNone(h: Held)
    ensures DropAll(h, []) == h
  {
  }
}
