/** `maps.mutxLinkManager`: several link managers over one port adapter. */
module ShardedManagers {
  import opened Net
  import opened PortPool
  import opened Ports
  import opened LinkTable
  import opened LinkRuns
  import opened LinkManagers
  import opened Sharding
  import PortWord

  /** The state of two managers lies in different objects. */
  ghost predicate Separate(a: LinkManager, b: LinkManager)
    reads a`words, b`words, a.ttl, b.ttl
  {
    a != b && a.ttl != b.ttl && a.ttl.vals != b.ttl.vals && a.words !! b.words
  }

  ghost predicate Fresh(m: LinkManager, ap: Adapter, addr: Addr, duration: nat)
    reads m, m.ttl, m.ttl.vals, m.words
  {
    && m.Valid() && m.ap == ap && m.addr == addr && m.duration == duration
    && m.View() == Table(addr, map[], [], map[]) && m.words == {}
  }

  method NewManagers(a: Adapter, n: nat, addr: Addr, duration: nat) returns (ms: seq<LinkManager>)
    ensures |ms| == n
    ensures forall i :: 0 <= i < n ==> Fresh(ms[i], a, addr, duration)
    ensures forall i, j :: 0 <= i < n && 0 <= j < n && i != j ==> Separate(ms[i], ms[j])
    ensures forall i :: 0 <= i < n ==> fresh(ms[i]) && fresh(ms[i].ttl) && fresh(ms[i].ttl.vals)
  {
    hide LinkManager.Valid;
    ms := [];
    while |ms| < n
      invariant |ms| <= n
      invariant forall i :: 0 <= i < |ms| ==> Fresh(ms[i], a, addr, duration)
      invariant forall i :: 0 <= i < |ms| ==> fresh(ms[i]) && fresh(ms[i].ttl) && fresh(ms[i].ttl.vals)
      invariant forall i, j :: 0 <= i < |ms| && 0 <= j < |ms| && i != j ==> Separate(ms[i], ms[j])
    {
      var m := new LinkManager(a, addr, duration);
      ms := ms + [m];
    }
  }

  class MutxLinkManager {
    const ap: Adapter
    const addr: Addr
    const duration: nat
    const mutx: u8
    const mgrs: seq<LinkManager>
    ghost var views: seq<Table>  // each manager's state as a value

    ghost predicate Member(i: nat)
      requires i < |mgrs| && i < |views|
      reads this, mgrs[i], mgrs[i].ttl, mgrs[i].ttl.vals, mgrs[i].words
    {
      var m := mgrs[i];
      m.Valid() && m.ap == ap && m.addr == addr && m.duration == duration && m.View() == views[i]
    }

    ghost predicate Valid()
      reads this, mgrs, Heaps(), Words(), Queues(), ap, ap.mgr, ap.mgr.os, ap.sets
    {
      && mutx > 0 && |mgrs| == |views|
      && ap.Valid()
      && Group()
      && ShardsInv(mutx, addr, views)
      && Exact(views, ap.held)
    }

    /** Every manager is valid on its own, and no two overlap. */
    ghost predicate Group()
      requires |mgrs| == |views|
      reads this, mgrs, Heaps(), Words(), Queues()
    {
      && (forall i :: 0 <= i < |mgrs| ==> Member(i))
      && (forall i, j :: 0 <= i < |mgrs| && 0 <= j < |mgrs| && i != j ==> Separate(mgrs[i], mgrs[j]))
    }

    ghost function Words(): set<PortWord.Port>
      reads set m | m in mgrs :: m`words
    {
      set m, w | m in mgrs && w in m.words :: w
    }

    ghost function Heaps(): set<object> {
      set m | m in mgrs :: m.ttl
    }

    ghost function Queues(): set<object>
      reads Heaps()
    {
      Heaps() + set m | m in mgrs :: m.ttl.vals
    }

    constructor (mutx: u8, duration: nat, addr: Addr, os: Os)
      requires os.sockets == []
      ensures mutx > 0 ==> Valid()
      ensures |mgrs| == |views| && Group() && ap.Valid() && fresh(ap) && ap.mgr.os == os
      ensures this.mutx == mutx && |mgrs| == if mutx < 4 then 4 else mutx
      ensures forall t :: t in views ==> t == Table(addr, map[], [], map[])
    {
      hide Adapter.Valid, Separate, ShardsInv, Exact, LinkManager.Valid;
      var a := new Adapter(os);
      var n := if mutx < 4 then 4 else mutx;
      var ms := NewManagers(a, n, addr, duration);
      this.ap, this.addr, this.duration, this.mutx, mgrs := a, addr, duration, mutx, ms;
      views := seq(n, _ => Table(addr, map[], [], map[]));
      new;
      if mutx > 0 {
        EmptyShards(mutx, addr, views);
      }
      forall i | 0 <= i < |mgrs| ensures Member(i) {
        assert Fresh(mgrs[i], ap, addr, duration);
      }
    }

    /** The manager for a server; Go's indexing and modulo panic on an invalid address or on zero. */
    function Index(server: Addr): (k: nat)
      requires server.IsValid() && mutx > 0
      ensures k < mutx
    {
      Shard(mutx, server)
    }

    method FindDownlink(d: Downlink) returns (r: Option<DownKey>)
      requires Valid() && d.server.IsValid()
      ensures r == if d in AllDowns(views) then Some(AllDowns(views)[d]) else None
    {
      ReplyIsFlat(mutx, addr, views, d);
      assert Member(Index(d.server.addr));
      r := mgrs[Index(d.server.addr)].FindDownlink(d);
    }

    /** Every manager but the k-th is as it was. */
    twostate predicate OthersUnchanged(k: nat)
      reads this, mgrs, Heaps(), Words(), Queues()
    {
      forall i :: 0 <= i < |mgrs| && i != k ==>
        unchanged(mgrs[i]) && unchanged(mgrs[i].ttl) && unchanged(mgrs[i].ttl.vals) && unchanged(mgrs[i].words)
    }

    /** A step of one manager that leaves the others alone keeps the group together. */
    twostate lemma Regroup(k: nat)
      requires k < |mgrs| == |views| && old(|views|) == |mgrs| && old(Group())
      requires forall i :: 0 <= i < |mgrs| && i != k ==> views[i] == old(views[i])
      requires Member(k) && OthersUnchanged(k)
      requires fresh(mgrs[k].words - old(mgrs[k].words)) && fresh({mgrs[k].ttl.vals} - {old(mgrs[k].ttl.vals)})
      ensures Group()
    {
      hide LinkManager.Valid;
      forall i | 0 <= i < |mgrs| ensures Member(i) {
        assert old(Member(i));
      }
      forall i, j | 0 <= i < |mgrs| && 0 <= j < |mgrs| && i != j ensures Separate(mgrs[i], mgrs[j]) {
        assert old(Separate(mgrs[i], mgrs[j]));
        assert old(allocated(mgrs[i].ttl.vals)) && old(allocated(mgrs[j].ttl.vals));
      }
    }

    /** The responsible manager counts the hit; no other manager is touched. */
    method FindUplink(s: Uplink) returns (r: Option<u16>)
      requires Valid() && s.server.IsValid()
      modifies this`views, mgrs, Words()
      ensures ap.held == old(ap.held) && (r.Some? <==> s in AllUps(old(views)))
      ensures !Saturated(old(views), s) ==>
                && Valid() && (r.Some? ==> r.value == AllUps(old(views))[s].port)
                && views == old(views)[Index(s.server.addr) := Touch(old(views)[Index(s.server.addr)], s)]
      ensures Saturated(old(views), s) ==> r.value != AllUps(old(views))[s].port
      ensures r.Some? ==>
                var k := Index(s.server.addr);
                && k < |views| == |old(views)| && s in old(views)[k].ups
                && var was := old(views)[k].ups; views[k].ups == was[s := Cell(was[s].port, was[s].hits + 1)]
    {
      hide Inv, LinkManager.Valid, Adapter.Valid, Exact, Separate, AllUps, Sharding.InShard, Touch;
      LookupIsFlat(mutx, addr, views, s);
      var k := Index(s.server.addr);
      assert Member(k);
      r := Ask(k, s);
      if !Saturated(old(views), s) {
        TouchShard(mutx, addr, old(views), k, s, ap.held);
        Regroup(k);
      }
    }

    /** The next lookup of the uplink carries into the port. */
    static ghost predicate Saturated(ts: seq<Table>, s: Uplink) {
      s in AllUps(ts) && AllUps(ts)[s].hits + 1 >= PortWord.LOW
    }

    method Ask(k: nat, s: Uplink) returns (r: Option<u16>)
      requires k < |mgrs| == |views| && Group() && ap.Valid()
      modifies this`views, mgrs[k], mgrs[k].words
      ensures views == old(views)[k := Touch(old(views)[k], s)] && OthersUnchanged(k) && ap.Valid()
      ensures r.Some? <==> s in old(views)[k].ups
      ensures r.Some? ==>
                views[k].ups == old(views)[k].ups[s := Cell(old(views)[k].ups[s].port, old(views)[k].ups[s].hits + 1)]
      ensures (s in old(views)[k].ups ==> old(views)[k].ups[s].hits + 1 < PortWord.LOW) ==>
                && Member(k) && (r.Some? ==> r.value == old(views)[k].ups[s].port)
      ensures s in old(views)[k].ups && old(views)[k].ups[s].hits + 1 >= PortWord.LOW ==>
                r.value != old(views)[k].ups[s].port
      ensures mgrs[k].words == old(mgrs[k].words) && mgrs[k].ttl.vals == old(mgrs[k].ttl.vals)
    {
      hide Adapter.Valid, Inv, LinkManager.WordsValid, LinkManager.QueueValid;
      assert Member(k);
      HitsFit(views[k], s);
      r := mgrs[k].FindUplink(s);
      views := views[k := Touch(views[k], s)];
    }

    /** Add through the responsible manager: it cleans up its own links, then shares the ports. */
    method Add(s: Uplink, conn: Conn, clock: Clock, now: nat)
      returns (r: Result<u16, PortError>, ghost reply: Reply, ghost ls: seq<Link>)
      requires Valid() && s.server.IsValid() && s !in AllUps(views)
      modifies this`views, mgrs, Words(), Queues(), ap, ap.mgr, ap.mgr.os, ap.sets
      ensures Valid()
      ensures var k := Index(s.server.addr);
              Added(duration, old(views)[k], old(ap.held), s, conn, clock, now, r, reply, ls, views[k], ap.held)
      ensures forall i :: 0 <= i < |views| && i != Index(s.server.addr) ==> views[i] == old(views)[i]
    {
      hide Inv, LinkManager.Valid, Adapter.Valid, Exact, Separate, AllUps, Sharding.InShard, HeldBy, Added;
      LookupIsFlat(mutx, addr, views, s);
      var k := Index(s.server.addr);
      assert Member(k);
      ExactHeldBy(views, k, ap.held);
      r, reply, ls := AddAt(k, s, conn, clock, now);
      AddedShard(mutx, addr, old(views), k, duration, s, conn, clock, now,
                 r, reply, ls, views[k], old(ap.held), ap.held);
      assert views == old(views)[k := views[k]];
      Regroup(k);
    }

    method AddAt(k: nat, s: Uplink, conn: Conn, clock: Clock, now: nat)
      returns (r: Result<u16, PortError>, ghost reply: Reply, ghost ls: seq<Link>)
      requires k < |mgrs| == |views| && Group() && ap.Valid()
      requires HeldBy(ap.held, views[k]) && s !in views[k].ups
      modifies this`views, mgrs[k], mgrs[k].words, mgrs[k].ttl, mgrs[k].ttl.vals, ap, ap.mgr, ap.mgr.os, ap.sets
      ensures |views| == |mgrs| && views == old(views)[k := views[k]]
      ensures Added(duration, old(views)[k], old(ap.held), s, conn, clock, now, r, reply, ls, views[k], ap.held)
      ensures Member(k) && OthersUnchanged(k) && ap.Valid()
      ensures fresh(mgrs[k].words - old(mgrs[k].words)) && fresh({mgrs[k].ttl.vals} - {old(mgrs[k].ttl.vals)})
    {
      hide Inv, Adapter.Valid, HeldBy, Lists, LinkManager.WordsValid, LinkManager.QueueValid, LinkTable.Cleanup;
      assert Member(k);
      InvLists(mgrs[k].View());
      r, reply, ls := mgrs[k].Add(s, conn, clock, now);
      views := views[k := mgrs[k].View()];
    }

    method CleanupAt(k: nat, clock: Clock) returns (ls: seq<Link>)
      requires k < |mgrs| == |views| && Group() && ap.Valid() && HeldBy(ap.held, views[k])
      modifies this`views, mgrs[k], mgrs[k].words, mgrs[k].ttl, mgrs[k].ttl.vals, ap, ap.mgr, ap.mgr.os, ap.sets
      ensures |views| == |mgrs| && views == old(views)[k := views[k]]
      ensures Lists(old(views)[k].queue, old(views)[k].ups)
      ensures (views[k], ls) == LinkTable.Cleanup(old(views)[k], duration, clock)
      ensures ap.held == DropAll(old(ap.held), ls)
      ensures Member(k) && OthersUnchanged(k) && ap.Valid() && ap.sets == old(ap.sets)
      ensures mgrs[k].words == old(mgrs[k].words) && fresh({mgrs[k].ttl.vals} - {old(mgrs[k].ttl.vals)})
    {
      hide Inv, Adapter.Valid, HeldBy, Lists, LinkManager.WordsValid, LinkManager.QueueValid, LinkTable.Cleanup;
      assert Member(k);
      InvLists(mgrs[k].View());
      ls := mgrs[k].Cleanup(clock);
      views := views[k := mgrs[k].View()];
    }

    /** One shard's Cleanup keeps the whole valid. */
    method CleanupOne(k: nat, clock: Clock) returns (ls: seq<Link>)
      requires Valid() && k < |mgrs|
      modifies this`views, mgrs, Words(), Queues(), ap, ap.mgr, ap.mgr.os, ap.sets
      ensures Valid() && Lists(old(views)[k].queue, old(views)[k].ups)
      ensures views == old(views)[k := LinkTable.Cleanup(old(views)[k], duration, clock).0]
      ensures ls == LinkTable.Cleanup(old(views)[k], duration, clock).1
      ensures ap.held == DropAll(old(ap.held), ls)
      ensures ap.sets == old(ap.sets) && Words() == old(Words()) && fresh(Queues() - old(Queues()))
    {
      hide Inv, LinkManager.Valid, Adapter.Valid, Exact, Separate, Sharding.InShard, HeldBy, Lists, LinkTable.Cleanup,
           DropAll, ShardsInv;
      assert Member(k);
      ExactHeldBy(views, k, ap.held);
      ShardCleanup(mutx, addr, views, k, duration, clock, ap.held);
      ls := CleanupAt(k, clock);
      Regroup(k);
    }

    lemma Shaped()
      requires Valid()
      ensures |views| == |mgrs| && forall i :: 0 <= i < |views| ==> Lists(views[i].queue, views[i].ups)
    {
      hide Inv, Group, Adapter.Valid, Exact;
      ShardsLists(mutx, addr, views);
    }

    /** Cleans the managers one after the other and returns all their links. */
    method Cleanup(clocks: nat -> Clock) returns (ls: seq<Link>)
      requires Valid()
      modifies this`views, mgrs, Words(), Queues(), ap, ap.mgr, ap.mgr.os, ap.sets
      ensures Valid()
      ensures forall i :: 0 <= i < |views| ==> Lists(old(views)[i].queue, old(views)[i].ups)
      ensures ls == LinksOf(old(views), duration, clocks, |views|)
      ensures ap.held == DropAll(old(ap.held), ls)
      ensures forall i :: 0 <= i < |views| ==> views[i] == LinkTable.Cleanup(old(views)[i], duration, clocks(i)).0
    {
      hide Inv, Valid, Words, Queues, Lists, LinkTable.Cleanup, DropAll;
      Shaped();
      ls := [];
      DropNone(ap.held);
      for k := 0 to |mgrs|
        invariant Valid() && |views| == |mgrs| && ap.sets == old(ap.sets) && Words() == old(Words())
        invariant fresh(Queues() - old(Queues()))
        invariant ls == LinksOf(old(views), duration, clocks, k)
        invariant ap.held == DropAll(old(ap.held), ls)
        invariant forall i :: 0 <= i < k ==> views[i] == LinkTable.Cleanup(old(views)[i], duration, clocks(i)).0
        invariant forall i :: k <= i < |views| ==> views[i] == old(views)[i]
      {
        ghost var queues := Queues();
        label L:
        var more := CleanupOne(k, clocks(k));
        forall q | q in Queues() && q !in old(Queues()) ensures fresh(q) {
          assert q in queues || (q in Queues() - queues && fresh@L(q));
        }
        DropAllConcat(old(ap.held), ls, more);
        ls := ls + more;
      }
    }
  }
}
