/** `maps.linkManager`, proved against the functions of LinkTable. */
module LinkManagers {
  import opened Net
  import opened PortPool
  import opened Ports
  import opened LinkTable
  import opened LinkRuns
  import opened RingQueue
  import PortWord

  datatype Verdict = Stop | Again | Gone(link: Link)

  class LinkManager {
    const addr: Addr
    const ap: Adapter
    const duration: nat
    var uplinkMap: map<Uplink, PortWord.Port>
    const ttl: Heap<TtlKey>
    var downlinkMap: map<Downlink, DownKey>
    ghost var ups: Ups  // uplinkMap as a value
    ghost var words: set<PortWord.Port>  // every port word uplinkMap refers to

    ghost predicate WordsValid()
      reads this`ups, this`uplinkMap, this`words, words
    {
      && ups.Keys == uplinkMap.Keys
      && (forall u :: u in uplinkMap ==> uplinkMap[u] in words && WordIs(uplinkMap[u], ups[u]))
      && (forall u, v :: u in uplinkMap && v in uplinkMap && uplinkMap[u] == uplinkMap[v] ==> u == v)
    }

    ghost predicate WordIs(w: PortWord.Port, c: Cell)
      reads w
    {
      PortWord.Top(w.word) == c.port && PortWord.Hits(w.word) == c.hits
    }

    ghost predicate QueueValid()
      reads ttl, ttl.vals
    {
      ttl.Valid() && ttl.vals.Length > 0
    }

    ghost function View(): Table
      reads this`ups, this`downlinkMap, ttl
    {
      Table(addr, ups, ttl.contents, downlinkMap)
    }

    /** What this manager alone maintains; other managers may share the adapter. */
    ghost predicate Valid()
      reads this, ttl, ttl.vals, words
    {
      QueueValid() && WordsValid() && Inv(View())
    }

    /** The adapter holds a reservation for every link. */
    ghost predicate Holds()
      reads this, ttl, ap
    {
      HeldBy(ap.held, View())
    }

    constructor (ap: Adapter, addr: Addr, duration: nat)
      ensures Valid() && this.ap == ap && this.addr == addr && this.duration == duration
      ensures View() == Table(addr, map[], [], map[]) && words == {}
      ensures fresh(ttl) && fresh(ttl.vals)
    {
      this.ap, this.addr, this.duration := ap, addr, duration;
      ttl := new Heap<TtlKey>(64, TtlKey(Uplink(AddrPort(NoAddr, 0), 0, AddrPort(NoAddr, 0)), 0));
      uplinkMap, downlinkMap, ups, words := map[], map[], map[], {};
      new;
      assert multiset(UpsOf([])) == multiset{};
      assert ups.Keys == {};
    }

    method Idle(u: Uplink) returns (idle: bool)
      requires WordsValid() && u in ups
      modifies this`ups, words
      ensures WordsValid() && ups == old(ups)[u := old(ups)[u].(hits := 0)]
      ensures idle <==> old(ups)[u].hits == 0
    {
      idle := uplinkMap[u].Idle();
      ups := ups[u := ups[u].(hits := 0)];
    }

    method Remove(u: Uplink) returns (port: u16)
      requires WordsValid() && u in ups && ups[u].hits == 0
      modifies this`ups, this`uplinkMap, words
      ensures WordsValid() && ups == old(ups) - {u} && port == old(ups)[u].port
    {
      port := uplinkMap[u].GetPort();
      uplinkMap := uplinkMap - {u};
      ups := ups - {u};
    }

    /** Decides about one popped entry: its link is gone, it is queued again, or the pass stops. */
    method Visit(e: TtlKey, clock: Clock, i: nat) returns (v: Verdict)
      requires WordsValid() && e.up in ups
      modifies this`ups, this`uplinkMap, words
      ensures WordsValid() && Visited(e, clock, i, old(ups), v)
    {
      if !(e.Valid() && clock(2 * i) - e.start > duration) {
        return Stop;
      }
      var idle := Idle(e.up);
      if !idle {
        return Again;
      }
      var port := Remove(e.up);
      return Gone(Link(e.up, AddrPort(addr, port)));
    }

    ghost predicate Visited(e: TtlKey, clock: Clock, i: nat, before: Ups, v: Verdict)
      requires e.up in before
      reads this
    {
      match v
      case Stop => !e.Expired(clock(2 * i), duration) && ups == before
      case Again => (e.Expired(clock(2 * i), duration) && before[e.up].hits != 0
        && ups == before[e.up := before[e.up].(hits := 0)])
      case Gone(l) => (e.Expired(clock(2 * i), duration) && before[e.up].hits == 0
        && ups == before - {e.up} && l == Link(e.up, AddrPort(addr, before[e.up].port)))
    }

    /** One iteration: pop the head, and put it back unless its link is gone. */
    method Rotate(clock: Clock, i: nat) returns (v: Verdict)
      requires QueueValid() && WordsValid() && ttl.contents != [] && ttl.contents[0].up in ups
      modifies this`ups, this`uplinkMap, words, ttl, ttl.vals
      ensures QueueValid() && WordsValid() && fresh({ttl.vals} - {old(ttl.vals)})
      ensures Visited(old(ttl.contents)[0], clock, i, old(ups), v)
      ensures ttl.contents == old(ttl.contents)[1..] + (if v.Gone? then [] else
                [TtlKey(old(ttl.contents)[0].up, clock(2 * i + 1))])
    {
      ghost var q := ttl.contents;
      var e := ttl.Pop();
      assert q == [e] + q[1..];
      hide WordsValid;
      v := Visit(e, clock, i);
      if !v.Gone? {
        ttl.Put(TtlKey(e.up, clock(2 * i + 1)));
      }
    }

    /** The uplink-locked section of Cleanup. */
    method SweepUplinks(clock: Clock) returns (ls: seq<Link>)
      requires QueueValid() && WordsValid() && Lists(ttl.contents, ups)
      modifies this`ups, this`uplinkMap, words, ttl, ttl.vals
      ensures QueueValid() && WordsValid() && fresh({ttl.vals} - {old(ttl.vals)})
      ensures SweptFrom(clock, old(ttl.contents), old(ups), Swept(ups, ls, ttl.contents))
    {
      hide WordsValid, Lists, Sweep;
      ghost var q := ttl.contents;
      ghost var back: seq<TtlKey> := [];
      assert q[0..] + [] == q;
      ls := [];
      var i := 0;
      while i < ttl.size
        invariant QueueValid() && WordsValid() && fresh({ttl.vals} - {old(ttl.vals)})
        invariant 0 <= i <= |q| && |back| + |ls| == i
        invariant ttl.contents == q[i..] + back && Lists(q[i..] + back, ups)
        invariant Sweep(addr, duration, clock, q, old(ups), 0, [], [])
                  == Sweep(addr, duration, clock, q, ups, i, ls, back)
        decreases |q| - i
      {
        Unfold(clock, q, i, ls, back);
        SweepStep(clock, q, ups, i, back);
        assert (q[i..] + back)[1..] == q[i + 1..] + back;
        var v := Rotate(clock, i);
        if v.Gone? {
          ls := ls + [v.link];
        } else {
          var again := TtlKey(q[i].up, clock(2 * i + 1));
          assert q[i + 1..] + back + [again] == q[i + 1..] + (back + [again]);
          back := back + [again];
          if v.Stop? {
            return;
          }
        }
        i := i + 1;
      }
      Unfold(clock, q, i, ls, back);
    }

    ghost predicate SweptFrom(clock: Clock, queue: seq<TtlKey>, before: Ups, r: Swept) {
      queue[0..] + [] == queue && Lists(queue, before) && r == Sweep(addr, duration, clock, queue, before, 0, [], [])
    }

    /** One unfolding of Sweep at the current uplinks. */
    lemma Unfold(clock: Clock, q: seq<TtlKey>, i: nat, ls: seq<Link>, back: seq<TtlKey>)
      requires i <= |q| && Lists(q[i..] + back, ups)
      ensures i + |ls| >= |q| ==>
                Sweep(addr, duration, clock, q, ups, i, ls, back) == Swept(ups, ls, q[i..] + back)
      ensures i + |ls| < |q| ==> SweepStepped(clock, q, i, ls, back)
    {
      if i + |ls| < |q| {
        SweepStep(clock, q, ups, i, back);
      }
    }

    ghost predicate SweepStepped(clock: Clock, q: seq<TtlKey>, i: nat, ls: seq<Link>, back: seq<TtlKey>)
      requires i < |q| && Lists(q[i..] + back, ups)
      reads this
    {
      SweepStep(clock, q, ups, i, back);
      var e := q[i];
      var again := back + [TtlKey(e.up, clock(2 * i + 1))];
      Sweep(addr, duration, clock, q, ups, i, ls, back)
      == if !e.Expired(clock(2 * i), duration) then Swept(ups, ls, q[i + 1..] + again)
         else if ups[e.up].hits == 0 then
           Sweep(addr, duration, clock, q, ups - {e.up}, i + 1, ls + [Link(e.up, AddrPort(addr, ups[e.up].port))], back)
         else Sweep(addr, duration, clock, q, ups[e.up := ups[e.up].(hits := 0)], i + 1, ls, again)
    }

    /** The downlink-locked section of Cleanup. */
    method RemoveDowns(ls: seq<Link>)
      requires forall l :: l in ls ==> l.local.addr == addr
      modifies this`downlinkMap
      ensures downlinkMap == old(downlinkMap) - DownSet(ls)
    {
      for i := 0 to |ls|
        invariant downlinkMap == old(downlinkMap) - DownSet(ls[..i])
      {
        downlinkMap := downlinkMap - {Downlink(ls[i].up.server, ls[i].up.proto, AddrPort(addr, ls[i].local.port))};
        assert ls[..i + 1] == ls[..i] + [ls[i]];
        assert DownSet(ls[..i + 1]) == DownSet(ls[..i]) + {ls[i].Down()};
      }
      assert ls[..|ls|] == ls;
    }

    /** What Cleanup does after it gave up the uplink lock: both remaining sections. */
    method Retire(ls: seq<Link>)
      requires ap.Valid() && forall l :: l in ls ==> l.local.addr == addr && Has(ap.held, l.Triple())
      requires Apart(ls)
      requires QueueValid() && WordsValid()
      modifies this`downlinkMap, ap, ap.mgr, ap.mgr.os, ap.sets
      ensures ap.Valid() && ap.sets == old(ap.sets)
      ensures ap.held == DropAll(old(ap.held), ls)
      ensures downlinkMap == old(downlinkMap) - DownSet(ls)
      ensures QueueValid() && WordsValid()
    {
      hide Apart, WordsValid, QueueValid, Heap.Valid, Adapter.Valid, DropAll;
      if ls == [] {
        NothingToRetire(ap.held, downlinkMap);
        return;
      }
      RemoveDowns(ls);
      ReleaseAll(ap, ls);
    }

    /** The three sections together are LinkTable.Cleanup, and release no reservation still needed. */
    lemma CleanupFrom(before: Table, clock: Clock, r: Swept, h: Held)
      requires Inv(before) && before.addr == addr && HeldBy(h, before)
      requires SweptFrom(clock, before.queue, before.ups, r)
      ensures var after := Table(addr, r.ups, r.queue, before.downs - DownSet(r.links));
              && LinkTable.Cleanup(before, duration, clock) == (after, r.links)
              && Inv(after) && HeldBy(DropAll(h, r.links), after)
      ensures forall l :: l in r.links ==> l.local.addr == addr && Has(h, l.Triple())
      ensures Apart(r.links)
    {
      CleanupInv(before, duration, clock);
      CleanupOwned(before, duration, clock);
      DropAllHas(h, r.links);
      var after := LinkTable.Cleanup(before, duration, clock).0;
      hide Inv, Lists, Owned, PoppedExpired;
      forall l | l in r.links ensures l.local.addr == addr && Has(h, l.Triple()) {
        assert Removed(addr, before.ups, after.ups, l);
        assert l.Triple() in TripleSet(r.links);
      }
    }

    method Cleanup(clock: Clock) returns (ls: seq<Link>)
      requires Valid() && ap.Valid() && Holds()
      modifies this, words, ttl, ttl.vals, ap, ap.mgr, ap.mgr.os, ap.sets
      ensures Valid() && ap.Valid() && Holds()
      ensures (View(), ls) == LinkTable.Cleanup(old(View()), duration, clock)
      ensures ap.held == DropAll(old(ap.held), ls)
      ensures words == old(words) && ap.sets == old(ap.sets) && fresh({ttl.vals} - {old(ttl.vals)})
    {
      hide Apart, WordsValid, QueueValid, Heap.Valid, Inv, Lists, HeldBy, SweptFrom, LinkTable.Cleanup,
           Adapter.Valid, DropAll;
      InvLists(View());
      ls := SweepUplinks(clock);
      CleanupFrom(old(View()), clock, Swept(ups, ls, ttl.contents), old(ap.held));
      Retire(ls);
    }

    /** The uplink-locked section of Add. */
    method InsertUp(s: Uplink, port: u16, now: nat)
      requires QueueValid() && WordsValid() && s !in ups
      modifies this`ups, this`uplinkMap, this`words, ttl, ttl.vals
      ensures QueueValid() && WordsValid() && fresh({ttl.vals} - {old(ttl.vals)}) && fresh(words - old(words))
      ensures ups == old(ups)[s := Cell(port, 0)]
      ensures ttl.contents == old(ttl.contents) + [TtlKey(s, now)]
    {
      AddWord(s, port);
      hide WordsValid;
      ttl.Put(TtlKey(s, now));
    }

    method AddWord(s: Uplink, port: u16)
      requires WordsValid() && s !in ups
      modifies this`ups, this`uplinkMap, this`words
      ensures WordsValid() && fresh(words - old(words))
      ensures ups == old(ups)[s := Cell(port, 0)]
    {
      var p := new PortWord.Port(port);
      uplinkMap := uplinkMap[s := p];
      ups := ups[s := Cell(port, 0)];
      words := words + {p};
    }

    /** The port GetPort answers is reserved for no link yet, so the new link keeps the invariant. */
    lemma InsertKeeps(c: Table, h: Held, s: Uplink, conn: Conn, reply: Reply, r: Result<u16, PortError>, now: nat)
      requires Inv(c) && HeldBy(h, c) && s !in c.ups && r.Ok? && Outcome(h, s.proto, s.server, reply, r)
      ensures Inv(Insert(c, s, r.value, conn, now))
      ensures HeldBy(Take(h, Triple(s.proto, r.value, s.server)), Insert(c, s, r.value, conn, now))
    {
      var t := Triple(s.proto, r.value, s.server);
      assert !Has(h, t);
      assert t == Link(s, AddrPort(c.addr, r.value)).Triple();
      TakeHas(h, t);
      InsertInv(c, s, r.value, conn, now);
      InsertOwned(c, s, r.value, conn, now);
    }

    /** Callers add only uplinks that a lookup did not find. */
    method Add(s: Uplink, conn: Conn, clock: Clock, now: nat)
      returns (r: Result<u16, PortError>, ghost reply: Reply, ghost ls: seq<Link>)
      requires Valid() && ap.Valid() && Holds() && s !in ups
      modifies this, words, ttl, ttl.vals, ap, ap.mgr, ap.mgr.os, ap.sets
      ensures Valid() && ap.Valid() && Holds()
      ensures fresh(words - old(words)) && fresh({ttl.vals} - {old(ttl.vals)})
      ensures forall a :: a in ap.sets && a !in old(ap.sets) ==> fresh(a)
      ensures ls == LinkTable.Cleanup(old(View()), duration, clock).1
      ensures var c := LinkTable.Cleanup(old(View()), duration, clock).0;
              var h := DropAll(old(ap.held), ls);
              && Outcome(h, s.proto, s.server, reply, r)
              && ap.held == (if r.Ok? then Take(h, Triple(s.proto, r.value, s.server)) else h)
              && View() == if r.Ok? then Insert(c, s, r.value, conn, now) else c
    {
      hide Apart, WordsValid, QueueValid, Heap.Valid, Inv, Lists, HeldBy, LinkTable.Cleanup, Adapter.Valid, DropAll,
           Outcome, Take;
      InvLists(View());
      CleanupKeys(View(), duration, clock);
      ls := Cleanup(clock);
      r, reply := ap.GetPort(s.proto, s.server);
      if r.Err? {
        return;
      }
      InsertKeeps(View(), DropAll(old(ap.held), ls), s, conn, reply, r, now);
      InsertUp(s, r.value, now);
      downlinkMap := downlinkMap[Downlink(s.server, s.proto, AddrPort(addr, r.value)) := DownKey(conn, s.process.port)];
    }

    ghost predicate Saturated(s: Uplink)
      reads this`ups
    {
      s in ups && ups[s].hits + 1 == PortWord.LOW
    }

    /** `Uplink`: returns the port, and counts the hit unless the counter is about to overflow into
        the port. */
    method FindUplink(s: Uplink) returns (r: Option<u16>)
      requires Valid()
      modifies this`ups, words
      ensures r.Some? <==> s in old(ups)
      ensures !old(Saturated(s)) ==> Valid() && View() == Touch(old(View()), s)
      ensures !old(Saturated(s)) && r.Some? ==> r.value == old(ups)[s].port
      ensures r.Some? ==> ups == old(ups)[s := Cell(old(ups)[s].port, old(ups)[s].hits + 1)]
      ensures r.None? ==> ups == old(ups)
      ensures old(Saturated(s)) ==> r.value != old(ups)[s].port
    {
      hide Inv, Lists, QueueValid;
      if s !in uplinkMap {
        return None;
      }
      if !Saturated(s) {
        TouchInv(View(), s);
      }
      r := Count(s);
    }

    method Count(s: Uplink) returns (r: Option<u16>)
      requires WordsValid() && s in ups
      modifies this`ups, words
      ensures r.Some? && ups == old(ups)[s := Cell(old(ups)[s].port, old(ups)[s].hits + 1)]
      ensures !old(Saturated(s)) ==> WordsValid() && r.value == old(ups)[s].port
      ensures old(Saturated(s)) ==> r.value != old(ups)[s].port
    {
      var p := uplinkMap[s].GetPort();
      ups := ups[s := ups[s].(hits := ups[s].hits + 1)];
      return Some(p);
    }

    /** `Downlink`. */
    method FindDownlink(d: Downlink) returns (r: Option<DownKey>)
      ensures r == if d in View().downs then Some(View().downs[d]) else None
    {
      if d !in downlinkMap {
        return None;
      }
      return Some(downlinkMap[d]);
    }

    method Close()
      requires ap.Valid()
      modifies ap, ap.mgr, ap.mgr.os, ap.sets
      ensures ap.Valid() && ap.held == map[]
      ensures forall fd :: 0 <= fd < |ap.mgr.os.sockets| ==>
                (ap.mgr.os.sockets[fd].open <==> fd in old(ap.mgr.strays))
    {
      ap.Close();
    }
  }

  lemma NothingToRetire(h: Held, downs: map<Downlink, DownKey>)
    ensures DropAll(h, []) == h && downs - DownSet([]) == downs
  {
  }

  /** One DelPort per link: every key is still there when its turn comes. */
  method ReleaseAll(ap: Adapter, ls: seq<Link>)
    requires ap.Valid() && forall l :: l in ls ==> Has(ap.held, l.Triple())
    requires Apart(ls)
    modifies ap, ap.mgr, ap.mgr.os, ap.sets
    ensures ap.Valid() && ap.sets == old(ap.sets)
    ensures ap.held == DropAll(old(ap.held), ls)
  {
    for i := 0 to |ls|
      invariant ap.Valid() && ap.sets == old(ap.sets)
      invariant forall k :: i <= k < |ls| ==> Has(ap.held, ls[k].Triple())
      invariant DropAll(ap.held, ls[i..]) == DropAll(old(ap.held), ls)
    {
      HeldKeys(ap, ls[i].Triple());
      hide Adapter.Valid;
      DropHas(ap.held, ls[i].Triple());
      assert ls[i..][0] == ls[i] && ls[i..][1..] == ls[i + 1..];
      ap.DelPort(ls[i].up.proto, ls[i].local.port, ls[i].up.server);
    }
  }

  lemma HeldKeys(ap: Adapter, t: Triple)
    requires ap.Valid() && Has(ap.held, t)
    ensures t.Key() in ap.ports
  {
  }
}
