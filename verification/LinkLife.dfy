/** How long a link lives: lookups against passes, over whole runs; and how many ports the runs hold. */
module LinkLife {
  import opened Net
  import opened PortPool
  import opened LinkTable
  import opened LinkRuns

  /** The pass of operation op comes to u's entry and finds it past its time. */
  ghost predicate Pops(t: Table, ttl: nat, op: Op, u: Uplink) {
    !op.Lookup? && exists k: nat :: k < |t.queue| && t.queue[k].up == u
                                    && Turn(t, ttl, op.clock, k) && PastTime(t, ttl, op.clock, k)
  }

  /** The count of u starts anew: its Add, or a pass that finds its entry past its time. */
  ghost predicate Restarts(t: Table, ttl: nat, op: Op, u: Uplink) {
    (op.Add? && op.s == u && op.r.Ok?) || Pops(t, ttl, op, u)
  }

  predicate Asks(op: Op, u: Uplink) { op.Lookup? && op.s == u }

  /** How many of the operations from i up to n look u up. */
  function Asked(ops: seq<Op>, u: Uplink, i: nat, n: nat): nat
    requires i <= n <= |ops|
    decreases n
  {
    if i == n then 0 else Asked(ops, u, i, n - 1) + if Asks(ops[n - 1], u) then 1 else 0
  }

  lemma {:induction false} AskedNone(ops: seq<Op>, u: Uplink, i: nat, n: nat)
    requires i <= n <= |ops|
    ensures Asked(ops, u, i, n) == 0 <==> forall x :: i <= x < n ==> !Asks(ops[x], u)
    decreases n
  {
    if i < n {
      AskedNone(ops, u, i, n - 1);
    }
  }

  /** One operation and one link that is live before it. */
  lemma StepHits(ttl: nat, sys: Sys, op: Op, after: Sys, u: Uplink)
    requires SysInv(sys) && Step(ttl, sys, op, after) && u in sys.table.ups
    ensures u !in after.table.ups <==> Pops(sys.table, ttl, op, u) && sys.table.ups[u].hits == 0
    ensures u in after.table.ups ==>
              after.table.ups[u].hits == (if Pops(sys.table, ttl, op, u) then 0
                                          else sys.table.ups[u].hits + if Asks(op, u) then 1 else 0)
  {
    hide Inv, Lists, Cleanup, Turn, PastTime, Owned, Outcome, Take, DropAll;
    if !op.Lookup? {
      PassHits(sys.table, ttl, op, u);
    }
  }

  lemma PassHits(t: Table, ttl: nat, op: Op, u: Uplink)
    requires Inv(t) && u in t.ups && !op.Lookup?
    ensures var after := Cleanup(t, ttl, op.clock).0;
            && (u !in after.ups <==> Pops(t, ttl, op, u) && t.ups[u].hits == 0)
            && (u in after.ups ==> after.ups[u].hits == if Pops(t, ttl, op, u) then 0 else t.ups[u].hits)
  {
    hide Inv, Lists, Cleanup, Turn, PastTime;
    InvLists(t);
    QueueOf(t, u);
    var k: nat :| k < |t.queue| && t.queue[k].up == u;
    CleanupEntry(t, ttl, op.clock, k);
    forall j: nat | j < |t.queue| && t.queue[j].up == u ensures j == k {
      ListedOnce(t, j, k);
    }
  }

  lemma ListedOnce(t: Table, j: nat, k: nat)
    requires Lists(t.queue, t.ups) && j < |t.queue| && k < |t.queue| && t.queue[j].up == t.queue[k].up
    ensures j == k
  {
    hide Lists;
    if j < k {
      assert t.queue == t.queue[..k] + t.queue[k..];
      ListsOnce(t.queue[..k], t.queue[k..], t.ups, j, 0);
    } else if k < j {
      assert t.queue == t.queue[..j] + t.queue[j..];
      ListsOnce(t.queue[..j], t.queue[j..], t.ups, k, 0);
    }
  }

  lemma AddStarts(ttl: nat, sys: Sys, op: Op, after: Sys, u: Uplink)
    requires SysInv(sys) && Step(ttl, sys, op, after) && u in after.table.ups && u !in sys.table.ups
    ensures op.Add? && op.s == u && op.r.Ok? && after.table.ups[u].hits == 0
  {
    hide Inv, Lists, Cleanup, Owned, Outcome, Take, DropAll;
    if !op.Lookup? {
      InvLists(sys.table);
      CleanupKeys(sys.table, ttl, op.clock);
    }
  }

  /** Operation m is the last before n that started u's count anew, and u has been live since. */
  ghost predicate LastRestart(ttl: nat, ops: seq<Op>, run: seq<Sys>, u: Uplink, m: nat, n: nat)
    requires |run| == |ops| + 1
  {
    && m < n < |run| && Restarts(run[m].table, ttl, ops[m], u)
    && (forall x :: m < x < n ==> !Restarts(run[x].table, ttl, ops[x], u))
    && forall x :: m < x <= n ==> u in run[x].table.ups
  }

  /** Every live link has such an operation, and its counter holds the lookups since. */
  lemma {:induction false} HitsCounted(addr: Addr, ttl: nat, ops: seq<Op>, run: seq<Sys>, u: Uplink, n: nat)
    returns (m: nat)
    requires Run(addr, ttl, ops, run) && n < |run| && u in run[n].table.ups
    ensures LastRestart(ttl, ops, run, u, m, n)
    ensures run[n].table.ups[u].hits == Asked(ops, u, m + 1, n)
  {
    hide Step, SysInv, Pops;
    if n > 0 {
      RunInv(addr, ttl, ops, run, n - 1);
      if u !in run[n - 1].table.ups {
        m := n - 1;
        AddStarts(ttl, run[m], ops[m], run[n], u);
      } else {
        StepHits(ttl, run[n - 1], ops[n - 1], run[n], u);
        if Restarts(run[n - 1].table, ttl, ops[n - 1], u) {
          m := n - 1;
          AddedAbsent(ttl, run[m], ops[m], run[n], u);
        } else {
          m := HitsCounted(addr, ttl, ops, run, u, n - 1);
        }
      }
    }
  }

  lemma AddedAbsent(ttl: nat, sys: Sys, op: Op, after: Sys, u: Uplink)
    requires SysInv(sys) && Step(ttl, sys, op, after) && u in sys.table.ups
    ensures !(op.Add? && op.s == u && op.r.Ok?)
  {
  }

  /** A pass removes a live link if and only if it comes to its entry, finds it past its time, and nobody has
      looked the link up since its Add or since the last pass that found it past its time. */
  lemma RemovedExactly(addr: Addr, ttl: nat, ops: seq<Op>, run: seq<Sys>, u: Uplink, n: nat) returns (m: nat)
    requires Run(addr, ttl, ops, run) && n < |ops| && u in run[n].table.ups
    ensures LastRestart(ttl, ops, run, u, m, n)
    ensures u !in run[n + 1].table.ups
            <==> Pops(run[n].table, ttl, ops[n], u) && forall x :: m < x < n ==> !Asks(ops[x], u)
  {
    hide Step, SysInv, Pops;
    m := HitsCounted(addr, ttl, ops, run, u, n);
    RunInv(addr, ttl, ops, run, n);
    StepHits(ttl, run[n], ops[n], run[n + 1], u);
    AskedNone(ops, u, m + 1, n);
  }

  /** In particular a link survives the next pass after a lookup, however late that is. */
  lemma LookupSaves(addr: Addr, ttl: nat, ops: seq<Op>, run: seq<Sys>, u: Uplink, i: nat, n: nat)
    requires Run(addr, ttl, ops, run) && i < n < |ops| && Asks(ops[i], u) && u in run[i].table.ups
    requires forall x :: i < x < n ==> ops[x].Lookup?
    ensures u in run[n].table.ups && u in run[n + 1].table.ups
  {
    hide Step, SysInv, Turn, PastTime;
    StaysThrough(addr, ttl, ops, run, u, i, n);
    var m := RemovedExactly(addr, ttl, ops, run, u, n);
    assert ops[i].Lookup? && (m > i ==> ops[m].Lookup?);
  }

  lemma {:induction false} StaysThrough(addr: Addr, ttl: nat, ops: seq<Op>, run: seq<Sys>, u: Uplink, i: nat, n: nat)
    requires Run(addr, ttl, ops, run) && i <= n < |run| && u in run[i].table.ups
    requires forall x :: i <= x < n ==> ops[x].Lookup?
    ensures u in run[n].table.ups
    decreases n
  {
    hide SysInv;
    if i < n {
      StaysThrough(addr, ttl, ops, run, u, i, n - 1);
      RunInv(addr, ttl, ops, run, n - 1);
    }
  }

  /** Every live link was made by an Add, and has been live since. */
  lemma {:induction false} MadeBy(addr: Addr, ttl: nat, ops: seq<Op>, run: seq<Sys>, u: Uplink, n: nat) returns (i: nat)
    requires Run(addr, ttl, ops, run) && n < |run| && u in run[n].table.ups
    ensures i < n && ops[i].Add? && ops[i].r.Ok? && ops[i].s == u
    ensures forall x :: i < x <= n ==> u in run[x].table.ups
  {
    hide Step, SysInv;
    if n > 0 {
      RunInv(addr, ttl, ops, run, n - 1);
      if u in run[n - 1].table.ups {
        i := MadeBy(addr, ttl, ops, run, u, n - 1);
      } else {
        i := n - 1;
        AddStarts(ttl, run[i], ops[i], run[n], u);
      }
    }
  }

  /** What a successful Add leaves, besides what its pass left of the others: a link on the port it answers, not
      looked up yet, last in the queue with the Add's time, whose replies go to the Add's connection with the
      process's own port. */
  lemma AddMeans(ttl: nat, sys: Sys, op: Op, after: Sys)
    requires SysInv(sys) && Step(ttl, sys, op, after) && op.Add? && op.r.Ok?
    ensures var c := Cleaned(sys, ttl, op.clock);
            var d := Downlink(op.s.server, op.s.proto, AddrPort(sys.table.addr, op.r.value));
            && after.table.ups == c.table.ups[op.s := Cell(op.r.value, 0)] && op.s !in c.table.ups
            && after.table.queue == c.table.queue + [TtlKey(op.s, op.now)]
            && after.table.downs == c.table.downs[d := DownKey(op.conn, op.s.process.port)] && d !in c.table.downs
            && (forall t :: Has(after.held, t) <==> Has(c.held, t) || t == Triple(op.s.proto, op.r.value, op.s.server))
            && !Has(c.held, Triple(op.s.proto, op.r.value, op.s.server))
  {
    hide Inv, Lists, Cleanup, Owned, Take, DropAll;
    InvLists(sys.table);
    CleanupKeys(sys.table, ttl, op.clock);
    CleanedInv(sys, ttl, op.clock);
    var c := Cleaned(sys, ttl, op.clock);
    OutcomeStep(c.held, op.s.proto, op.s.server, op.reply, op.r);
    TakeHas(c.held, Triple(op.s.proto, op.r.value, op.s.server));
    NoRoute(c, op.s, op.r.value);
  }

  lemma NoRoute(c: Sys, s: Uplink, port: u16)
    requires SysInv(c) && !Has(c.held, Triple(s.proto, port, s.server))
    ensures Downlink(s.server, s.proto, AddrPort(c.table.addr, port)) !in c.table.downs
  {
    hide Lists, Distinct, Routed;
    var d := Downlink(s.server, s.proto, AddrPort(c.table.addr, port));
    forall u | u in c.table.ups ensures c.table.LinkOf(u).Down() != d {
      assert c.table.LinkOf(u).Triple() in Owned(c.table);
    }
    assert d in c.table.downs ==> Rooted(c.table, d);
  }

  /** What a pass leaves of routes and reservations: those of the links it left. */
  lemma CleanMeans(sys: Sys, ttl: nat, clock: Clock)
    requires SysInv(sys)
    ensures var c := Cleaned(sys, ttl, clock);
            && (forall d :: d in c.table.downs <==> exists u :: u in c.table.ups && c.table.LinkOf(u).Down() == d)
            && (forall d :: d in c.table.downs ==> d in sys.table.downs && c.table.downs[d] == sys.table.downs[d])
            && (forall t :: Has(c.held, t) <==> exists u :: u in c.table.ups && c.table.LinkOf(u).Triple() == t)
  {
    hide Lists, Distinct, Sweep, DropAll;
    InvLists(sys.table);
    CleanedInv(sys, ttl, clock);
    var c := Cleaned(sys, ttl, clock);
    assert forall d :: d in c.table.downs ==> Rooted(c.table, d);
    assert forall u :: u in c.table.ups ==> Routed(c.table, u);
  }

  // The ports a run holds

  /** What GetPort answers is a step of the pool: it reuses a port whenever it can. */
  lemma OutcomeStep(h: Held, proto: u8, remote: AddrPort, reply: Reply, r: Result<u16, PortError>)
    requires Outcome(h, proto, remote, reply, r) && r.Ok?
    ensures var t := Triple(proto, r.value, remote);
            && PoolStep(h, Get(t), Take(h, t)) && !Has(h, t)
            && ((exists k :: k in h && k.proto == proto && remote !in h[k]) <==> t.Key() in h)
  {
    if AnyReusable(h, proto, remote) {
      var k :| k in h && Reusable(h, proto, remote, k);
    }
  }

  /** When GetPort fails, and which port it answers when none can be shared. */
  lemma OutcomeExact(h: Held, proto: u8, remote: AddrPort, reply: Reply, r: Result<u16, PortError>)
    requires Outcome(h, proto, remote, reply, r)
    ensures var shared := exists k :: k in h && k.proto == proto && remote !in h[k];
            && (r.Err? <==> remote.addr == NoAddr || (!shared && ((proto != 6 && proto != 17) || !reply.Bound?)))
            && (r.Ok? && !shared ==> reply == Bound(r.value) && PortKey(proto, r.value) !in h)
            && (r == Err(InvalidRemote) <==> remote.addr == NoAddr)
            && (r == Err(UnknownProtocol) <==> remote.addr != NoAddr && !shared && proto != 6 && proto != 17)
  {
    if k :| k in h && k.proto == proto && remote !in h[k] {
      assert Reusable(h, proto, remote, k);
    }
  }

  lemma {:induction false} DropAllPorts(h: Held, links: seq<Link>, proto: u8)
    ensures PortsOf(DropAll(h, links), proto) <= PortsOf(h, proto)
  {
    if links != [] {
      DropAllPorts(Drop(h, links[0].Triple()), links[1..], proto);
    }
  }

  lemma StepEconomy(ttl: nat, sys: Sys, op: Op, after: Sys, proto: u8) returns (remote: AddrPort)
    requires SysInv(sys) && Step(ttl, sys, op, after)
    ensures PortsOf(after.held, proto) <= PortsOf(sys.held, proto)
            || LoadOf(after.held, proto, remote) == PortsOf(after.held, proto)
  {
    hide Inv, Cleanup, Outcome, Take, DropAll, PortsOf, LoadOf, Lists, PoolStep, Owned;
    remote := AddrPort(NoAddr, 0);
    if !op.Lookup? {
      InvLists(sys.table);
      DropAllPorts(sys.held, Cleanup(sys.table, ttl, op.clock).1, proto);
      if op.Add? && op.r.Ok? {
        remote := op.s.server;
        var h := Cleaned(sys, ttl, op.clock).held;
        OutcomeStep(h, op.s.proto, remote, op.reply, op.r);
        StepPorts(h, Get(Triple(op.s.proto, op.r.value, remote)), after.held, proto);
      }
    }
  }

  /** In every run of the manager the ports held for a protocol never exceed the most reservations one remote
      has had at once. */
  lemma {:induction false} RunEconomy(addr: Addr, ttl: nat, ops: seq<Op>, run: seq<Sys>, proto: u8, n: nat)
    returns (j: nat, remote: AddrPort)
    requires Run(addr, ttl, ops, run) && n < |run|
    ensures j <= n && |PortsOf(run[n].held, proto)| <= |LoadOf(run[j].held, proto, remote)|
  {
    hide Step, SysInv, LoadOf;
    if n == 0 {
      j, remote := 0, AddrPort(NoAddr, 0);
      assert PortsOf(run[0].held, proto) == {};
    } else {
      RunInv(addr, ttl, ops, run, n - 1);
      remote := StepEconomy(ttl, run[n - 1], ops[n - 1], run[n], proto);
      j := n;
      if PortsOf(run[n].held, proto) <= PortsOf(run[n - 1].held, proto) {
        SubsetCard(PortsOf(run[n].held, proto), PortsOf(run[n - 1].held, proto));
        j, remote := RunEconomy(addr, ttl, ops, run, proto, n - 1);
      }
    }
  }
}
