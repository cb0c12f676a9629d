/** Any number of threads inside Add and Cleanup at once, on one link manager or on several that share an
    adapter. Each locked section is one step, and so are the parts of GetPort and DelPort that run between
    their locked sections. */
module Interleaving {
  import opened Net
  import opened PortPool
  import opened LinkTable
  import PortWord
  import Sharding

  /** Where a thread stands between two steps. */
  datatype Pc =
    | Idle
    | Missed(s: Uplink, conn: Conn)               // GetPort saw no reusable port
    | Chosen(s: Uplink, conn: Conn, port: u16)    // GetPort saw a reusable port, not yet taken
    | Opened(s: Uplink, conn: Conn, port: u16)    // a fresh socket is open, not yet in the table
    | Reserved(s: Uplink, conn: Conn, port: u16)  // GetPort returned
    | Inserted(s: Uplink, conn: Conn, port: u16)  // the uplink section of Add is done
    | Collected(ls: seq<Link>)                    // the uplink section of Cleanup is done
    | Unrouted(ls: seq<Link>)                     // so is the downlink section; ls is still to release
    | Closing(k: PortKey, ls: seq<Link>)          // DelPort took k out of the table; its socket is next
  {
    predicate Adding() { Missed? || Chosen? || Opened? || Reserved? || Inserted? }
    predicate Pending() { Chosen? || Opened? }

    /** The reservation an Add makes or has made. */
    function Wanted(): Triple
      requires Adding() && !Missed?
    {
      Triple(s.proto, port, s.server)
    }

    /** The reservations this thread alone is responsible for. */
    function Claim(): set<Triple> {
      match this
      case Reserved(_, _, _) => {Triple(s.proto, port, s.server)}
      case Collected(_) => TripleSet(ls)
      case Unrouted(_) => TripleSet(ls)
      case Closing(_, _) => TripleSet(ls)
      case _ => {}
    }
  }

  /** The shard an uplink belongs to, of mutx shards. */
  function ShardOf(mutx: u8, u: Uplink): (k: nat)
    ensures mutx > 0 ==> k < mutx
  {
    if mutx > 0 && u.server.IsValid() then Sharding.Shard(mutx, u.server.addr) else 0
  }

  /** The links of one shard. */
  function Part(mutx: u8, ups: Ups, k: nat): Ups {
    map u | u in ups && ShardOf(mutx, u) == k :: ups[u]
  }

  /** What the threads share. ups and downs are the maps of all shards together and queues holds each
      shard's queue; held and open are the adapter's table and the ports whose socket a thread or that
      table answers for; makers says which connection's Add made a link, and adders which thread. */
  datatype World = World(mutx: u8, addr: Addr, ups: Ups, downs: map<Downlink, DownKey>, queues: seq<seq<TtlKey>>,
                         held: Held, open: set<PortKey>, makers: map<Uplink, Conn>, adders: map<Uplink, nat>,
                         pcs: seq<Pc>)
  {
    /** All shards as one table; the queue plays no part. */
    function Flat(): Table { Table(addr, ups, [], downs) }

    function LinkOf(u: Uplink): Link
      requires u in ups
    {
      Flat().LinkOf(u)
    }

    /** Shard k as its own Cleanup sees it. */
    function Shard(k: nat): Table
      requires k < |queues|
    {
      Table(addr, Part(mutx, ups, k), queues[k], downs)
    }
  }

  /** Every shard's queue lists that shard's live links once each. */
  ghost predicate Listed(w: World) {
    && 0 < w.mutx && w.mutx as int <= |w.queues|
    && forall k :: 0 <= k < |w.queues| ==> Lists(w.queues[k], Part(w.mutx, w.ups, k))
  }

  datatype Action =
    | Choose(s: Uplink, conn: Conn, port: u16)
    | Look(s: Uplink, conn: Conn)
    | Bind(port: u16)
    | Fail
    | Commit
    | InsertUp(now: nat)
    | InsertDown
    | Hit(u: Uplink)
    | Sweep(k: nat, ttl: nat, clock: Clock)
    | DropDowns
    | Release
    | Close

  /** What the code does when thread i takes a step, whatever the other threads are doing. */
  ghost predicate Enabled(w: World, i: nat, a: Action) {
    && i < |w.pcs| && Listed(w)
    && match a
       case Choose(s, _, port) =>
         (w.pcs[i].Idle? && s.server.IsValid() && port != 0
          && Reusable(w.held, s.proto, s.server, PortKey(s.proto, port)))
       case Look(s, _) => w.pcs[i].Idle? && s.server.IsValid() && !AnyReusable(w.held, s.proto, s.server)
       case Bind(port) =>
         (w.pcs[i].Missed? && (w.pcs[i].s.proto == TCP || w.pcs[i].s.proto == UDP)
          && port != 0 && PortKey(w.pcs[i].s.proto, port) !in w.open)
       case Fail => w.pcs[i].Missed?
       case Commit => w.pcs[i].Pending()
       case InsertUp(_) => w.pcs[i].Reserved?
       case InsertDown => w.pcs[i].Inserted?
       case Hit(u) => u in w.ups ==> w.ups[u].hits + 1 < PortWord.LOW
       case Sweep(k, _, _) => w.pcs[i].Idle? && k < |w.queues|
       case DropDowns => w.pcs[i].Collected?
       case Release => w.pcs[i].Unrouted? && w.pcs[i].ls != []
       case Close => w.pcs[i].Closing?
  }

  function SweepAll(t: Table, ttl: nat, clock: Clock): Swept
    requires Lists(t.queue, t.ups)
  {
    assert t.queue[0..] + [] == t.queue;
    LinkTable.Sweep(t.addr, ttl, clock, t.queue, t.ups, 0, [], [])
  }

  function Remaining(ls: seq<Link>): Pc { if ls == [] then Idle else Unrouted(ls) }

  function DownOf(w: World, pc: Pc): Downlink
    requires pc.Adding() && !pc.Missed?
  {
    Link(pc.s, AddrPort(w.addr, pc.port)).Down()
  }

  function Next(w: World, i: nat, a: Action): World
    requires Enabled(w, i, a)
  {
    var pc := w.pcs[i];
    match a
    case Choose(s, conn, port) => w.(pcs := w.pcs[i := Chosen(s, conn, port)])
    case Look(s, conn) => w.(pcs := w.pcs[i := Missed(s, conn)])
    case Bind(port) =>
      w.(open := w.open + {PortKey(pc.s.proto, port)}, pcs := w.pcs[i := Opened(pc.s, pc.conn, port)])
    case Fail => w.(pcs := w.pcs[i := Idle])
    case Commit =>
      w.(held := Take(w.held, pc.Wanted()), pcs := w.pcs[i := Reserved(pc.s, pc.conn, pc.port)])
    case InsertUp(now) =>
      var k := ShardOf(w.mutx, pc.s);
      w.(ups := w.ups[pc.s := Cell(pc.port, 0)], makers := w.makers[pc.s := pc.conn],
         adders := w.adders[pc.s := i],
         queues := w.queues[k := w.queues[k] + [TtlKey(pc.s, now)]],
         pcs := w.pcs[i := Inserted(pc.s, pc.conn, pc.port)])
    case InsertDown =>
      w.(downs := w.downs[DownOf(w, pc) := DownKey(pc.conn, pc.s.process.port)], pcs := w.pcs[i := Idle])
    case Hit(u) => w.(ups := Touch(w.Flat(), u).ups)
    case Sweep(k, ttl, clock) =>
      var r := SweepAll(w.Shard(k), ttl, clock);
      w.(ups := Swapped(w, k, r.ups), queues := w.queues[k := r.queue],
         pcs := w.pcs[i := if r.links == [] then Idle else Collected(r.links)])
    case DropDowns => w.(downs := w.downs - DownSet(pc.ls), pcs := w.pcs[i := Unrouted(pc.ls)])
    case Release =>
      var t := pc.ls[0].Triple();
      var held := Drop(w.held, t);
      w.(held := held,
         pcs := w.pcs[i := if t.Key() in held then Remaining(pc.ls[1..]) else Closing(t.Key(), pc.ls[1..])])
    case Close => w.(open := w.open - {pc.k}, pcs := w.pcs[i := Remaining(pc.ls)])
  }

  /** The links of all shards with those of shard k replaced. */
  function Swapped(w: World, k: nat, part: Ups): Ups {
    (w.ups - Part(w.mutx, w.ups, k).Keys) + part
  }

  // Safety

  function DownTriple(d: Downlink): Triple { Triple(d.proto, d.local.port, d.server) }

  /** Replies on a live link go to the connection whose Add made it, with the process's own port. */
  ghost predicate RoutedTo(w: World, u: Uplink)
    requires u in w.ups
  {
    && u in w.makers && w.LinkOf(u).Down() in w.downs
    && w.downs[w.LinkOf(u).Down()] == DownKey(w.makers[u], u.process.port)
  }

  /** The very Add that made this link has yet to store its route. */
  predicate InsertedBy(pcs: seq<Pc>, adders: map<Uplink, nat>, u: Uplink, port: u16) {
    u in adders && adders[u] < |pcs|
    && pcs[adders[u]].Inserted? && pcs[adders[u]].s == u && pcs[adders[u]].port == port
  }

  /** The queues list the live links; every entry of either map keeps its triple reserved and every live
      link its route; every reserved port keeps its socket open; no triple has two owners, live or in
      flight; and every release finds its reservation. */
  ghost predicate Safe(w: World) {
    && Listed(w)
    && (forall u :: u in w.ups ==> Has(w.held, w.LinkOf(u).Triple()))
    && (forall u :: u in w.ups ==> RoutedTo(w, u) || InsertedBy(w.pcs, w.adders, u, w.ups[u].port))
    && (forall d :: d in w.downs ==> Has(w.held, DownTriple(d)))
    && (forall k :: k in w.held ==> k in w.open)
    && Distinct(w.addr, w.ups)
    && (forall u, j :: u in w.ups && 0 <= j < |w.pcs| ==> w.LinkOf(u).Triple() !in w.pcs[j].Claim())
    && (forall i, j :: 0 <= i < |w.pcs| && 0 <= j < |w.pcs| && i != j ==> w.pcs[i].Claim() !! w.pcs[j].Claim())
    && (forall t, j :: 0 <= j < |w.pcs| && t in w.pcs[j].Claim() ==> Has(w.held, t))
  }

  // The invariant

  ghost predicate Pairs(pcs: seq<Pc>) {
    forall i, j :: 0 <= i < |pcs| && 0 <= j < |pcs| && i != j ==> pcs[i].Claim() !! pcs[j].Claim()
  }

  ghost predicate ThreadOk(t: Table, pc: Pc) {
    && pc.Claim() !! Owned(t)
    && (pc.Adding() ==> pc.s.server.IsValid())
    && (pc.Chosen? || pc.Opened? || pc.Reserved? ==> pc.port != 0)
    && (pc.Collected? || pc.Unrouted? ==> pc.ls != [])
    && (pc.Collected? || pc.Unrouted? || pc.Closing? ==>
          Apart(pc.ls) && forall l :: l in pc.ls ==> l.local.addr == t.addr)
  }

  ghost predicate Claimed(pcs: seq<Pc>, t: Triple) {
    exists i :: 0 <= i < |pcs| && t in pcs[i].Claim()
  }

  /** A thread has opened the socket of k, or is about to close it. */
  predicate Handles(pc: Pc, k: PortKey) {
    (pc.Opened? && pc.Wanted().Key() == k) || (pc.Closing? && pc.k == k)
  }

  ghost predicate HandledBy(pcs: seq<Pc>, k: PortKey) {
    exists i :: 0 <= i < |pcs| && Handles(pcs[i], k)
  }

  ghost predicate UpOk(w: World, u: Uplink)
    requires u in w.ups
  {
    && u.server.IsValid() && w.ups[u].port != 0 && w.ups[u].hits < PortWord.LOW
    && (RoutedTo(w, u) || InsertedBy(w.pcs, w.adders, u, w.ups[u].port))
  }

  ghost predicate OpenOk(w: World) {
    && (forall k :: k in w.held ==> k in w.open)
    && (forall k :: k in w.open ==> k in w.held || HandledBy(w.pcs, k))
  }

  ghost predicate CoverOk(w: World) {
    forall t :: Has(w.held, t) <==> t in Owned(w.Flat()) || Claimed(w.pcs, t)
  }

  ghost predicate DownsOk(w: World) {
    forall d :: d in w.downs ==> d.local.addr == w.addr && Has(w.held, DownTriple(d))
  }

  ghost predicate UpsOk(w: World) {
    forall u :: u in w.ups ==> UpOk(w, u)
  }

  ghost predicate ThreadsOk(w: World) {
    forall i :: 0 <= i < |w.pcs| ==> ThreadOk(w.Flat(), w.pcs[i])
  }

  ghost predicate WorldInv(w: World) {
    && Listed(w) && Distinct(w.addr, w.ups) && NonEmpty(w.held)
    && Pairs(w.pcs) && ThreadsOk(w)
    && CoverOk(w) && DownsOk(w) && UpsOk(w) && OpenOk(w)
  }

  lemma PairsUpdate(pcs: seq<Pc>, i: nat, pc: Pc)
    requires Pairs(pcs) && i < |pcs|
    requires forall j :: 0 <= j < |pcs| && j != i ==> pc.Claim() !! pcs[j].Claim()
    ensures Pairs(pcs[i := pc])
  {
  }

  // Claims after one thread moved

  ghost predicate ClaimedElse(pcs: seq<Pc>, i: nat, t: Triple) {
    exists j :: 0 <= j < |pcs| && j != i && t in pcs[j].Claim()
  }

  lemma ClaimedUpdate(pcs: seq<Pc>, i: nat, pc: Pc, t: Triple)
    requires i < |pcs|
    ensures Claimed(pcs, t) <==> t in pcs[i].Claim() || ClaimedElse(pcs, i, t)
    ensures Claimed(pcs[i := pc], t) <==> t in pc.Claim() || ClaimedElse(pcs, i, t)
  {
    if ClaimedElse(pcs, i, t) {
      var j :| 0 <= j < |pcs| && j != i && t in pcs[j].Claim();
      assert t in pcs[i := pc][j].Claim();
    }
    if t in pc.Claim() {
      assert t in pcs[i := pc][i].Claim();
    }
    if Claimed(pcs[i := pc], t) {
      var j :| 0 <= j < |pcs| && t in pcs[i := pc][j].Claim();
      assert j != i ==> t in pcs[j].Claim();
    }
  }

  lemma ClaimedElseApart(pcs: seq<Pc>, i: nat, t: Triple)
    requires Pairs(pcs) && i < |pcs| && t in pcs[i].Claim()
    ensures !ClaimedElse(pcs, i, t)
  {
    forall j | 0 <= j < |pcs| && j != i ensures t !in pcs[j].Claim() {
      assert pcs[i].Claim() !! pcs[j].Claim();
    }
  }

  lemma PhasesUpdate(pcs: seq<Pc>, i: nat, pc: Pc)
    requires i < |pcs|
    ensures !pcs[i].Inserted? ==>
              forall m, u, p :: InsertedBy(pcs, m, u, p) ==> InsertedBy(pcs[i := pc], m, u, p)
    ensures forall k :: HandledBy(pcs, k) ==> HandledBy(pcs[i := pc], k) || Handles(pcs[i], k)
    ensures forall k :: Handles(pc, k) ==> HandledBy(pcs[i := pc], k)
  {
    var after := pcs[i := pc];
    forall k | HandledBy(pcs, k) ensures HandledBy(after, k) || Handles(pcs[i], k) {
      var j :| 0 <= j < |pcs| && Handles(pcs[j], k);
      assert j != i ==> after[j] == pcs[j];
    }
    assert after[i] == pc;
  }

  // Steps that change no map and no reservation

  lemma QuietKeeps(w: World, i: nat, pc: Pc, open: set<PortKey>)
    requires WorldInv(w) && i < |w.pcs| && pc.Claim() == w.pcs[i].Claim() && ThreadOk(w.Flat(), pc)
    requires !w.pcs[i].Inserted?
    requires OpenOk(w.(open := open, pcs := w.pcs[i := pc]))
    ensures WorldInv(w.(open := open, pcs := w.pcs[i := pc]))
  {
    hide Lists, Distinct, NonEmpty, Owned, Claimed, InsertedBy, HandledBy, ThreadOk, OpenOk, Listed;
    var after := w.(open := open, pcs := w.pcs[i := pc]);
    PairsUpdate(w.pcs, i, pc);
    PhasesUpdate(w.pcs, i, pc);
    forall t ensures Claimed(after.pcs, t) == Claimed(w.pcs, t) {
      ClaimedUpdate(w.pcs, i, pc, t);
    }
    assert forall u :: u in w.ups ==> UpOk(w, u);
    SameListed(w, after);
  }

  lemma SameListed(w: World, after: World)
    requires Listed(w) && after.mutx == w.mutx && after.queues == w.queues && after.ups.Keys == w.ups.Keys
    ensures Listed(after)
  {
    forall k | 0 <= k < |w.queues| ensures Lists(after.queues[k], Part(after.mutx, after.ups, k)) {
      assert Part(after.mutx, after.ups, k).Keys == Part(w.mutx, w.ups, k).Keys;
    }
  }

  lemma QuietOpen(w: World, i: nat, pc: Pc)
    requires OpenOk(w) && i < |w.pcs| && forall k :: !Handles(w.pcs[i], k)
    ensures OpenOk(w.(pcs := w.pcs[i := pc]))
  {
    hide HandledBy, Handles;
    PhasesUpdate(w.pcs, i, pc);
  }

  /** GetPort's pass over the table, and a failed allocation. */
  lemma StartKeeps(w: World, i: nat, a: Action)
    requires WorldInv(w) && Enabled(w, i, a) && (a.Choose? || a.Look? || a.Fail?)
    ensures WorldInv(Next(w, i, a))
  {
    hide Listed, Distinct, NonEmpty, Pairs, CoverOk, DownsOk, UpsOk, OpenOk, AnyReusable, Reusable;
    var pc := Next(w, i, a).pcs[i];
    assert ThreadOk(w.Flat(), w.pcs[i]);
    QuietOpen(w, i, pc);
    QuietKeeps(w, i, pc, w.open);
  }

  /** The socket the allocator hands out. */
  lemma BindKeeps(w: World, i: nat, port: u16)
    requires WorldInv(w) && Enabled(w, i, Bind(port))
    ensures WorldInv(Next(w, i, Bind(port)))
  {
    hide Listed, Distinct, NonEmpty, CoverOk, DownsOk, UpsOk, HandledBy, Owned, Pairs;
    var was, pc := w.pcs[i], Opened(w.pcs[i].s, w.pcs[i].conn, port);
    assert ThreadOk(w.Flat(), was);
    PhasesUpdate(w.pcs, i, pc);
    assert Handles(pc, PortKey(was.s.proto, port));
    QuietKeeps(w, i, pc, w.open + {PortKey(was.s.proto, port)});
  }

  /** The second half of DelPort: sound when nobody has reserved the port again in between. */
  lemma CloseKeeps(w: World, i: nat)
    requires WorldInv(w) && Enabled(w, i, Close) && w.pcs[i].k !in w.held
    ensures WorldInv(Next(w, i, Close))
  {
    hide Listed, Distinct, NonEmpty, CoverOk, DownsOk, UpsOk, HandledBy, Owned, Pairs, Apart;
    var was, pc := w.pcs[i], Remaining(w.pcs[i].ls);
    assert ThreadOk(w.Flat(), was);
    PhasesUpdate(w.pcs, i, pc);
    QuietKeeps(w, i, pc, w.open - {was.k});
  }

  // Add

  /** What GetPort would have to check before it commits: the socket is open and the triple free. */
  ghost predicate Sound(w: World, i: nat)
    requires i < |w.pcs| && w.pcs[i].Pending()
  {
    w.pcs[i].Wanted().Key() in w.open && !Has(w.held, w.pcs[i].Wanted())
  }

  lemma CommitKeeps(w: World, i: nat)
    requires WorldInv(w) && Enabled(w, i, Commit) && Sound(w, i)
    ensures WorldInv(Next(w, i, Commit))
  {
    hide Lists, Listed, Distinct, Owned, Claimed, ClaimedElse, InsertedBy, HandledBy, Take, RoutedTo;
    var was, pc := w.pcs[i], Reserved(w.pcs[i].s, w.pcs[i].conn, w.pcs[i].port);
    var t := was.Wanted();
    var after := Next(w, i, Commit);
    assert ThreadOk(w.Flat(), was);
    TakeHas(w.held, t);
    TakeKeys(w.held, t);
    forall j | 0 <= j < |w.pcs| && j != i ensures pc.Claim() !! w.pcs[j].Claim() {
      if t in w.pcs[j].Claim() {
        ClaimedBy(w.pcs, j, t);
      }
    }
    PairsUpdate(w.pcs, i, pc);
    PhasesUpdate(w.pcs, i, pc);
    forall u ensures Claimed(after.pcs, u) <==> Claimed(w.pcs, u) || u == t {
      ClaimedUpdate(w.pcs, i, pc, u);
    }
    SameListed(w, after);
    SameRoutes(w, after);
    assert forall j :: 0 <= j < |w.pcs| ==> ThreadOk(w.Flat(), w.pcs[j]);
  }

  /** Links are as well off when their cells, routes and makers stay and no Add drops out. */
  lemma SameRoutes(w: World, after: World)
    requires UpsOk(w) && after.ups == w.ups && after.downs == w.downs && after.makers == w.makers
    requires after.addr == w.addr
    requires forall u, p :: InsertedBy(w.pcs, w.adders, u, p) ==> InsertedBy(after.pcs, after.adders, u, p)
    ensures UpsOk(after)
  {
    hide InsertedBy;
    forall u | u in after.ups ensures UpOk(after, u) {
      assert UpOk(w, u);
    }
  }

  lemma ClaimedBy(pcs: seq<Pc>, j: nat, t: Triple)
    requires j < |pcs| && t in pcs[j].Claim()
    ensures Claimed(pcs, t)
  {
  }

  lemma TakeKeys(h: Held, t: Triple)
    ensures Take(h, t).Keys == h.Keys + {t.Key()}
  {
  }

  lemma OwnedSame(a: Table, b: Table)
    requires a.addr == b.addr && a.ups == b.ups
    ensures Owned(a) == Owned(b)
  {
    assert forall u :: u in a.ups ==> a.LinkOf(u) == b.LinkOf(u);
  }

  lemma InsertUps(t: Table, s: Uplink, port: u16)
    requires s !in t.ups && Distinct(t.addr, t.ups) && Triple(s.proto, port, s.server) !in Owned(t)
    ensures var after := t.(ups := t.ups[s := Cell(port, 0)]);
            && Distinct(after.addr, after.ups)
            && Owned(after) == Owned(t) + {Triple(s.proto, port, s.server)}
            && (forall u :: u in t.ups ==> after.LinkOf(u) == t.LinkOf(u))
  {
    InsertLinks(t, s, port, 0, 0);
    InsertOwned(t, s, port, 0, 0);
    InsertDistinct(t, s, port, 0, 0);
    OwnedSame(Insert(t, s, port, 0, 0), t.(ups := t.ups[s := Cell(port, 0)]));
  }

  lemma PartInsert(mutx: u8, ups: Ups, s: Uplink, c: Cell, j: nat)
    requires s !in ups
    ensures Part(mutx, ups[s := c], j)
            == if j == ShardOf(mutx, s) then Part(mutx, ups, j)[s := c] else Part(mutx, ups, j)
    ensures s !in Part(mutx, ups, j)
  {
  }

  /** A new link joins the queue of its own shard. */
  lemma InsertListed(w: World, i: nat, now: nat)
    requires Enabled(w, i, InsertUp(now)) && w.pcs[i].s !in w.ups
    ensures Listed(Next(w, i, InsertUp(now)))
  {
    hide Lists, Part;
    var s, c := w.pcs[i].s, Cell(w.pcs[i].port, 0);
    var after := Next(w, i, InsertUp(now));
    forall j | 0 <= j < |w.queues| ensures Lists(after.queues[j], Part(w.mutx, after.ups, j)) {
      PartInsert(w.mutx, w.ups, s, c, j);
      if j == ShardOf(w.mutx, s) {
        InsertLists(w.Shard(j), s, c, now);
      }
    }
  }

  /** The uplink section: sound when no other Add of the same uplink came first. */
  lemma InsertUpKeeps(w: World, i: nat, now: nat)
    requires WorldInv(w) && Enabled(w, i, InsertUp(now)) && w.pcs[i].s !in w.ups
    ensures WorldInv(Next(w, i, InsertUp(now)))
  {
    hide Lists, Listed, Distinct, NonEmpty, Owned, Claimed, ClaimedElse, HandledBy, Apart, InsertedBy, UpsOk;
    var was, pc := w.pcs[i], Inserted(w.pcs[i].s, w.pcs[i].conn, w.pcs[i].port);
    var t := was.Wanted();
    var after := Next(w, i, InsertUp(now));
    assert ThreadOk(w.Flat(), was) && t in was.Claim();
    InsertUps(w.Flat(), was.s, was.port);
    InsertListed(w, i, now);
    forall j | 0 <= j < |w.pcs| && j != i ensures ThreadOk(after.Flat(), w.pcs[j]) {
      assert ThreadOk(w.Flat(), w.pcs[j]) && was.Claim() !! w.pcs[j].Claim();
    }
    PairsUpdate(w.pcs, i, pc);
    PhasesUpdate(w.pcs, i, pc);
    forall u ensures Claimed(after.pcs, u) || u == t <==> Claimed(w.pcs, u) {
      ClaimedUpdate(w.pcs, i, pc, u);
    }
    InsertUpRoutes(w, i, now);
    OpenUpdate(w, after);
  }

  lemma InsertUpRoutes(w: World, i: nat, now: nat)
    requires UpsOk(w) && ThreadsOk(w) && Enabled(w, i, InsertUp(now)) && w.pcs[i].s !in w.ups
    ensures UpsOk(Next(w, i, InsertUp(now)))
  {
    hide Listed, Owned, Apart;
    var was, after := w.pcs[i], Next(w, i, InsertUp(now));
    assert ThreadOk(w.Flat(), was);
    forall u | u in after.ups ensures UpOk(after, u) {
      assert u != was.s ==> UpOk(w, u) && after.LinkOf(u) == w.LinkOf(u);
    }
  }

  /** Nothing about sockets changes when neither the table nor the threads that handle them do. */
  lemma OpenUpdate(w: World, after: World)
    requires OpenOk(w) && after.open == w.open && after.held.Keys == w.held.Keys
    requires forall k :: HandledBy(w.pcs, k) ==> HandledBy(after.pcs, k)
    ensures OpenOk(after)
  {
  }

  /** What the downlink section would have to check: the triple is reserved, and a live link on it is
      this Add's own or one whose Add has yet to store its route. */
  ghost predicate OwnRoute(w: World, i: nat)
    requires i < |w.pcs| && w.pcs[i].Inserted?
  {
    && Has(w.held, w.pcs[i].Wanted())
    && forall u :: u in w.ups && w.LinkOf(u).Triple() == w.pcs[i].Wanted() ==> MayRoute(w, i, u)
  }

  ghost predicate MayRoute(w: World, i: nat, u: Uplink)
    requires i < |w.pcs| && w.pcs[i].Inserted? && u in w.ups
  {
    (u in w.makers && w.makers[u] == w.pcs[i].conn && u.process.port == w.pcs[i].s.process.port)
    || InsertedBy(w.pcs[i := Idle], w.adders, u, w.ups[u].port)
  }

  lemma InsertDownKeeps(w: World, i: nat)
    requires WorldInv(w) && Enabled(w, i, InsertDown) && OwnRoute(w, i)
    ensures WorldInv(Next(w, i, InsertDown))
  {
    hide Lists, Listed, Distinct, NonEmpty, Owned, Claimed, ClaimedElse, HandledBy, Apart, InsertedBy;
    var was := w.pcs[i];
    var after := Next(w, i, InsertDown);
    OwnedSame(w.Flat(), after.Flat());
    forall j | 0 <= j < |w.pcs| ensures ThreadOk(after.Flat(), after.pcs[j]) {
      assert ThreadOk(w.Flat(), w.pcs[j]);
    }
    PairsUpdate(w.pcs, i, Idle);
    PhasesUpdate(w.pcs, i, Idle);
    forall u ensures Claimed(after.pcs, u) <==> Claimed(w.pcs, u) {
      ClaimedUpdate(w.pcs, i, Idle, u);
    }
    assert DownTriple(DownOf(w, was)) == was.Wanted();
    forall u | u in after.ups ensures UpOk(after, u) {
      RouteAfter(w, i, u);
    }
    SameListed(w, after);
    OpenUpdate(w, after);
  }

  lemma RouteAfter(w: World, i: nat, u: Uplink)
    requires WorldInv(w) && Enabled(w, i, InsertDown) && OwnRoute(w, i) && u in w.ups
    ensures UpOk(Next(w, i, InsertDown), u)
  {
    hide Lists, Listed, Distinct, NonEmpty, Owned, CoverOk, OpenOk, DownsOk, ThreadsOk, Pairs, InsertedBy;
    var was := w.pcs[i];
    SameKeys(w.LinkOf(u), Link(was.s, AddrPort(w.addr, was.port)));
    assert UpOk(w, u);
    if w.LinkOf(u).Triple() == was.Wanted() {
      assert MayRoute(w, i, u);
    } else if !RoutedTo(w, u) {
      OtherInserted(w.pcs, w.adders, i, u, w.ups[u].port);
    }
  }

  lemma OwnedHas(t: Table, u: Uplink)
    requires u in t.ups
    ensures t.LinkOf(u).Triple() in Owned(t)
  {
  }

  lemma OtherInserted(pcs: seq<Pc>, adders: map<Uplink, nat>, i: nat, u: Uplink, p: u16)
    requires i < |pcs| && InsertedBy(pcs, adders, u, p) && !(pcs[i].Inserted? && pcs[i].s == u && pcs[i].port == p)
    ensures InsertedBy(pcs[i := Idle], adders, u, p)
  {
  }

  lemma HitKeeps(w: World, i: nat, u: Uplink)
    requires WorldInv(w) && Enabled(w, i, Hit(u))
    ensures WorldInv(Next(w, i, Hit(u)))
  {
    hide Lists, Listed, Distinct, NonEmpty, Owned, Claimed, HandledBy, Apart, InsertedBy;
    var after := Next(w, i, Hit(u));
    TouchLinks(w.Flat(), u);
    OwnedSame(after.Flat(), Touch(w.Flat(), u));
    SameListed(w, after);
    forall j | 0 <= j < |w.pcs| ensures ThreadOk(after.Flat(), w.pcs[j]) {
      assert ThreadOk(w.Flat(), w.pcs[j]);
    }
    forall v | v in after.ups ensures UpOk(after, v) {
      assert UpOk(w, v);
    }
  }

  // Cleanup

  /** The uplink section of one shard's Cleanup, seen from all shards together. */
  lemma SweepEffect(w: World, k: nat, ttl: nat, clock: Clock)
    requires Listed(w) && Distinct(w.addr, w.ups) && k < |w.queues|
    ensures var r := SweepAll(w.Shard(k), ttl, clock);
            var after := w.(ups := Swapped(w, k, r.ups), queues := w.queues[k := r.queue]);
            && Listed(after) && Distinct(w.addr, after.ups)
            && (forall u :: u in after.ups ==>
                  u in w.ups && Kept(w.ups[u], after.ups[u]) && after.LinkOf(u) == w.LinkOf(u))
            && Owned(after.Flat()) == Owned(w.Flat()) - TripleSet(r.links) && TripleSet(r.links) <= Owned(w.Flat())
            && Apart(r.links) && (forall l :: l in r.links ==> l.local.addr == w.addr)
  {
    hide Lists, PoppedExpired, Part;
    var t := w.Shard(k);
    assert t.queue[0..] + [] == t.queue;
    var gone := SweepRemoves(t.addr, ttl, clock, t.queue, t.ups, 0, [], []);
    var r := SweepAll(t, ttl, clock);
    assert [] + gone == gone;
    var after := w.(ups := Swapped(w, k, r.ups), queues := w.queues[k := r.queue]);
    LiftSweep(w, k, ttl, clock, r.ups, r.links);
    SweepOwned(w.Flat().(queue := t.queue), after.Flat(), r.links, ttl, clock);
    OwnedSame(w.Flat(), w.Flat().(queue := t.queue));
    SweptListed(w, k, r);
    forall u | u in after.ups ensures u in w.ups && Kept(w.ups[u], after.ups[u]) && after.LinkOf(u) == w.LinkOf(u) {
      assert Kept(w.ups[u], after.ups[u]);
    }
    forall l | l in r.links ensures l.local.addr == w.addr {
      assert Removed(w.addr, w.ups, after.ups, l);
    }
  }

  lemma LiftSweep(w: World, k: nat, ttl: nat, clock: Clock, part: Ups, links: seq<Link>)
    requires k < |w.queues| && SweepOf(w.addr, ttl, clock, w.queues[k], 0, Part(w.mutx, w.ups, k), part, links)
    ensures SweepOf(w.addr, ttl, clock, w.queues[k], 0, w.ups, Swapped(w, k, part), links)
    ensures Distinct(w.addr, w.ups) ==> Distinct(w.addr, Swapped(w, k, part))
  {
    hide PoppedExpired;
    var p, after := Part(w.mutx, w.ups, k), Swapped(w, k, part);
    forall l | l in links ensures Removed(w.addr, w.ups, after, l) && PoppedExpired(ttl, clock, w.queues[k], 0, l.up) {
      assert Removed(w.addr, p, part, l);
    }
    forall u | u in after ensures u in w.ups && Kept(w.ups[u], after[u]) {
      assert u in part ==> u in p && Kept(p[u], part[u]);
    }
  }

  lemma SwappedPart(w: World, k: nat, part: Ups, j: nat)
    requires forall u :: u in part ==> u in Part(w.mutx, w.ups, k)
    ensures Part(w.mutx, Swapped(w, k, part), j).Keys == if j == k then part.Keys else Part(w.mutx, w.ups, j).Keys
  {
    var p := Part(w.mutx, Swapped(w, k, part), j);
    if j == k {
      assert forall u :: u in p <==> u in part;
    } else {
      assert forall u :: u in p <==> u in Part(w.mutx, w.ups, j);
    }
  }

  lemma ListsKeys(q: seq<TtlKey>, a: Ups, b: Ups)
    requires Lists(q, a) && a.Keys == b.Keys
    ensures Lists(q, b)
  {
  }

  lemma SweptListed(w: World, k: nat, r: Swept)
    requires Listed(w) && k < |w.queues| && Lists(r.queue, r.ups)
    requires forall u :: u in r.ups ==> u in Part(w.mutx, w.ups, k)
    ensures Listed(w.(ups := Swapped(w, k, r.ups), queues := w.queues[k := r.queue]))
  {
    hide Lists, Part, Swapped;
    var after := w.(ups := Swapped(w, k, r.ups), queues := w.queues[k := r.queue]);
    forall j | 0 <= j < |w.queues| ensures Lists(after.queues[j], Part(w.mutx, after.ups, j)) {
      SwappedPart(w, k, r.ups, j);
      ListsKeys(after.queues[j], if j == k then r.ups else Part(w.mutx, w.ups, j), Part(w.mutx, after.ups, j));
    }
  }

  lemma SweepKeeps(w: World, i: nat, k: nat, ttl: nat, clock: Clock)
    requires WorldInv(w) && Enabled(w, i, Sweep(k, ttl, clock))
    ensures WorldInv(Next(w, i, Sweep(k, ttl, clock)))
  {
    hide Lists, Listed, Distinct, NonEmpty, Owned, Claimed, ClaimedElse, HandledBy, Apart, InsertedBy, SweepAll,
         Part, Swapped;
    assert Listed(w) && k < |w.queues| && Lists(w.queues[k], Part(w.mutx, w.ups, k)) by { ShardLists(w, k); }
    var r := SweepAll(w.Shard(k), ttl, clock);
    var after := Next(w, i, Sweep(k, ttl, clock));
    var pc := after.pcs[i];
    SweepEffect(w, k, ttl, clock);
    var mid := w.(ups := Swapped(w, k, r.ups), queues := w.queues[k := r.queue]);
    OwnedSame(mid.Flat(), after.Flat());
    SameListed(mid, after);
    assert pc.Claim() == TripleSet(r.links);
    forall j | 0 <= j < |w.pcs| && j != i
      ensures pc.Claim() !! w.pcs[j].Claim() && ThreadOk(after.Flat(), w.pcs[j])
    {
      assert ThreadOk(w.Flat(), w.pcs[j]);
    }
    PairsUpdate(w.pcs, i, pc);
    PhasesUpdate(w.pcs, i, pc);
    forall t ensures Claimed(after.pcs, t) <==> Claimed(w.pcs, t) || t in TripleSet(r.links) {
      ClaimedUpdate(w.pcs, i, pc, t);
    }
    forall u | u in after.ups ensures UpOk(after, u) {
      assert UpOk(w, u) && after.LinkOf(u) == mid.LinkOf(u);
    }
    OpenUpdate(w, after);
  }

  lemma ShardLists(w: World, k: nat)
    requires Listed(w) && k < |w.queues|
    ensures Lists(w.queues[k], Part(w.mutx, w.ups, k))
  {
  }

  lemma DropDownsKeeps(w: World, i: nat)
    requires WorldInv(w) && Enabled(w, i, DropDowns)
    ensures WorldInv(Next(w, i, DropDowns))
  {
    hide Lists, Listed, Distinct, NonEmpty, Owned, Claimed, ClaimedElse, HandledBy, Apart, InsertedBy;
    var was, pc := w.pcs[i], Unrouted(w.pcs[i].ls);
    var after := Next(w, i, DropDowns);
    assert ThreadOk(w.Flat(), was);
    OwnedSame(w.Flat(), after.Flat());
    forall j | 0 <= j < |w.pcs| && j != i ensures ThreadOk(after.Flat(), w.pcs[j]) {
      assert ThreadOk(w.Flat(), w.pcs[j]);
    }
    PairsUpdate(w.pcs, i, pc);
    PhasesUpdate(w.pcs, i, pc);
    forall t ensures Claimed(after.pcs, t) <==> Claimed(w.pcs, t) {
      ClaimedUpdate(w.pcs, i, pc, t);
    }
    forall u | u in w.ups ensures UpOk(after, u) {
      assert UpOk(w, u);
      RouteSurvives(w.Flat(), was.ls, u);
    }
    SameListed(w, after);
    OpenUpdate(w, after);
  }

  lemma RouteSurvives(t: Table, ls: seq<Link>, u: Uplink)
    requires u in t.ups && TripleSet(ls) !! Owned(t) && forall l :: l in ls ==> l.local.addr == t.addr
    ensures t.LinkOf(u).Down() !in DownSet(ls)
  {
    OwnedHas(t, u);
    forall l | l in ls ensures l.Down() != t.LinkOf(u).Down() {
      SameKeys(l, t.LinkOf(u));
      assert l.Triple() in TripleSet(ls);
    }
  }

  lemma DropKeys(h: Held, t: Triple)
    requires Has(h, t)
    ensures Drop(h, t).Keys <= h.Keys && h.Keys <= Drop(h, t).Keys + {t.Key()}
  {
  }

  lemma ReleaseTail(ls: seq<Link>)
    requires ls != [] && Apart(ls)
    ensures TripleSet(ls[1..]) == TripleSet(ls) - {ls[0].Triple()} && Apart(ls[1..])
    ensures ls[0].Triple() in TripleSet(ls)
  {
    assert ls == [ls[0]] + ls[1..];
    forall l | l in ls[1..] ensures l.Triple() != ls[0].Triple() {
      var j :| 0 <= j < |ls[1..]| && ls[1..][j] == l;
      assert ls[j + 1] == l;
    }
  }

  lemma ReleaseOpen(w: World, i: nat)
    requires OpenOk(w) && Enabled(w, i, Release) && Has(w.held, w.pcs[i].ls[0].Triple())
    ensures OpenOk(Next(w, i, Release))
  {
    hide Listed, HandledBy, Drop;
    var t := w.pcs[i].ls[0].Triple();
    var after := Next(w, i, Release);
    DropKeys(w.held, t);
    PhasesUpdate(w.pcs, i, after.pcs[i]);
    assert t.Key() !in after.held ==> Handles(after.pcs[i], t.Key());
  }

  /** The first half of DelPort: sound when no route of the link was stored after it was removed. */
  lemma ReleaseKeeps(w: World, i: nat)
    requires WorldInv(w) && Enabled(w, i, Release) && w.pcs[i].ls[0].Down() !in w.downs
    ensures WorldInv(Next(w, i, Release))
  {
    hide Lists, Listed, Distinct, Owned, Claimed, ClaimedElse, RoutedTo, Apart, InsertedBy, Drop, OpenOk, NonEmpty;
    var was := w.pcs[i];
    var t := was.ls[0].Triple();
    var after := Next(w, i, Release);
    var pc := after.pcs[i];
    assert ThreadOk(w.Flat(), was);
    ReleaseTail(was.ls);
    ClaimedBy(w.pcs, i, t);
    DropHas(w.held, t);
    assert pc.Claim() == was.Claim() - {t};
    PairsUpdate(w.pcs, i, pc);
    PhasesUpdate(w.pcs, i, pc);
    forall u ensures Claimed(after.pcs, u) <==> Claimed(w.pcs, u) && u != t {
      ClaimedUpdate(w.pcs, i, pc, u);
      if u == t {
        ClaimedElseApart(w.pcs, i, t);
      }
    }
    ReleaseOpen(w, i);
    SameListed(w, after);
    SameRoutes(w, after);
    assert forall j :: 0 <= j < |w.pcs| ==> ThreadOk(w.Flat(), w.pcs[j]);
    forall d | d in w.downs ensures DownTriple(d) != t {
      assert DownTriple(d) == t ==> d == was.ls[0].Down();
    }
  }
}
