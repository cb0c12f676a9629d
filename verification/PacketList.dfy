/** `ustack/link`: the bounded list of outgoing packets, and which of them a destination matches. */
module PacketList {
  import opened Net

  const ICMP4: u8 := 1
  const ICMP6: u8 := 58
  const MAPPED: int := 0xFFFF_0000_0000

  /** What `match` reads of a packet; port is the transport header's destination port. */
  datatype Packet = Packet(transport: u8, port: u16, network: Network)
  datatype Network = IPv4(dst4: u32) | IPv6(dst6: u128) | Unknown

  /** `netip.Addr.As16`, which panics on the zero Addr. */
  function As16(a: Addr): u128
    requires a.IsValid()
  {
    match a
    case V4(b) => MAPPED + b
    case V6(b, _) => b
  }

  /** `netip.Addr.As4`; None where it panics. */
  function As4(a: Addr): Option<u32> {
    match a
    case NoAddr => None
    case V4(b) => Some(b)
    case V6(b, _) => if b / 0x1_0000_0000 == 0xFFFF then Some(b % 0x1_0000_0000) else None
  }

  /** The result of `match`, or None where it panics. */
  function Match(p: Packet, dst: AddrPort): Option<bool> {
    if !dst.addr.IsValid() then Some(true)
    else if p.transport != TCP && p.transport != UDP && p.transport != ICMP4 && p.transport != ICMP6 then None
    else if dst.port != (if p.transport == TCP || p.transport == UDP then p.port else 0) then Some(false)
    else match p.network
      case IPv4(a) => (match As4(dst.addr) case None => None case Some(b) => Some(a == b))
      case IPv6(a) => Some(As16(dst.addr) == a)
      case Unknown => None
  }

  /** What a packet is filed under. */
  datatype Key = Key(port: u16, addr: u128)

  function KeyOf(p: Packet): Key {
    Key(if p.transport == TCP || p.transport == UDP then p.port else 0,
        match p.network
        case IPv4(a) => MAPPED + a
        case IPv6(a) => a
        case Unknown => 0)
  }

  /** A valid destination matches exactly the packets filed under it, whatever their protocol, wherever
      match gives an answer at all. */
  lemma MatchIsKey(p: Packet, dst: AddrPort)
    requires dst.addr.IsValid() && Match(p, dst).Some?
    ensures Match(p, dst).value <==> KeyOf(p) == Key(dst.port, As16(dst.addr))
  {
  }

  /** What match answers, field by field: the destination port of TCP and UDP, 0 of ICMP, and the address, an IPv4
      one in either of its two forms. */
  lemma MatchMeans(p: Packet, dst: AddrPort)
    requires dst.addr.IsValid() && !p.network.Unknown?
    ensures var port := if p.transport == 6 || p.transport == 17 then p.port else 0;
            var known := p.transport in {6, 17, 1, 58};
            && (!known ==> Match(p, dst) == None)
            && (known && dst.port != port ==> Match(p, dst) == Some(false))
            && (known && dst.port == port && p.network.IPv6? ==>
                  Match(p, dst) == Some(p.network.dst6 == match dst.addr
                                                          case V4(b) => 281470681743360 + b
                                                          case V6(b, _) => b
                                                          case NoAddr => 0))
            && (known && dst.port == port && p.network.IPv4? ==>
                  match dst.addr
                  case V4(b) => Match(p, dst) == Some(p.network.dst4 == b)
                  case V6(b, _) =>
                    if 281470681743360 <= b < 281470681743360 + 4294967296 then
                      Match(p, dst) == Some(281470681743360 + p.network.dst4 == b)
                    else Match(p, dst) == None
                  case NoAddr => false)
  {
  }

  // The list as a sequence

  function Without<T>(s: seq<T>, i: nat): (r: seq<T>)
    requires i < |s|
    ensures |r| == |s| - 1
  {
    s[..i] + s[i + 1..]
  }

  lemma WithoutCounts<T>(s: seq<T>, i: nat)
    requires i < |s|
    ensures multiset(s) == multiset(Without(s, i)) + multiset{s[i]}
    ensures forall x :: x in Without(s, i) ==> x in s
  {
    assert s == s[..i] + [s[i]] + s[i + 1..];
  }

  /** Appending to a full list drops its first element. */
  function PutTo<T>(cap: nat, s: seq<T>, x: T): seq<T>
    requires cap > 0 && |s| <= cap
  {
    (if |s| == cap then s[1..] else s) + [x]
  }

  /** i is the first place that holds a packet matching dst. */
  ghost predicate FirstMatch(s: seq<Packet>, dst: AddrPort, i: nat) {
    && i < |s| && Match(s[i], dst) == Some(true)
    && forall j :: 0 <= j < i ==> Match(s[j], dst) == Some(false)
  }

  /** The search for dst does not panic before it finds a packet or reaches the end. */
  ghost predicate Answers(s: seq<Packet>, dst: AddrPort) {
    forall i :: 0 <= i < |s| && (forall j :: 0 <= j < i ==> Match(s[j], dst) == Some(false)) ==> Match(s[i], dst).Some?
  }

  /** i is the place an outbound call for dst takes its packet from. */
  ghost predicate Serves(s: seq<Packet>, dst: AddrPort, i: nat) {
    if dst.IsValid() then FirstMatch(s, dst, i) else i == 0 && s != []
  }

  // Runs

  /** The at-th packet put. */
  datatype Entry = Entry(at: nat, pkt: Packet)
  datatype Out = Out(e: Entry, dropped: bool)

  /** Everything put, everything that has left in the order it left, and what is still queued. */
  datatype Log = Log(puts: seq<Entry>, outs: seq<Out>, queue: seq<Entry>)

  datatype Op = Put(pkt: Packet) | Get | GetBy(dst: AddrPort)

  function Packets(s: seq<Entry>): (r: seq<Packet>)
    ensures |r| == |s| && forall i :: 0 <= i < |s| ==> r[i] == s[i].pkt
  {
    seq(|s|, i requires 0 <= i < |s| => s[i].pkt)
  }

  /** What a put makes of the log. */
  function PutLog(cap: nat, l: Log, p: Packet): Log
    requires cap > 0 && |l.queue| <= cap
  {
    var e := Entry(|l.puts|, p);
    Log(l.puts + [e], if |l.queue| == cap then l.outs + [Out(l.queue[0], true)] else l.outs, PutTo(cap, l.queue, e))
  }

  /** What taking the i-th queued packet makes of it. */
  function TakeLog(l: Log, i: nat): Log
    requires i < |l.queue|
  {
    Log(l.puts, l.outs + [Out(l.queue[i], false)], Without(l.queue, i))
  }

  ghost predicate Step(cap: nat, l: Log, op: Op, after: Log)
    requires cap > 0 && |l.queue| <= cap
  {
    match op
    case Put(p) => after == PutLog(cap, l, p)
    case Get =>
      after == if l.queue == [] then l else TakeLog(l, 0)
    case GetBy(dst) =>
      dst.addr.IsValid() &&
      ((after == l && forall i :: 0 <= i < |l.queue| ==> Match(l.queue[i].pkt, dst) == Some(false))
       || exists i: nat :: FirstMatch(Packets(l.queue), dst, i) && i < |l.queue|
                      && after == Log(l.puts, l.outs + [Out(l.queue[i], false)], Without(l.queue, i)))
  }

  /** The operation an outbound call for dst attempts. */
  function Asked(dst: AddrPort): Op { if dst.IsValid() then GetBy(dst) else Get }

  lemma PutStep(cap: nat, l: Log, p: Packet)
    requires cap > 0 && |l.queue| <= cap
    ensures Step(cap, l, Put(p), PutLog(cap, l, p))
  {
  }

  lemma TakeStep(cap: nat, l: Log, dst: AddrPort, i: nat)
    requires cap > 0 && |l.queue| <= cap && i < |l.queue| && Serves(Packets(l.queue), dst, i)
    ensures Step(cap, l, Asked(dst), TakeLog(l, i))
  {
  }

  lemma NoneStep(cap: nat, l: Log, dst: AddrPort)
    requires cap > 0 && |l.queue| <= cap
    requires dst.IsValid() ==> Answers(Packets(l.queue), dst)
    requires forall i :: !Serves(Packets(l.queue), dst, i)
    ensures Step(cap, l, Asked(dst), l)
  {
    if dst.IsValid() {
      forall i: nat ensures !FirstMatch(Packets(l.queue), dst, i) {
        assert !Serves(Packets(l.queue), dst, i);
      }
      NoMatch(Packets(l.queue), dst, |l.queue|);
    } else {
      assert !Serves(Packets(l.queue), dst, 0);
    }
  }

  /** A search that answers and serves nothing meets no match. */
  lemma {:induction false} NoMatch(s: seq<Packet>, dst: AddrPort, n: nat)
    requires n <= |s| && Answers(s, dst) && forall i :: !FirstMatch(s, dst, i)
    ensures forall j :: 0 <= j < n ==> Match(s[j], dst) == Some(false)
  {
    hide Match;
    if n > 0 {
      NoMatch(s, dst, n - 1);
      var m := Match(s[n - 1], dst);
      assert m.Some? && (m.value ==> FirstMatch(s, dst, n - 1));
      assert m == Some(false);
    }
  }

  lemma TakeQueue(l: Log, i: nat)
    requires i < |l.queue|
    ensures Packets(TakeLog(l, i).queue) == Without(Packets(l.queue), i)
    ensures Packets(Left(TakeLog(l, i).outs)) == Packets(Left(l.outs)) + [l.queue[i].pkt]
  {
  }

  lemma PutQueue(cap: nat, l: Log, p: Packet)
    requires cap > 0 && |l.queue| <= cap
    ensures Packets(PutLog(cap, l, p).queue) == PutTo(cap, Packets(l.queue), p)
  {
  }

  // Projections on one key

  function Filed(s: seq<Entry>, k: Key): seq<Entry> {
    if s == [] then [] else Filed(s[..|s| - 1], k) + (if KeyOf(s[|s| - 1].pkt) == k then [s[|s| - 1]] else [])
  }

  function Left(s: seq<Out>): (r: seq<Entry>)
    ensures |r| == |s| && forall i :: 0 <= i < |s| ==> r[i] == s[i].e
  {
    seq(|s|, i requires 0 <= i < |s| => s[i].e)
  }

  lemma {:induction false} FiledConcat(a: seq<Entry>, b: seq<Entry>, k: Key)
    ensures Filed(a + b, k) == Filed(a, k) + Filed(b, k)
  {
    if b == [] {
      assert a + b == a;
    } else {
      assert (a + b)[..|a + b| - 1] == a + b[..|b| - 1];
      FiledConcat(a, b[..|b| - 1], k);
    }
  }

  lemma FiledOne(e: Entry, k: Key)
    ensures Filed([e], k) == if KeyOf(e.pkt) == k then [e] else []
  {
    assert [e][..0] == [];
  }

  lemma {:induction false} FiledNone(s: seq<Entry>, k: Key)
    requires forall j :: 0 <= j < |s| ==> KeyOf(s[j].pkt) != k
    ensures Filed(s, k) == []
  {
    if s != [] {
      FiledNone(s[..|s| - 1], k);
    }
  }

  /** Taking the first entry of its key from the middle of a queue takes the head of that key's own
      queue and leaves every other key's alone. */
  lemma FiledWithout(s: seq<Entry>, i: nat, k: Key)
    requires i < |s| && forall j :: 0 <= j < i ==> KeyOf(s[j].pkt) != KeyOf(s[i].pkt)
    ensures Filed(s, k) == Filed([s[i]], k) + Filed(Without(s, i), k)
  {
    hide Filed, KeyOf;
    assert s == s[..i] + ([s[i]] + s[i + 1..]);
    FiledConcat(s[..i], [s[i]] + s[i + 1..], k);
    FiledConcat([s[i]], s[i + 1..], k);
    FiledConcat(s[..i], s[i + 1..], k);
    FiledOne(s[i], k);
    if KeyOf(s[i].pkt) == k {
      FiledNone(s[..i], k);
    }
  }

  ghost predicate InOrder(s: seq<Entry>) {
    forall i, j :: 0 <= i < j < |s| ==> s[i].at < s[j].at
  }

  /** For every key, what left and then what is queued is what was put, in the order it was put. */
  ghost predicate Inv(cap: nat, l: Log) {
    && |l.queue| <= cap
    && InOrder(l.queue) && (forall e :: e in l.queue ==> e.at < |l.puts|)
    && multiset(l.puts) == multiset(Left(l.outs)) + multiset(l.queue)
    && forall k :: Filed(l.puts, k) == Filed(Left(l.outs), k) + Filed(l.queue, k)
  }

  lemma LeftAdd(s: seq<Out>, o: Out)
    ensures Left(s + [o]) == Left(s) + [o.e]
  {
  }

  lemma InOrderWithout(s: seq<Entry>, i: nat)
    requires InOrder(s) && i < |s|
    ensures InOrder(Without(s, i))
  {
  }

  /** One entry leaves, the first of its key. */
  lemma LeaveKeeps(cap: nat, l: Log, i: nat, dropped: bool)
    requires Inv(cap, l) && i < |l.queue|
    requires forall j :: 0 <= j < i ==> KeyOf(l.queue[j].pkt) != KeyOf(l.queue[i].pkt)
    ensures Inv(cap, Log(l.puts, l.outs + [Out(l.queue[i], dropped)], Without(l.queue, i)))
  {
    hide InOrder, Without, Left, Filed;
    var e := l.queue[i];
    var outs := l.outs + [Out(e, dropped)];
    InOrderWithout(l.queue, i);
    WithoutCounts(l.queue, i);
    LeftAdd(l.outs, Out(e, dropped));
    assert multiset(Left(l.outs) + [e]) == multiset(Left(l.outs)) + multiset{e};
    forall k ensures Filed(l.puts, k) == Filed(Left(outs), k) + Filed(Without(l.queue, i), k) {
      FiledWithout(l.queue, i, k);
      FiledConcat(Left(l.outs), [e], k);
    }
  }

  lemma AppendKeeps(cap: nat, l: Log, p: Packet)
    requires Inv(cap, l) && |l.queue| < cap
    ensures Inv(cap, Log(l.puts + [Entry(|l.puts|, p)], l.outs, l.queue + [Entry(|l.puts|, p)]))
  {
    hide Left, Filed;
    var e := Entry(|l.puts|, p);
    forall k ensures Filed(l.puts + [e], k) == Filed(Left(l.outs), k) + Filed(l.queue + [e], k) {
      FiledConcat(l.puts, [e], k);
      FiledConcat(l.queue, [e], k);
    }
  }

  lemma StepKeeps(cap: nat, l: Log, op: Op, after: Log)
    requires cap > 0 && Inv(cap, l) && Step(cap, l, op, after)
    ensures Inv(cap, after)
  {
    hide InOrder, Left, Filed, As16, KeyOf, Match;
    match op
    case Put(p) =>
      var room := l;
      if |l.queue| == cap {
        LeaveKeeps(cap, l, 0, true);
        room := Log(l.puts, l.outs + [Out(l.queue[0], true)], Without(l.queue, 0));
        assert room.queue == l.queue[1..];
      }
      AppendKeeps(cap, room, p);
    case Get =>
      if l.queue != [] {
        LeaveKeeps(cap, l, 0, false);
      }
    case GetBy(dst) =>
      if after != l {
        var i: nat :| FirstMatch(Packets(l.queue), dst, i) && i < |l.queue|
                 && after == Log(l.puts, l.outs + [Out(l.queue[i], false)], Without(l.queue, i));
        forall j | 0 <= j <= i ensures (KeyOf(l.queue[j].pkt) == Key(dst.port, As16(dst.addr))) <==> j == i {
          MatchIsKey(l.queue[j].pkt, dst);
        }
        LeaveKeeps(cap, l, i, false);
      }
  }

  ghost predicate Run(cap: nat, ops: seq<Op>, run: seq<Log>)
    requires cap > 0
  {
    && |run| == |ops| + 1 && run[0] == Log([], [], [])
    && forall i :: 0 <= i < |ops| ==> |run[i].queue| <= cap ==> Step(cap, run[i], ops[i], run[i + 1])
  }

  lemma {:induction false} RunInv(cap: nat, ops: seq<Op>, run: seq<Log>, i: nat)
    requires cap > 0 && Run(cap, ops, run) && i < |run|
    ensures Inv(cap, run[i])
  {
    if i > 0 {
      RunInv(cap, ops, run, i - 1);
      StepKeeps(cap, run[i - 1], ops[i - 1], run[i]);
    }
  }

  // What that means

  lemma {:induction false} FiledMember(s: seq<Entry>, k: Key, i: nat)
    requires i < |s| && KeyOf(s[i].pkt) == k
    ensures s[i] in Filed(s, k)
  {
    if i < |s| - 1 {
      FiledMember(s[..|s| - 1], k, i);
    }
  }

  /** Order within one key's projection is order within the whole. */
  lemma FiledOrder(s: seq<Entry>, k: Key, i: nat, j: nat)
    requires i < j < |s| && KeyOf(s[i].pkt) == k == KeyOf(s[j].pkt) && InOrder(Filed(s, k))
    ensures s[i].at < s[j].at
  {
    assert s == s[..j] + s[j..];
    FiledConcat(s[..j], s[j..], k);
    FiledMember(s[..j], k, i);
    FiledMember(s[j..], k, 0);
    var a, b := Filed(s[..j], k), Filed(s[j..], k);
    var x :| 0 <= x < |a| && a[x] == s[i];
    var y :| 0 <= y < |b| && b[y] == s[j];
    assert (a + b)[x] == s[i] && (a + b)[|a| + y] == s[j];
  }

  lemma {:induction false} FiledInOrder(s: seq<Entry>, k: Key)
    requires InOrder(s)
    ensures InOrder(Filed(s, k)) && forall e :: e in Filed(s, k) ==> e in s
  {
    if s != [] {
      var rest := s[..|s| - 1];
      FiledInOrder(rest, k);
      forall e | e in Filed(rest, k) ensures e.at < s[|s| - 1].at {
        var q :| 0 <= q < |rest| && rest[q] == e;
        assert s[q] == e;
      }
    }
  }

  lemma {:induction false} PutsNumbered(cap: nat, ops: seq<Op>, run: seq<Log>, i: nat)
    requires cap > 0 && Run(cap, ops, run) && i < |run|
    ensures forall j :: 0 <= j < |run[i].puts| ==> run[i].puts[j].at == j
  {
    hide Inv;
    if i > 0 {
      RunInv(cap, ops, run, i - 1);
      PutsNumbered(cap, ops, run, i - 1);
      assert |run[i - 1].queue| <= cap by { QueueBound(cap, run[i - 1]); }
    }
  }

  lemma QueueBound(cap: nat, l: Log)
    requires Inv(cap, l)
    ensures |l.queue| <= cap
  {
  }

  /** Packets of one destination leave in the order they were put, and none is overtaken by one that
      is still queued. */
  lemma ArrivalOrder(cap: nat, ops: seq<Op>, run: seq<Log>, n: nat, i: nat, j: nat)
    requires cap > 0 && Run(cap, ops, run) && n < |run| && i < |run[n].outs|
    ensures i < j < |run[n].outs| && KeyOf(run[n].outs[j].e.pkt) == KeyOf(run[n].outs[i].e.pkt) ==>
              run[n].outs[i].e.at < run[n].outs[j].e.at
    ensures forall e :: e in run[n].queue && KeyOf(e.pkt) == KeyOf(run[n].outs[i].e.pkt) ==>
              run[n].outs[i].e.at < e.at
  {
    hide Run, Left, Filed, KeyOf;
    RunInv(cap, ops, run, n);
    PutsNumbered(cap, ops, run, n);
    var l := run[n];
    var k := KeyOf(l.outs[i].e.pkt);
    var all := Left(l.outs) + l.queue;
    FiledInOrder(l.puts, k);
    FiledConcat(Left(l.outs), l.queue, k);
    if i < j < |l.outs| && KeyOf(l.outs[j].e.pkt) == k {
      FiledOrder(all, k, i, j);
    }
    forall e | e in l.queue && KeyOf(e.pkt) == k ensures l.outs[i].e.at < e.at {
      var q :| 0 <= q < |l.queue| && l.queue[q] == e;
      assert all[|l.outs| + q] == e;
      FiledOrder(all, k, i, |l.outs| + q);
    }
  }

  /** A packet is dropped only by a put on a full list, which then drops its oldest and no other; every put stays
      at the end of the list, and nothing else changes what is queued but a packet that is handed out. */
  lemma StepMeans(cap: nat, l: Log, op: Op, after: Log)
    requires cap > 0 && |l.queue| <= cap && Step(cap, l, op, after)
    ensures op.Put? ==>
              && after.puts == l.puts + [Entry(|l.puts|, op.pkt)] && after.queue != []
              && after.queue[|after.queue| - 1] == Entry(|l.puts|, op.pkt)
              && (|l.queue| < cap ==> after.outs == l.outs && after.queue[..|l.queue|] == l.queue)
              && (|l.queue| == cap ==>
                    && after.outs == l.outs + [Out(l.queue[0], true)]
                    && |after.queue| == cap && after.queue[..cap - 1] == l.queue[1..])
    ensures !op.Put? && after != l ==>
              exists i: nat :: i < |l.queue| && after.puts == l.puts && after.outs == l.outs + [Out(l.queue[i], false)]
                               && after.queue == l.queue[..i] + l.queue[i + 1..]
    ensures !op.Put? && after == l ==>
              match op
              case Get => l.queue == []
              case GetBy(dst) => forall i :: 0 <= i < |l.queue| ==> Match(l.queue[i].pkt, dst) == Some(false)
              case Put(_) => true
  {
    hide Match;
  }

  /** Nothing is lost or made up, the list never outgrows its capacity, and what a full list drops is
      older than everything it keeps. */
  lemma Conservation(cap: nat, ops: seq<Op>, run: seq<Log>, n: nat)
    requires cap > 0 && Run(cap, ops, run) && n < |run|
    ensures var l := run[n];
            && |l.queue| <= cap && |l.puts| == |l.outs| + |l.queue|
            && multiset(l.puts) == multiset(Left(l.outs)) + multiset(l.queue)
            && (forall p :: |l.queue| == cap ==>
                  forall e :: e in PutTo(cap, l.queue, Entry(|l.puts|, p)) ==> l.queue[0].at < e.at)
  {
    RunInv(cap, ops, run, n);
    var l := run[n];
    hide Run, Filed;
    assert |multiset(l.puts)| == |l.puts| && |multiset(Left(l.outs))| == |l.outs| && |multiset(l.queue)| == |l.queue|;
    if |l.queue| == cap {
      forall e | e in l.queue[1..] ensures l.queue[0].at < e.at {
        var q :| 0 <= q < |l.queue[1..]| && l.queue[1..][q] == e;
        assert l.queue[q + 1] == e;
      }
      assert l.queue[0] in l.queue;
    }
  }

  // The queue itself

  /** A reference-counted packet buffer; the last DecRef frees it, and one more would panic. */
  class PacketBuffer {
    const pkt: Packet
    var refs: int

    constructor (pkt: Packet)
      ensures this.pkt == pkt && refs == 1
    {
      this.pkt, refs := pkt, 1;
    }

    method IncRef()
      modifies this`refs
      ensures refs == old(refs) + 1
    {
      refs := refs + 1;
    }

    method DecRef()
      requires refs > 0
      modifies this`refs
      ensures refs == old(refs) - 1
    {
      refs := refs - 1;
    }
  }

  /** `slice`: a Go slice that never grows past the capacity it was made with. */
  class SliceQueue {
    const buf: array<PacketBuffer?>
    var n: nat
    ghost var contents: seq<PacketBuffer>
    ghost var ops: seq<Op>  // every put and every attempt to take so far
    ghost var run: seq<Log>  // what they did, as a run of the specification

    ghost predicate Valid()
      reads this`n, this`contents, buf
    {
      && buf.Length > 0 && n == |contents| <= buf.Length
      && forall i :: 0 <= i < n ==> buf[i] == contents[i]
    }

    /** References to x that are not the queue's own. */
    ghost function Spare(x: PacketBuffer): int
      reads this`contents, x`refs
    {
      x.refs - multiset(contents)[x]
    }

    /** Every queued entry holds a reference. */
    ghost predicate Counted()
      reads this`contents, contents
    {
      forall x :: x in contents ==> Spare(x) >= 0
    }

    ghost function Queued(): (r: seq<Packet>)
      reads this`contents
      ensures |r| == |contents| && forall i :: 0 <= i < |r| ==> r[i] == contents[i].pkt
    {
      var c := contents;
      seq(|c|, i requires 0 <= i < |c| => c[i].pkt)
    }

    /** The state the specification's run has reached. */
    ghost function Now(): Log
      requires run != []
      reads this`run
    {
      run[|run| - 1]
    }

    /** The list is where a run of the specification over the same calls is. */
    ghost predicate Logged()
      requires buf.Length > 0
      reads this
    {
      Run(buf.Length, ops, run) && run != [] && Packets(Now().queue) == Queued()
    }

    constructor (size: nat)
      requires size > 0
      ensures Valid() && Counted() && contents == [] && buf.Length == size && fresh(buf)
      ensures Logged() && ops == []
    {
      buf, n, contents := new PacketBuffer?[size](_ => null), 0, [];
      ops, run := [], [Log([], [], [])];
    }

    ghost method Record(op: Op, after: Log)
      requires buf.Length > 0 && Run(buf.Length, ops, run) && run != [] && |Now().queue| <= buf.Length
      requires Step(buf.Length, Now(), op, after) && Packets(after.queue) == Queued()
      modifies this`ops, this`run
      ensures Logged() && ops == old(ops) + [op] && Now() == after
    {
      hide Step;
      ops, run := ops + [op], run + [after];
    }

    /** Removes entry i by moving the rest up. The caller takes over its reference; no other reference
        changes hands. */
    method Remove(i: nat)
      requires Valid() && i < n
      modifies this`n, this`contents, buf
      ensures Valid() && (old(Counted()) ==> Counted()) && contents == Without(old(contents), i)
      ensures forall x: PacketBuffer :: old(allocated(x)) ==>
                Spare(x) == old(Spare(x)) + if x == old(contents[i]) then 1 else 0
    {
      WithoutCounts(contents, i);
      forall j | i <= j < n - 1 {
        buf[j] := buf[j + 1];
      }
      n := n - 1;
      contents := Without(contents, i);
    }

    /** `get`. */
    method Take() returns (p: PacketBuffer?)
      requires Valid()
      modifies this`n, this`contents, buf
      ensures Valid() && (old(Counted()) ==> Counted())
      ensures forall x: PacketBuffer :: old(allocated(x)) ==> Spare(x) == old(Spare(x)) + if x == p then 1 else 0
      ensures old(contents) == [] ==> p == null && contents == []
      ensures old(contents) != [] ==> p == old(contents)[0] && contents == Without(old(contents), 0)
    {
      p := null;
      if n > 0 {
        p := buf[0];
        Remove(0);
      }
    }

    /** `getBy`: the first entry that matches. */
    method TakeBy(dst: AddrPort) returns (p: PacketBuffer?, ghost at: nat)
      requires Valid() && Answers(Queued(), dst)
      modifies this`n, this`contents, buf
      ensures Valid() && (old(Counted()) ==> Counted())
      ensures forall x: PacketBuffer :: old(allocated(x)) ==> Spare(x) == old(Spare(x)) + if x == p then 1 else 0
      ensures p == null ==>
                contents == old(contents) && forall i :: 0 <= i < n ==> Match(contents[i].pkt, dst) == Some(false)
      ensures p != null ==> FirstMatch(old(Queued()), dst, at) && at < |old(contents)| && p == old(contents)[at]
      ensures p != null ==> contents == Without(old(contents), at) && Queued() == Without(old(Queued()), at)
    {
      p, at := null, 0;
      var i: nat := 0;
      while i < n
        invariant i <= n && unchanged(this) && unchanged(buf)
        invariant forall j :: 0 <= j < i ==> Match(Queued()[j], dst) == Some(false)
      {
        assert Match(Queued()[i], dst).Some?;
        if Match(buf[i].pkt, dst) == Some(true) {
          p, at := buf[i], i;
          assert FirstMatch(Queued(), dst, i);
          Remove(i);
          return;
        }
        i := i + 1;
      }
    }

    /** Gives up the oldest entry and its reference; nobody's own references change. */
    method Discard()
      requires Valid() && Counted() && n > 0
      modifies this`n, this`contents, buf, contents[..1]
      ensures Valid() && contents == old(contents)[1..]
      ensures forall x: PacketBuffer :: old(allocated(x)) ==> Spare(x) == old(Spare(x))
    {
      assert contents[0] in contents && Spare(contents[0]) >= 0;
      var d := Take();
      assert contents == old(contents)[1..];
      d.DecRef();
    }

    method Append(pkb: PacketBuffer)
      requires Valid() && n < buf.Length
      modifies this`n, this`contents, buf, pkb`refs
      ensures Valid() && contents == old(contents) + [pkb]
      ensures forall x: PacketBuffer :: old(allocated(x)) ==> Spare(x) == old(Spare(x))
    {
      pkb.IncRef();
      buf[n], n := pkb, n + 1;
      contents := contents + [pkb];
    }

    /** `Put`: a full list drops its oldest entry. The caller holds a reference of its own, and keeps it. */
    method Put(pkb: PacketBuffer?) returns (ok: bool)
      requires Valid() && Counted() && Logged() && (pkb != null ==> Spare(pkb) > 0)
      modifies this, buf, contents, pkb
      ensures Valid() && Counted() && Logged() && ok == (pkb != null)
      ensures forall x: PacketBuffer :: old(allocated(x)) ==> Spare(x) == old(Spare(x))
      ensures contents == if pkb == null then old(contents) else PutTo<PacketBuffer>(buf.Length, old(contents), pkb)
      ensures ops == old(ops) + if pkb == null then [] else [Op.Put(pkb.pkt)]
    {
      hide Spare, Counted, Run, Step, PutTo;
      if pkb == null {
        return false;
      }
      ghost var l := Now();
      Push(pkb);
      PutQueue(buf.Length, l, pkb.pkt);
      PutStep(buf.Length, l, pkb.pkt);
      Record(Op.Put(pkb.pkt), PutLog(buf.Length, l, pkb.pkt));
      return true;
    }

    /** The list's part of a put. */
    method Push(pkb: PacketBuffer)
      requires Valid() && Counted() && Spare(pkb) > 0
      modifies this`n, this`contents, buf, contents, pkb
      ensures Valid() && Counted()
      ensures forall x: PacketBuffer :: old(allocated(x)) ==> Spare(x) == old(Spare(x))
      ensures contents == PutTo<PacketBuffer>(buf.Length, old(contents), pkb)
      ensures Queued() == PutTo(buf.Length, old(Queued()), pkb.pkt)
    {
      hide Spare;
      if n == buf.Length {
        Discard();
      }
      Append(pkb);
      assert forall x :: x in contents ==> x in old(contents) || x == pkb;
    }

    /** One attempt of `Get` or `GetBy` under the lock: by destination, or the head when none is given. */
    method Fetch(dst: AddrPort) returns (p: PacketBuffer?)
      requires Valid() && Logged()
      requires dst.IsValid() ==> Answers(Queued(), dst)
      modifies this, buf
      ensures Valid() && Logged() && (old(Counted()) ==> Counted())
      ensures forall x: PacketBuffer :: old(allocated(x)) ==> Spare(x) == old(Spare(x)) + if x == p then 1 else 0
      ensures p == null ==> contents == old(contents) && forall i :: !Serves(old(Queued()), dst, i)
      ensures p != null ==>
                exists i: nat :: Serves(old(Queued()), dst, i) && i < |old(contents)|
                                 && p == old(contents)[i] && contents == Without(old(contents), i)
      ensures ops == old(ops) + [Asked(dst)]
      ensures Packets(Left(Now().outs)) == old(Packets(Left(Now().outs))) + if p == null then [] else [p.pkt]
    {
      hide Match, Spare, Counted, Run, Step, Serves;
      ghost var l := Now();
      ghost var i;
      p, i := Pick(dst);
      if p == null {
        NoneStep(buf.Length, l, dst);
        Record(Asked(dst), l);
      } else {
        TakeStep(buf.Length, l, dst, i);
        TakeQueue(l, i);
        Record(Asked(dst), TakeLog(l, i));
      }
    }

    /** The list's part of an attempt. */
    method Pick(dst: AddrPort) returns (p: PacketBuffer?, ghost i: nat)
      requires Valid() && (dst.IsValid() ==> Answers(Queued(), dst))
      modifies this`n, this`contents, buf
      ensures Valid() && (old(Counted()) ==> Counted())
      ensures forall x: PacketBuffer :: old(allocated(x)) ==> Spare(x) == old(Spare(x)) + if x == p then 1 else 0
      ensures p == null ==> contents == old(contents) && forall j :: !Serves(old(Queued()), dst, j)
      ensures p != null ==> Serves(old(Queued()), dst, i) && i < |old(contents)| && p == old(contents)[i]
      ensures p != null ==> contents == Without(old(contents), i) && Queued() == Without(old(Queued()), i)
    {
      hide Match, Spare, Counted;
      i := 0;
      if dst.IsValid() {
        p, i := TakeBy(dst);
      } else {
        p := Take();
      }
    }
  }

  /** The newest cap elements. */
  function Last<T>(cap: nat, s: seq<T>): seq<T> {
    if |s| <= cap then s else s[|s| - cap..]
  }

  lemma LastShort<T>(cap: nat, s: seq<T>, xs: seq<T>)
    requires |s| <= cap
    ensures Last(cap, s + xs[..0]) == s
  {
    assert s + xs[..0] == s;
  }

  lemma PutToIsLast<T>(cap: nat, s: seq<T>, xs: seq<T>, i: nat)
    requires cap > 0 && |s| <= cap && i < |xs|
    ensures |Last(cap, s + xs[..i])| <= cap
    ensures PutTo(cap, Last(cap, s + xs[..i]), xs[i]) == Last(cap, s + xs[..i + 1])
  {
    assert s + xs[..i + 1] == s + xs[..i] + [xs[i]];
  }

  lemma LastMembers<T>(cap: nat, s: seq<T>, xs: seq<T>, i: nat)
    requires i <= |xs|
    ensures forall x :: x in Last(cap, s + xs[..i]) ==> x in s || x in xs
  {
    forall x | x in Last(cap, s + xs[..i]) ensures x in s || x in xs {
      assert x in s + xs[..i];
    }
  }

  class List {
    const list: SliceQueue
    var closed: bool

    constructor (buff: int)
      ensures list.Valid() && list.Counted() && list.Logged() && list.contents == [] && !closed && list.ops == []
      ensures list.buf.Length == if buff < 4 then 4 else buff
    {
      list := new SliceQueue(if buff < 4 then 4 else buff);
      closed := false;
    }

    static function PutOps(pkts: seq<PacketBuffer>): seq<Op> {
      seq(|pkts|, i requires 0 <= i < |pkts| => Op.Put(pkts[i].pkt))
    }

    /** `WritePackets`: of what was queued and what is written, the newest stay. */
    method WritePackets(pkts: seq<PacketBuffer>) returns (written: nat, open: bool)
      requires list.Valid() && list.Counted() && list.Logged() && forall x :: x in pkts ==> list.Spare(x) > 0
      modifies list, list.buf, list.contents, pkts
      ensures list.Valid() && list.Counted() && list.Logged()
      ensures open == !closed && written == if open then |pkts| else 0
      ensures list.ops == old(list.ops) + if open then PutOps(pkts) else []
      ensures list.contents == if open then Last(list.buf.Length, old(list.contents) + pkts) else old(list.contents)
      ensures forall x: PacketBuffer :: old(allocated(x)) ==> list.Spare(x) == old(list.Spare(x))
    {
      hide SliceQueue.Counted, SliceQueue.Spare, SliceQueue.Logged, PutTo, Last;
      LastShort(list.buf.Length, list.contents, pkts);
      if closed {
        return 0, false;
      }
      for i := 0 to |pkts|
        invariant list.Valid() && list.Counted() && list.Logged()
        invariant list.ops == old(list.ops) + PutOps(pkts[..i])
        invariant list.contents == Last(list.buf.Length, old(list.contents) + pkts[..i])
        invariant forall j :: 0 <= j < |list.contents| ==>
                    list.contents[j] in old(list.contents) || list.contents[j] in pkts
        invariant forall x: PacketBuffer :: old(allocated(x)) ==> list.Spare(x) == old(list.Spare(x))
      {
        PutToIsLast(list.buf.Length, old(list.contents), pkts, i);
        var ok := list.Put(pkts[i]);
        LastMembers(list.buf.Length, old(list.contents), pkts, i + 1);
        assert PutOps(pkts[..i + 1]) == PutOps(pkts[..i]) + [Op.Put(pkts[i].pkt)];
      }
      assert pkts[..|pkts|] == pkts;
      return |pkts|, true;
    }

    /** One attempt of `outboundBy`: a packet that is there is taken, copied out and released. */
    method OutboundBy(dst: AddrPort) returns (r: Option<Packet>)
      requires list.Valid() && list.Counted() && list.Logged()
      requires dst.IsValid() ==> Answers(list.Queued(), dst)
      modifies list, list.buf, list.contents
      ensures list.Valid() && list.Counted() && list.Logged() && list.ops == old(list.ops) + [Asked(dst)]
      ensures r.None? ==> list.contents == old(list.contents) && forall i :: !Serves(old(list.Queued()), dst, i)
      ensures r.Some? ==>
                exists i: nat :: Serves(old(list.Queued()), dst, i) && i < |old(list.contents)|
                                 && r.value == old(list.contents)[i].pkt
                                 && list.contents == Without(old(list.contents), i)
      ensures Packets(Left(list.Now().outs))
              == old(Packets(Left(list.Now().outs))) + if r.None? then [] else [r.value]
      ensures forall x: PacketBuffer :: old(allocated(x)) ==> list.Spare(x) == old(list.Spare(x))
    {
      hide Serves, Match, Without;
      var p := list.Fetch(dst);
      if p == null {
        return None;
      }
      r := Some(p.pkt);
      assert p in old(list.contents) && list.Spare(p) > 0;
      p.DecRef();
    }
  }
}
