/** What `ports.Adapter` holds, as a value: every (protocol, local port) with the remotes using it. */
module PortPool {
  import opened Net

  datatype PortKey = PortKey(proto: u8, port: u16)
  datatype Triple = Triple(proto: u8, port: u16, remote: AddrPort) {
    function Key(): PortKey { PortKey(proto, port) }
  }
  type Held = map<PortKey, set<AddrPort>>

  /** What the operating system answers to a listen on port 0 and the filter set on that socket. */
  datatype Reply = Refused | Unfiltered(port: u16) | Bound(port: u16)

  datatype PortError = ListenFailed | FilterFailed | InvalidRemote | UnknownProtocol

  predicate Has(h: Held, t: Triple) {
    t.Key() in h && t.remote in h[t.Key()]
  }

  predicate Reusable(h: Held, proto: u8, remote: AddrPort, k: PortKey) {
    k in h && k.proto == proto && remote !in h[k]
  }

  predicate AnyReusable(h: Held, proto: u8, remote: AddrPort) {
    exists k :: k in h && Reusable(h, proto, remote, k)
  }

  /** The result of GetPort: any reusable port if there is one, else what the allocator answers. */
  ghost predicate Outcome(h: Held, proto: u8, remote: AddrPort, reply: Reply, r: Result<u16, PortError>) {
    if !remote.IsValid() then r == Err(InvalidRemote)
    else if AnyReusable(h, proto, remote) then
      r.Ok? && r.value != 0 && Reusable(h, proto, remote, PortKey(proto, r.value))
    else if proto != TCP && proto != UDP then r == Err(UnknownProtocol)
    else match reply
      case Refused => r == Err(ListenFailed)
      case Unfiltered(_) => r == Err(FilterFailed)
      case Bound(p) => r == Ok(p) && p != 0 && PortKey(proto, p) !in h
  }

  function Take(h: Held, t: Triple): Held {
    h[t.Key() := (if t.Key() in h then h[t.Key()] else {}) + {t.remote}]
  }

  function Drop(h: Held, t: Triple): Held {
    if t.Key() !in h then h
    else if h[t.Key()] - {t.remote} == {} then h - {t.Key()}
    else h[t.Key() := h[t.Key()] - {t.remote}]
  }

  ghost predicate NonEmpty(h: Held) {
    forall k :: k in h ==> h[k] != {}
  }

  /** Taking and dropping touch one reservation and no other. */
  lemma TakeHas(h: Held, t: Triple)
    ensures forall u :: Has(Take(h, t), u) <==> Has(h, u) || u == t
    ensures NonEmpty(h) ==> NonEmpty(Take(h, t))
  {
    forall u ensures Has(Take(h, t), u) <==> Has(h, u) || u == t {
      assert u == t <==> u.Key() == t.Key() && u.remote == t.remote;
    }
  }

  lemma DropHas(h: Held, t: Triple)
    ensures forall u :: Has(Drop(h, t), u) <==> Has(h, u) && u != t
    ensures NonEmpty(h) ==> NonEmpty(Drop(h, t))
  {
    forall u ensures Has(Drop(h, t), u) <==> Has(h, u) && u != t {
      assert u == t <==> u.Key() == t.Key() && u.remote == t.remote;
      if u.Key() == t.Key() && Has(h, u) {
        assert u.remote in h[t.Key()] - {t.remote} || u.remote == t.remote;
      }
    }
  }

  /** Releasing what was just reserved restores the table, key and all. */
  lemma TakeDrop(h: Held, t: Triple)
    requires NonEmpty(h) && !Has(h, t)
    ensures Drop(Take(h, t), t) == h
  {
    if t.Key() in h {
      assert h[t.Key()] + {t.remote} - {t.remote} == h[t.Key()];
    } else {
      assert {} + {t.remote} - {t.remote} == {};
    }
  }

  lemma TakeFresh(h: Held, t: Triple)
    requires t.Key() !in h
    ensures Take(h[t.Key() := {}], t) == Take(h, t)
  {
    assert h[t.Key() := {}][t.Key() := {t.remote}] == h[t.Key() := {t.remote}];
  }

  // Port economy

  function PortsOf(h: Held, proto: u8): set<PortKey> {
    set k | k in h && k.proto == proto
  }

  function LoadOf(h: Held, proto: u8, remote: AddrPort): set<PortKey> {
    set k | k in h && k.proto == proto && remote in h[k]
  }

  datatype PoolOp = Get(t: Triple) | Del(t: Triple)

  /** One successful GetPort, with whichever reusable port the iteration met, or one DelPort. */
  ghost predicate PoolStep(h: Held, op: PoolOp, h': Held) {
    match op
    case Get(t) =>
      && h' == Take(h, t)
      && (if AnyReusable(h, t.proto, t.remote) then Reusable(h, t.proto, t.remote, t.Key())
          else t.Key() !in h)
    case Del(t) => h' == Drop(h, t)
  }

  ghost predicate PoolRun(ops: seq<PoolOp>, hs: seq<Held>) {
    && |hs| == |ops| + 1
    && hs[0] == map[]
    && forall i :: 0 <= i < |ops| ==> PoolStep(hs[i], ops[i], hs[i + 1])
  }

  lemma SubsetCard<T>(a: set<T>, b: set<T>)
    requires a <= b
    ensures |a| <= |b|
  {
    assert b == a + (b - a);
  }

  /** A reservation that adds a port finds nothing to reuse. */
  predicate Thrifty(h: Held, t: Triple) {
    t.Key() in h || !AnyReusable(h, t.proto, t.remote)
  }

  /** Whenever it is made, such a reservation adds a port only to a remote that is then on every port. */
  lemma TakePorts(h: Held, t: Triple, proto: u8)
    requires Thrifty(h, t)
    ensures PortsOf(Take(h, t), proto) <= PortsOf(h, proto)
            || LoadOf(Take(h, t), proto, t.remote) == PortsOf(Take(h, t), proto)
  {
    if t.proto == proto && t.Key() !in h {
      forall k | k in PortsOf(Take(h, t), proto) ensures t.remote in Take(h, t)[k] {
        if k in h {
          assert !Reusable(h, proto, t.remote, k);
        }
      }
    }
  }

  /** A step adds a port only when the requesting remote is on every port of the protocol. */
  lemma StepPorts(h: Held, op: PoolOp, h': Held, proto: u8)
    requires PoolStep(h, op, h')
    ensures PortsOf(h', proto) <= PortsOf(h, proto)
            || (op.Get? && LoadOf(h', proto, op.t.remote) == PortsOf(h', proto))
  {
    if op.Get? {
      TakePorts(h, op.t, proto);
    }
  }

  /** The ports held never exceed the most reservations one remote has had at once. */
  lemma {:induction false} PortEconomy(ops: seq<PoolOp>, hs: seq<Held>, proto: u8, i: nat)
    returns (j: nat, remote: AddrPort)
    requires PoolRun(ops, hs) && i < |hs|
    ensures j <= i && |PortsOf(hs[i], proto)| <= |LoadOf(hs[j], proto, remote)|
  {
    if i == 0 {
      j, remote := 0, AddrPort(NoAddr, 0);
      assert PortsOf(hs[0], proto) == {};
    } else {
      StepPorts(hs[i - 1], ops[i - 1], hs[i], proto);
      if PortsOf(hs[i], proto) <= PortsOf(hs[i - 1], proto) {
        j, remote := PortEconomy(ops, hs, proto, i - 1);
        SubsetCard(PortsOf(hs[i], proto), PortsOf(hs[i - 1], proto));
      } else {
        j, remote := i, ops[i - 1].t.remote;
      }
    }
  }

  /** Without releases the ports held are exactly the current heaviest remote's reservations. */
  lemma {:induction false} PortEconomyExact(ops: seq<PoolOp>, hs: seq<Held>, proto: u8, i: nat)
    returns (remote: AddrPort)
    requires PoolRun(ops, hs) && i < |hs|
    requires forall k :: 0 <= k < |ops| ==> ops[k].Get?
    ensures LoadOf(hs[i], proto, remote) == PortsOf(hs[i], proto)
    ensures forall r :: |LoadOf(hs[i], proto, r)| <= |LoadOf(hs[i], proto, remote)|
  {
    if i == 0 {
      remote := AddrPort(NoAddr, 0);
    } else {
      remote := PortEconomyExact(ops, hs, proto, i - 1);
      StepPorts(hs[i - 1], ops[i - 1], hs[i], proto);
      if PortsOf(hs[i], proto) <= PortsOf(hs[i - 1], proto) {
        assert LoadOf(hs[i - 1], proto, remote) <= LoadOf(hs[i], proto, remote);
        assert PortsOf(hs[i - 1], proto) <= PortsOf(hs[i], proto);
      } else {
        remote := ops[i - 1].t.remote;
      }
    }
    forall r ensures |LoadOf(hs[i], proto, r)| <= |LoadOf(hs[i], proto, remote)| {
      SubsetCard(LoadOf(hs[i], proto, r), PortsOf(hs[i], proto));
    }
  }
}
