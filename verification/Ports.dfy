/** `ports.Manager` and `ports.Adapter`: sockets that hold local ports, shared between remotes. */
module Ports {
  import opened Net
  import opened AddrSets
  import opened PortPool

  datatype Socket = Socket(proto: u8, port: u16, open: bool, closes: nat)

  /** The operating system's sockets, numbered in order of creation. */
  class Os {
    var sockets: seq<Socket>

    /** The allocator's contract: a non-zero port that no open socket of the protocol holds, and
        never TCP port 443, on which GetPort panics. */
    predicate Offers(proto: u8, reply: Reply)
      reads this
    {
      reply.Refused? ||
      (reply.port != 0 && !(proto == TCP && reply.port == 443) &&
       forall i :: 0 <= i < |sockets| && sockets[i].open && sockets[i].proto == proto
                   ==> sockets[i].port != reply.port)
    }

    constructor ()
      ensures sockets == []
    {
      sockets := [];
    }

    /** The oracle: a refusal, or any port the contract allows. */
    method Ask(proto: u8) returns (reply: Reply)
      ensures Offers(proto, reply)
    {
      var answer: nat :| answer < 3;
      var port: nat :| port < 0x1_0000;
      reply := if answer == 1 then Unfiltered(port) else Bound(port);
      if answer == 0 || !Offers(proto, reply) {
        reply := Refused;
      }
    }

    method Listen(proto: u8, reply: Reply) returns (fd: nat)
      requires !reply.Refused?
      modifies this
      ensures fd == |old(sockets)|
      ensures sockets == old(sockets) + [Socket(proto, reply.port, true, 0)]
    {
      fd := |sockets|;
      sockets := sockets + [Socket(proto, reply.port, true, 0)];
    }

    method Close(fd: nat)
      requires fd < |sockets|
      modifies this
      ensures sockets == old(sockets)[fd := old(sockets)[fd].(open := false, closes := old(sockets)[fd].closes + 1)]
    {
      sockets := sockets[fd := sockets[fd].(open := false, closes := sockets[fd].closes + 1)];
    }
  }

  /** Every socket is closed at most once, and the open ones are those the table names together
      with the strays: sockets left behind when their filter could not be set. */
  ghost predicate SocketsInv(sockets: seq<Socket>, table: map<PortKey, nat>, strays: set<nat>) {
    && (forall fd :: 0 <= fd < |sockets| ==>
          sockets[fd].closes <= 1 && (sockets[fd].open <==> sockets[fd].closes == 0))
    && (forall k :: k in table ==> Backed(sockets, table, k) && table[k] !in strays)
    && (forall fd :: fd in strays ==> fd < |sockets| && sockets[fd].open)
    && (forall fd :: 0 <= fd < |sockets| && sockets[fd].open && fd !in strays ==>
          KeyOf(sockets[fd]) in table && table[KeyOf(sockets[fd])] == fd)
  }

  function KeyOf(s: Socket): PortKey { PortKey(s.proto, s.port) }

  predicate Backed(sockets: seq<Socket>, table: map<PortKey, nat>, k: PortKey)
    requires k in table
  {
    && (k.proto == TCP || k.proto == UDP) && k.port != 0
    && table[k] < |sockets| && sockets[table[k]] == Socket(k.proto, k.port, true, 0)
  }

  lemma ListenKeeps(sockets: seq<Socket>, table: map<PortKey, nat>, strays: set<nat>, proto: u8, port: u16)
    requires SocketsInv(sockets, table, strays) && port != 0 && (proto == TCP || proto == UDP)
    requires forall i :: 0 <= i < |sockets| && sockets[i].open && sockets[i].proto == proto ==> sockets[i].port != port
    ensures PortKey(proto, port) !in table
    ensures var after := sockets + [Socket(proto, port, true, 0)];
            && SocketsInv(after, table[PortKey(proto, port) := |sockets|], strays)
            && SocketsInv(after, table, strays + {|sockets|})
  {
    assert forall k :: k in table ==> Backed(sockets, table, k) && KeyOf(sockets[table[k]]) == k;
    var after := sockets + [Socket(proto, port, true, 0)];
    forall k | k in table ensures Backed(after, table, k) && table[k] != |sockets| {
      assert Backed(sockets, table, k);
    }
    forall fd | 0 <= fd < |after| && after[fd].open && fd !in strays + {|sockets|}
      ensures KeyOf(after[fd]) in table && table[KeyOf(after[fd])] == fd
    {
      assert after[fd] == sockets[fd];
    }
  }

  /** One socket whose filter could not be set, and nothing else: open, in no table, and so closed by
      neither DelPort nor Close. */
  lemma OneStray(proto: u8, port: u16)
    requires port != 0 && (proto == TCP || proto == UDP)
    ensures SocketsInv([Socket(proto, port, true, 0)], map[], {0})
  {
    ListenKeeps([], map[], {}, proto, port);
    assert [] + [Socket(proto, port, true, 0)] == [Socket(proto, port, true, 0)];
    assert {} + {0} == {0 as nat};
  }

  lemma CloseKeeps(sockets: seq<Socket>, table: map<PortKey, nat>, strays: set<nat>, k: PortKey)
    requires SocketsInv(sockets, table, strays) && k in table
    ensures Backed(sockets, table, k)
    ensures SocketsInv(sockets[table[k] := Socket(k.proto, k.port, false, 1)], table - {k}, strays)
  {
    var after := sockets[table[k] := Socket(k.proto, k.port, false, 1)];
    forall j | j in table - {k} ensures Backed(after, table - {k}, j) {
      assert Backed(sockets, table, j) && Backed(sockets, table, k);
    }
  }

  /** table is tcp and udp put together. */
  ghost predicate Match(tcp: map<u16, nat>, udp: map<u16, nat>, table: map<PortKey, nat>) {
    && (forall p :: p in tcp <==> PortKey(TCP, p) in table)
    && (forall p :: p in tcp ==> tcp[p] == table[PortKey(TCP, p)])
    && (forall p :: p in udp <==> PortKey(UDP, p) in table)
    && (forall p :: p in udp ==> udp[p] == table[PortKey(UDP, p)])
  }

  lemma MatchTcp(tcp: map<u16, nat>, udp: map<u16, nat>, table: map<PortKey, nat>, p: u16, fd: nat)
    requires Match(tcp, udp, table)
    ensures Match(tcp[p := fd], udp, table[PortKey(TCP, p) := fd])
    ensures Match(tcp - {p}, udp, table - {PortKey(TCP, p)})
    ensures p in tcp <==> PortKey(TCP, p) in table
    ensures p in tcp ==> tcp[p] == table[PortKey(TCP, p)]
  {
  }

  lemma MatchUdp(tcp: map<u16, nat>, udp: map<u16, nat>, table: map<PortKey, nat>, p: u16, fd: nat)
    requires Match(tcp, udp, table)
    ensures Match(tcp, udp[p := fd], table[PortKey(UDP, p) := fd])
    ensures Match(tcp, udp - {p}, table - {PortKey(UDP, p)})
    ensures p in udp <==> PortKey(UDP, p) in table
    ensures p in udp ==> udp[p] == table[PortKey(UDP, p)]
  {
  }

  class Manager {
    const os: Os
    var tcp: map<u16, nat>
    var udp: map<u16, nat>
    ghost var table: map<PortKey, nat>  // tcp and udp as one table
    ghost var strays: set<nat>

    ghost predicate Valid()
      reads this, os
    {
      SocketsInv(os.sockets, table, strays) && Match(tcp, udp, table)
    }

    constructor (os: Os)
      requires os.sockets == []
      ensures Valid() && this.os == os && table == map[] && strays == {}
    {
      this.os := os;
      tcp, udp, table, strays := map[], map[], map[], {};
    }

    method GetTCPPort() returns (r: Result<u16, PortError>, ghost reply: Reply)
      requires Valid()
      modifies this, os
      ensures Valid() && udp == old(udp)
      ensures match reply
              case Refused => r == Err(ListenFailed) && os.sockets == old(os.sockets)
              case Unfiltered(p) => r == Err(FilterFailed) && os.sockets == old(os.sockets) + [Socket(TCP, p, true, 0)]
              case Bound(p) => (r == Ok(p) && PortKey(TCP, p) !in old(table)
                && os.sockets == old(os.sockets) + [Socket(TCP, p, true, 0)])
      ensures tcp == if r.Ok? then old(tcp)[r.value := |old(os.sockets)|] else old(tcp)
      ensures table == if r.Ok? then old(table)[PortKey(TCP, r.value) := |old(os.sockets)|] else old(table)
      ensures strays == if r == Err(FilterFailed) then old(strays) + {|old(os.sockets)|} else old(strays)
    {
      hide SocketsInv, Match;
      var answer := os.Ask(TCP);
      reply := answer;
      if answer.Refused? {
        return Err(ListenFailed), answer;
      }
      ListenKeeps(os.sockets, table, strays, TCP, answer.port);
      var fd := os.Listen(TCP, answer);
      if answer.Unfiltered? {
        strays := strays + {fd};
        return Err(FilterFailed), answer;
      }
      MatchTcp(tcp, udp, table, answer.port, fd);
      tcp := tcp[answer.port := fd];
      table := table[PortKey(TCP, answer.port) := fd];
      return Ok(answer.port), answer;
    }

    method DelTCPPort(port: u16)
      requires Valid()
      modifies this, os
      ensures Valid() && udp == old(udp) && tcp == old(tcp) - {port}
      ensures table == old(table) - {PortKey(TCP, port)} && strays == old(strays)
      ensures os.sockets == if port in old(tcp)
                            then old(os.sockets)[old(tcp)[port] := Socket(TCP, port, false, 1)]
                            else old(os.sockets)
    {
      hide SocketsInv, Match;
      MatchTcp(tcp, udp, table, port, 0);
      if port in tcp {
        CloseKeeps(os.sockets, table, strays, PortKey(TCP, port));
        var fd := tcp[port];
        tcp := tcp - {port};
        table := table - {PortKey(TCP, port)};
        os.Close(fd);
      }
    }

    method GetUDPPort() returns (r: Result<u16, PortError>, ghost reply: Reply)
      requires Valid()
      modifies this, os
      ensures Valid() && tcp == old(tcp)
      ensures match reply
              case Refused => r == Err(ListenFailed) && os.sockets == old(os.sockets)
              case Unfiltered(p) => r == Err(FilterFailed) && os.sockets == old(os.sockets) + [Socket(UDP, p, true, 0)]
              case Bound(p) => (r == Ok(p) && PortKey(UDP, p) !in old(table)
                && os.sockets == old(os.sockets) + [Socket(UDP, p, true, 0)])
      ensures udp == if r.Ok? then old(udp)[r.value := |old(os.sockets)|] else old(udp)
      ensures table == if r.Ok? then old(table)[PortKey(UDP, r.value) := |old(os.sockets)|] else old(table)
      ensures strays == if r == Err(FilterFailed) then old(strays) + {|old(os.sockets)|} else old(strays)
    {
      hide SocketsInv, Match;
      var answer := os.Ask(UDP);
      reply := answer;
      if answer.Refused? {
        return Err(ListenFailed), answer;
      }
      ListenKeeps(os.sockets, table, strays, UDP, answer.port);
      var fd := os.Listen(UDP, answer);
      if answer.Unfiltered? {
        strays := strays + {fd};
        return Err(FilterFailed), answer;
      }
      MatchUdp(tcp, udp, table, answer.port, fd);
      udp := udp[answer.port := fd];
      table := table[PortKey(UDP, answer.port) := fd];
      return Ok(answer.port), answer;
    }

    method DelUDPPort(port: u16)
      requires Valid()
      modifies this, os
      ensures Valid() && tcp == old(tcp) && udp == old(udp) - {port}
      ensures table == old(table) - {PortKey(UDP, port)} && strays == old(strays)
      ensures os.sockets == if port in old(udp)
                            then old(os.sockets)[old(udp)[port] := Socket(UDP, port, false, 1)]
                            else old(os.sockets)
    {
      hide SocketsInv, Match;
      MatchUdp(tcp, udp, table, port, 0);
      if port in udp {
        CloseKeeps(os.sockets, table, strays, PortKey(UDP, port));
        var fd := udp[port];
        udp := udp - {port};
        table := table - {PortKey(UDP, port)};
        os.Close(fd);
      }
    }
  }

  class Adapter {
    const mgr: Manager
    var ports: map<PortKey, AddrSet>
    ghost var held: Held  // the table as a value
    ghost var sets: set<AddrSet>  // every address set the table refers to

    ghost function Repr(): set<object>
      reads this
    {
      {this, mgr, mgr.os} + sets
    }

    /** Keys and open sockets coincide, and no address set is empty or shared. */
    ghost predicate Valid()
      reads this, mgr, mgr.os, sets
    {
      SetsValid() && KeysValid() && NonEmpty(held)
    }

    ghost predicate SetsValid()
      reads this, sets
    {
      && held.Keys == ports.Keys
      && (forall k :: k in ports ==> ports[k] in sets && ports[k].Valid() && ports[k].Elems() == held[k])
      && (forall j, k :: j in ports && k in ports && ports[j] == ports[k] ==> j == k)
    }

    ghost predicate KeysValid()
      reads this, mgr, mgr.os
    {
      mgr.Valid() && ports.Keys == mgr.table.Keys
    }

    constructor (os: Os)
      requires os.sockets == []
      ensures Valid() && held == map[] && fresh(Repr() - {os}) && mgr.os == os
    {
      mgr := new Manager(os);
      ports, held, sets := map[], map[], {};
    }

    /** One pass over the table in the arbitrary order of Go's map iteration. */
    method FindReusable(proto: u8, remote: AddrPort) returns (port: u16)
      requires Valid()
      ensures AnyReusable(held, proto, remote)
              ==> Reusable(held, proto, remote, PortKey(proto, port)) && port != 0
      ensures !AnyReusable(held, proto, remote) ==> port == 0
    {
      port := 0;
      var keys := ports.Keys;
      while keys != {}
        invariant keys <= ports.Keys && port == 0
        invariant forall k :: k in ports && k !in keys ==> !Reusable(held, proto, remote, k)
        decreases |keys|
      {
        var k :| k in keys;
        keys := keys - {k};
        if k.proto == proto {
          var has := ports[k].Has(remote);
          if !has {
            assert k == PortKey(proto, k.port) && Reusable(held, proto, remote, k);
            return k.port;
          }
        }
      }
    }

    method GetPort(proto: u8, remote: AddrPort) returns (r: Result<u16, PortError>, ghost reply: Reply)
      requires Valid()
      modifies this, mgr, mgr.os, sets
      ensures Valid() && forall s :: s in sets && s !in old(sets) ==> fresh(s)
      ensures Outcome(old(held), proto, remote, reply, r)
      ensures held == if r.Ok? then Take(old(held), Triple(proto, r.value, remote)) else old(held)
      ensures mgr.strays == old(mgr.strays) + (if r == Err(FilterFailed) then {|old(mgr.os.sockets)|} else {})
    {
      hide SocketsInv, SetsValid, Outcome, NonEmpty, Take, Manager.Valid;
      r, reply := Choose(proto, remote);
      if r.Err? {
        return;
      }
      Reserve(PortKey(proto, r.value), remote);
      TakeHas(old(held), Triple(proto, r.value, remote));
    }

    /** Everything GetPort does before it locks the table. */
    method Choose(proto: u8, remote: AddrPort) returns (r: Result<u16, PortError>, ghost reply: Reply)
      requires Valid()
      modifies mgr, mgr.os
      ensures mgr.Valid() && Outcome(held, proto, remote, reply, r)
      ensures mgr.table.Keys == ports.Keys + (if r.Ok? then {PortKey(proto, r.value)} else {})
      ensures mgr.strays == old(mgr.strays) + (if r == Err(FilterFailed) then {|old(mgr.os.sockets)|} else {})
    {
      if !remote.IsValid() {
        return Err(InvalidRemote), Refused;
      }
      var port := FindReusable(proto, remote);
      if port == 0 {
        r, reply := Alloc(proto);
      } else {
        r, reply := Ok(port), Refused;
      }
    }

    method Alloc(proto: u8) returns (r: Result<u16, PortError>, ghost reply: Reply)
      requires KeysValid()
      modifies mgr, mgr.os
      ensures mgr.Valid()
      ensures mgr.table.Keys == if r.Ok? then ports.Keys + {PortKey(proto, r.value)} else ports.Keys
      ensures if proto != TCP && proto != UDP then r == Err(UnknownProtocol)
              else match reply
                case Refused => r == Err(ListenFailed)
                case Unfiltered(_) => r == Err(FilterFailed)
                case Bound(p) => r == Ok(p) && PortKey(proto, p) !in ports && p != 0
      ensures mgr.strays == old(mgr.strays) + (if r == Err(FilterFailed) then {|old(mgr.os.sockets)|} else {})
    {
      if proto == TCP {
        r, reply := mgr.GetTCPPort();
      } else if proto == UDP {
        r, reply := mgr.GetUDPPort();
      } else {
        r, reply := Err(UnknownProtocol), Refused;
      }
    }

    method Free(k: PortKey)
      requires mgr.Valid() && (k.proto == TCP || k.proto == UDP)
      modifies mgr, mgr.os
      ensures mgr.Valid() && mgr.table.Keys == old(mgr.table).Keys - {k} && mgr.strays == old(mgr.strays)
    {
      if k.proto == TCP {
        mgr.DelTCPPort(k.port);
      } else {
        mgr.DelUDPPort(k.port);
      }
    }

    /** The locked table update of GetPort. */
    method Reserve(pk: PortKey, remote: AddrPort)
      requires SetsValid()
      modifies this, sets
      ensures SetsValid() && ports.Keys == old(ports).Keys + {pk}
      ensures (forall s :: s in sets && s !in old(sets) ==> fresh(s))
      ensures held == Take(old(held), Triple(pk.proto, pk.port, remote))
    {
      ghost var after := Take(held, Triple(pk.proto, pk.port, remote));
      if pk !in ports {
        TakeFresh(held, Triple(pk.proto, pk.port, remote));
        Insert(pk);
      }
      ports[pk].Add(remote);
      held := after;
    }

    method Insert(pk: PortKey)
      requires SetsValid() && pk !in ports
      modifies this
      ensures SetsValid() && ports.Keys == old(ports).Keys + {pk}
      ensures (forall s :: s in sets && s !in old(sets) ==> fresh(s))
      ensures held == old(held)[pk := {}]
    {
      var addrs := new AddrSet();
      ports := ports[pk := addrs];
      sets := sets + {addrs};
      held := held[pk := {}];
    }

    /** The locked table update of DelPort. */
    method Release(pk: PortKey, remote: AddrPort) returns (notuse: bool)
      requires SetsValid() && pk in ports
      modifies this, sets
      ensures SetsValid() && sets == old(sets)
      ensures ports.Keys == if notuse then old(ports).Keys - {pk} else old(ports).Keys
      ensures held == Drop(old(held), Triple(pk.proto, pk.port, remote))
    {
      ports[pk].Del(remote);
      var n := ports[pk].Len();
      notuse := n == 0;
      held := Drop(held, Triple(pk.proto, pk.port, remote));
      if notuse {
        ports := ports - {pk};
      }
    }

    /** DelPort dereferences the entry, so the key has to be there. */
    method DelPort(proto: u8, port: u16, remote: AddrPort)
      requires Valid() && PortKey(proto, port) in ports
      modifies this, mgr, mgr.os, sets
      ensures Valid() && sets == old(sets)
      ensures held == Drop(old(held), Triple(proto, port, remote))
      ensures mgr.strays == old(mgr.strays)
    {
      hide SocketsInv, Manager.Valid, SetsValid, NonEmpty, Drop;
      var pk := PortKey(proto, port);
      DropHas(held, Triple(proto, port, remote));
      TableProto(pk);
      var notuse := Release(pk, remote);
      if notuse {
        Free(pk);
      }
    }

    lemma TableProto(k: PortKey)
      requires mgr.Valid() && k in mgr.table
      ensures k.proto == TCP || k.proto == UDP
    {
      assert Backed(mgr.os.sockets, mgr.table, k);
    }

    method FreeAll()
      requires KeysValid()
      modifies mgr, mgr.os
      ensures mgr.Valid() && mgr.table == map[] && mgr.strays == old(mgr.strays)
    {
      hide Manager.Valid;
      var keys := ports.Keys;
      while keys != {}
        invariant mgr.Valid() && mgr.strays == old(mgr.strays)
        invariant keys == mgr.table.Keys
        decreases |keys|
      {
        var k :| k in keys;
        TableProto(k);
        keys := keys - {k};
        Free(k);
      }
    }

    /** Closes every tracked socket; what stays open are exactly the sockets whose filter failed. */
    method Close()
      requires Valid()
      modifies this, mgr, mgr.os, sets
      ensures Valid() && held == map[]
      ensures forall fd :: 0 <= fd < |mgr.os.sockets| ==> (mgr.os.sockets[fd].open <==> fd in old(mgr.strays))
    {
      FreeAll();
      ports, held := map[], map[];
    }
  }
}
