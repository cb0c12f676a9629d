/** The classic BPF program `bpfFilterProtoAndSkipLocalTCPPorts` generates, and a machine to run it. */
module Bpf {
  import opened Net

  datatype Ins =
    | LoadAbsolute(off: nat, size: nat)
    | LoadIndirect(off: nat, size: nat)
    | LoadMemShift(off: nat)
    | JumpIfNotEqual(val: u32, skipTrue: u8)
    | RetConstant(val: u32)

  /** Big-endian bytes, or None past the end of the packet. */
  function Load(pkt: seq<u8>, off: nat, size: nat): Option<nat> {
    if off + size > |pkt| then None
    else if size == 1 then Some(pkt[off])
    else if size == 2 then Some(256 * pkt[off] as int + pkt[off + 1])
    else None
  }

  /** What a run returns; Outside means a jump left the program. */
  datatype Outcome = Ret(val: u32) | Outside

  /** Runs from pc with accumulator a and index register x; a load out of bounds returns 0. */
  function Run(prog: seq<Ins>, pkt: seq<u8>, pc: nat, a: nat, x: nat): Outcome
    decreases |prog| - pc
  {
    if pc >= |prog| then Outside
    else match prog[pc]
      case LoadAbsolute(off, size) =>
        (match Load(pkt, off, size)
         case None => Ret(0)
         case Some(v) => Run(prog, pkt, pc + 1, v, x))
      case LoadIndirect(off, size) =>
        (match Load(pkt, x + off, size)
         case None => Ret(0)
         case Some(v) => Run(prog, pkt, pc + 1, v, x))
      case LoadMemShift(off) =>
        (match Load(pkt, off, 1)
         case None => Ret(0)
         case Some(v) => Run(prog, pkt, pc + 1, a, v % 16 * 4))
      case JumpIfNotEqual(val, skip) =>
        Run(prog, pkt, if a != val then pc + 1 + skip else pc + 1, a, x)
      case RetConstant(val) => Ret(val)
  }

  /** Instructions executed. */
  function Steps(prog: seq<Ins>, pkt: seq<u8>, pc: nat, a: nat, x: nat): (n: nat)
    ensures pc <= |prog| ==> n <= |prog| - pc
    decreases |prog| - pc
  {
    if pc >= |prog| then 0
    else match prog[pc]
      case LoadAbsolute(off, size) =>
        (match Load(pkt, off, size)
         case None => 1
         case Some(v) => 1 + Steps(prog, pkt, pc + 1, v, x))
      case LoadIndirect(off, size) =>
        (match Load(pkt, x + off, size)
         case None => 1
         case Some(v) => 1 + Steps(prog, pkt, pc + 1, v, x))
      case LoadMemShift(off) =>
        (match Load(pkt, off, 1)
         case None => 1
         case Some(v) => 1 + Steps(prog, pkt, pc + 1, a, v % 16 * 4))
      case JumpIfNotEqual(val, skip) =>
        1 + Steps(prog, pkt, if a != val then pc + 1 + skip else pc + 1, a, x)
      case RetConstant(_) => 1
  }

  // The generator

  predicate Ascending(s: seq<u16>) {
    forall i, j :: 0 <= i < j < |s| ==> s[i] < s[j]
  }

  /** `slices.Sort` followed by `slices.Compact`. */
  function Distinct(s: seq<u16>): (r: seq<u16>)
    ensures Ascending(r)
    ensures forall p :: p in r <==> p in s
  {
    if s == [] then [] else
      var rest := Distinct(s[1..]);
      assert s == [s[0]] + s[1..];
      Place(s[0], rest)
  }

  function Place(p: u16, s: seq<u16>): (r: seq<u16>)
    requires Ascending(s)
    ensures Ascending(r)
    ensures forall q :: q in r <==> q == p || q in s
  {
    if s == [] || p < s[0] then [p] + s
    else if p == s[0] then s
    else
      assert s == [s[0]] + s[1..];
      var rest := Place(p, s[1..]);
      forall q | q in rest ensures s[0] < q {
        assert q == p || exists k :: 0 <= k < |s[1..]| && s[1..][k] == q == s[k + 1];
      }
      assert forall i :: 0 <= i < |rest| ==> rest[i] in rest;
      [s[0]] + rest
  }

  /** The three instructions per port. */
  function Checks(ports: seq<u16>): (r: seq<Ins>)
    ensures |r| == 3 * |ports|
  {
    seq(3 * |ports|, i requires 0 <= i < 3 * |ports| =>
      if i % 3 == 0 then LoadIndirect(2, 2)
      else if i % 3 == 1 then JumpIfNotEqual(ports[i / 3], 1)
      else RetConstant(0))
  }

  const PASS: u32 := 0xFFFF

  /** The skip over the rest of a block of k ports, as the `uint8` that is stored. */
  function Skip(k: nat): u8 { (3 * k + 2) % 256 }

  /** One protocol's block; the skip over it is the block length cut to eight bits. */
  function Block(proto: u8, ports: seq<u16>): (r: seq<Ins>)
    ensures |r| == 3 * |ports| + 4
  {
    [LoadAbsolute(9, 1), JumpIfNotEqual(proto, Skip(|ports|)), LoadMemShift(0)]
    + Checks(ports) + [RetConstant(PASS)]
  }

  function Program(tcp: seq<u16>, udp: seq<u16>): seq<Ins> {
    Block(TCP, tcp) + Block(UDP, udp) + [RetConstant(0)]
  }

  lemma ChecksExtend(ports: seq<u16>, j: nat)
    requires j < |ports|
    ensures Checks(ports[..j + 1])
            == Checks(ports[..j]) + [LoadIndirect(2, 2), JumpIfNotEqual(ports[j], 1), RetConstant(0)]
  {
  }

  /** `bpfSkipPorts`. */
  method SkipPorts(proto: u8, list: seq<u16>) returns (ins: seq<Ins>)
    ensures ins == Block(proto, Distinct(list))
  {
    var ports := Distinct(list);
    var skipIns := [LoadMemShift(0)];
    for j := 0 to |ports|
      invariant skipIns == [LoadMemShift(0)] + Checks(ports[..j])
    {
      ChecksExtend(ports, j);
      skipIns := skipIns + [LoadIndirect(2, 2), JumpIfNotEqual(ports[j], 1), RetConstant(0)];
    }
    assert ports[..|ports|] == ports;
    skipIns := skipIns + [RetConstant(PASS)];
    ins := [LoadAbsolute(9, 1), JumpIfNotEqual(proto, |skipIns| % 256)] + skipIns;
  }

  method Generate(tcp: seq<u16>, udp: seq<u16>) returns (ins: seq<Ins>)
    ensures ins == Program(Distinct(tcp), Distinct(udp))
  {
    var t := SkipPorts(TCP, tcp);
    var u := SkipPorts(UDP, udp);
    ins := t + u + [RetConstant(0)];
  }

  // What the filter is for

  function DstPort(pkt: seq<u8>, x: nat): u16
    requires x + 4 <= |pkt|
  {
    256 * (pkt[x + 2] as int) + pkt[x + 3] as int
  }

  /** A packet passes a port list when the list is empty, or its destination port can be read and is
      not listed. */
  predicate Clear(ports: seq<u16>, pkt: seq<u8>, x: nat) {
    ports == [] || (x + 4 <= |pkt| && DstPort(pkt, x) !in ports)
  }

  predicate Wanted(tcp: seq<u16>, udp: seq<u16>, pkt: seq<u8>) {
    && |pkt| >= 10
    && ((pkt[9] == TCP && Clear(tcp, pkt, HeaderLen(pkt))) || (pkt[9] == UDP && Clear(udp, pkt, HeaderLen(pkt))))
  }

  function Verdict(pass: bool): Outcome { Ret(if pass then PASS else 0) }

  ghost predicate Correct(tcp: seq<u16>, udp: seq<u16>) {
    forall pkt :: Run(Program(tcp, udp), pkt, 0, 0, 0) == Verdict(Wanted(tcp, udp, pkt))
  }

  // Running one block

  /** The block stands at b in the program. */
  predicate Stands(prog: seq<Ins>, b: nat, proto: u8, ports: seq<u16>) {
    b + 3 * |ports| + 4 <= |prog| && prog[b..b + 3 * |ports| + 4] == Block(proto, ports)
  }

  lemma BlockAt(prog: seq<Ins>, b: nat, proto: u8, ports: seq<u16>, i: nat)
    requires Stands(prog, b, proto, ports) && i < 3 * |ports| + 4
    ensures prog[b + i] == Block(proto, ports)[i]
  {
    assert prog[b + i] == prog[b..b + 3 * |ports| + 4][i];
  }

  lemma CheckAt(prog: seq<Ins>, b: nat, proto: u8, ports: seq<u16>, j: nat)
    requires Stands(prog, b, proto, ports) && j < |ports|
    ensures prog[b + 3 + 3 * j] == LoadIndirect(2, 2)
    ensures prog[b + 4 + 3 * j] == JumpIfNotEqual(ports[j], 1)
    ensures prog[b + 5 + 3 * j] == RetConstant(0)
  {
    BlockAt(prog, b, proto, ports, 3 + 3 * j);
    BlockAt(prog, b, proto, ports, 4 + 3 * j);
    BlockAt(prog, b, proto, ports, 5 + 3 * j);
    assert Checks(ports)[3 * j] == LoadIndirect(2, 2);
    assert Checks(ports)[3 * j + 1] == JumpIfNotEqual(ports[j], 1);
    assert Checks(ports)[3 * j + 2] == RetConstant(0);
  }

  /** From the j-th check the block tests the remaining ports, whatever x is. */
  lemma {:induction false} RunChecks(prog: seq<Ins>, b: nat, proto: u8, ports: seq<u16>, j: nat,
                                     pkt: seq<u8>, a: nat, x: nat)
    requires Stands(prog, b, proto, ports) && j <= |ports|
    ensures Run(prog, pkt, b + 3 + 3 * j, a, x) == Verdict(Clear(ports[j..], pkt, x))
    decreases |ports| - j
  {
    hide Checks, Block;
    if j == |ports| {
      LastAt(prog, b, proto, ports);
    } else {
      CheckAt(prog, b, proto, ports, j);
      if x + 4 <= |pkt| {
        var v := DstPort(pkt, x);
        RunChecks(prog, b, proto, ports, j + 1, pkt, v, x);
        assert ports[j..] == [ports[j]] + ports[j + 1..];
        assert Run(prog, pkt, b + 4 + 3 * j, v, x)
               == if v == ports[j] then Ret(0) else Run(prog, pkt, b + 6 + 3 * j, v, x);
      }
    }
  }

  lemma LastAt(prog: seq<Ins>, b: nat, proto: u8, ports: seq<u16>)
    requires Stands(prog, b, proto, ports)
    ensures prog[b + 3 + 3 * |ports|] == RetConstant(PASS)
  {
    BlockAt(prog, b, proto, ports, 3 + 3 * |ports|);
  }

  lemma HeadAt(prog: seq<Ins>, b: nat, proto: u8, ports: seq<u16>)
    requires Stands(prog, b, proto, ports)
    ensures b + 3 < |prog| && prog[b] == LoadAbsolute(9, 1) && prog[b + 2] == LoadMemShift(0)
    ensures prog[b + 1] == JumpIfNotEqual(proto, Skip(|ports|))
  {
    BlockAt(prog, b, proto, ports, 0);
    BlockAt(prog, b, proto, ports, 1);
    BlockAt(prog, b, proto, ports, 2);
  }

  /** A block decides its own protocol and jumps for any other. */
  lemma RunBlock(prog: seq<Ins>, b: nat, proto: u8, ports: seq<u16>, pkt: seq<u8>, a: nat, x: nat)
    requires Stands(prog, b, proto, ports)
    ensures Run(prog, pkt, b, a, x)
            == if |pkt| < 10 then Ret(0)
               else if pkt[9] == proto then Verdict(Clear(ports, pkt, HeaderLen(pkt)))
               else Run(prog, pkt, b + 2 + Skip(|ports|), pkt[9], x)
  {
    hide Checks, Block, Stands;
    HeadAt(prog, b, proto, ports);
    if |pkt| >= 10 {
      RunMemShift(prog, b, proto, ports, pkt, pkt[9], x);
      assert Run(prog, pkt, b, a, x) == Run(prog, pkt, b + 1, pkt[9], x);
    }
  }

  lemma RunMemShift(prog: seq<Ins>, b: nat, proto: u8, ports: seq<u16>, pkt: seq<u8>, a: nat, x: nat)
    requires Stands(prog, b, proto, ports) && |pkt| > 0
    ensures Run(prog, pkt, b + 2, a, x) == Verdict(Clear(ports, pkt, HeaderLen(pkt)))
  {
    hide Checks, Block, Stands;
    HeadAt(prog, b, proto, ports);
    RunChecks(prog, b, proto, ports, 0, pkt, a, HeaderLen(pkt));
    assert ports[0..] == ports;
  }

  // Cut skips

  /** Eighty-four is the largest count whose skip is the block's length. */
  lemma SkipIsExact(k: nat)
    ensures Skip(k) == 3 * k + 2 <==> k <= 84
  {
  }

  /** The cut skip of a longer block ends on one of its own `RetConstant{0}`. */
  predicate LandsOnDrop(k: nat) { k > 84 && Skip(k) % 3 == 0 && Skip(k) != 0 }

  /** What a packet of another protocol meets inside a block whose skip was cut. */
  lemma RunLanding(prog: seq<Ins>, b: nat, proto: u8, ports: seq<u16>, pkt: seq<u8>, a: nat, x: nat)
    requires Stands(prog, b, proto, ports) && |ports| > 84 && |pkt| > 0
    ensures var s := Skip(|ports|);
            Run(prog, pkt, b + 2 + s, a, x)
            == if s == 0 then Verdict(Clear(ports, pkt, HeaderLen(pkt)))
               else if s % 3 == 0 then Ret(0)
               else if s % 3 == 1 then Verdict(Clear(ports[s / 3..], pkt, x))
               else if a == ports[s / 3] then Ret(0)
               else Verdict(Clear(ports[s / 3 + 1..], pkt, x))
  {
    hide Checks, Block, Stands, Clear, Load;
    var s := Skip(|ports|);
    if s == 0 {
      RunMemShift(prog, b, proto, ports, pkt, a, x);
    } else if s % 3 == 0 {
      InsideAt(prog, b, proto, ports, s / 3 - 1);
      assert b + 5 + 3 * (s / 3 - 1) == b + 2 + s;
    } else if s % 3 == 1 {
      assert b + 3 + 3 * (s / 3) == b + 2 + s;
      RunChecks(prog, b, proto, ports, s / 3, pkt, a, x);
    } else {
      assert b + 4 + 3 * (s / 3) == b + 2 + s;
      InsideAt(prog, b, proto, ports, s / 3);
      RunChecks(prog, b, proto, ports, s / 3 + 1, pkt, a, x);
    }
  }

  lemma InsideAt(prog: seq<Ins>, b: nat, proto: u8, ports: seq<u16>, j: nat)
    requires Stands(prog, b, proto, ports) && j < |ports|
    ensures b + 6 + 3 * j < |prog|
    ensures prog[b + 4 + 3 * j] == JumpIfNotEqual(ports[j], 1) && prog[b + 5 + 3 * j] == RetConstant(0)
  {
    CheckAt(prog, b, proto, ports, j);
  }

  lemma {:induction false} AtLeastIndex(ports: seq<u16>, i: nat)
    requires Ascending(ports) && i < |ports|
    ensures i <= ports[i]
  {
    if i > 0 {
      AtLeastIndex(ports, i - 1);
    }
  }

  lemma {:induction false} Unused(ports: seq<u16>, j: nat) returns (w: u16)
    requires Ascending(ports) && |ports| < 0x1_0000 && j <= |ports|
    requires forall i :: 0 <= i < j ==> ports[i] == i
    ensures w !in ports
    decreases |ports| - j
  {
    if j < |ports| {
      AtLeastIndex(ports, j);
    }
    if j == |ports| || ports[j] != j {
      w := j;
    } else {
      w := Unused(ports, j + 1);
    }
  }

  /** A list is a set of ports, so it holds at most 65536, and then holds them all. */
  lemma AllUsed(ports: seq<u16>, w: u16)
    requires Ascending(ports)
    ensures |ports| <= 0x1_0000
    ensures |ports| == 0x1_0000 ==> w in ports
  {
    if |ports| > 0 {
      AtLeastIndex(ports, |ports| - 1);
    }
    if |ports| == 0x1_0000 {
      AtLeastIndex(ports, w);
      AtMostIndex(ports, w);
      assert ports[w] == w;
    }
  }

  lemma {:induction false} AtMostIndex(ports: seq<u16>, i: nat)
    requires Ascending(ports) && |ports| == 0x1_0000 && i < |ports|
    ensures ports[i] <= i
    decreases |ports| - i
  {
    if i + 1 < |ports| {
      AtMostIndex(ports, i + 1);
    }
  }

  /** The shortest packet that shows a protocol and, with a header length of zero, a port. */
  function Mini(p: u8, w: u16): (r: seq<u8>)
    ensures |r| == 10 && r[9] == p && HeaderLen(r) == 0 && DstPort(r, 0) == w
  {
    [0, 0, w / 256, w % 256, 0, 0, 0, 0, 0, p]
  }

  /** Unless the cut skip lands on a drop, some packet that is neither TCP nor UDP gets through. */
  lemma Leak(prog: seq<Ins>, b: nat, proto: u8, ports: seq<u16>) returns (p: u8, w: u16)
    requires Stands(prog, b, proto, ports) && Ascending(ports) && |ports| > 84 && !LandsOnDrop(|ports|)
    ensures p != TCP && p != UDP && Run(prog, Mini(p, w), b + 2 + Skip(|ports|), p, 0) == Ret(PASS)
  {
    hide Checks, Block, Stands, Run, Mini;
    var s := Skip(|ports|);
    AllUsed(ports, 0);
    p := 0;
    if s % 3 == 2 {
      w := ports[s / 3];
      p := if w == 0 then 1 else 0;
      assert forall i :: s / 3 + 1 <= i < |ports| ==> ports[i] > w;
      assert w !in ports[s / 3 + 1..];
    } else {
      assert |ports| != 0x1_0000;
      w := Unused(ports, 0);
    }
    RunLanding(prog, b, proto, ports, Mini(p, w), p, 0);
  }

  // The whole program

  lemma ProgramStands(tcp: seq<u16>, udp: seq<u16>)
    ensures var prog := Program(tcp, udp);
            && Stands(prog, 0, TCP, tcp) && Stands(prog, 3 * |tcp| + 4, UDP, udp)
            && |prog| == 3 * |tcp| + 3 * |udp| + 9 && prog[|prog| - 1] == RetConstant(0)
  {
    hide Block;
  }

  lemma RunProgram(tcp: seq<u16>, udp: seq<u16>, pkt: seq<u8>)
    ensures var prog := Program(tcp, udp);
            var u := 3 * |tcp| + 4;
            Run(prog, pkt, 0, 0, 0)
            == if |pkt| < 10 then Ret(0)
               else if pkt[9] == TCP then Verdict(Clear(tcp, pkt, HeaderLen(pkt)))
               else if |tcp| > 84 then Run(prog, pkt, 2 + Skip(|tcp|), pkt[9], 0)
               else if pkt[9] == UDP then Verdict(Clear(udp, pkt, HeaderLen(pkt)))
               else if |udp| > 84 then Run(prog, pkt, u + 2 + Skip(|udp|), pkt[9], 0)
               else Ret(0)
  {
    hide Block, Checks, Clear, Stands, Skip, Program;
    var prog := Program(tcp, udp);
    var u := 3 * |tcp| + 4;
    ProgramStands(tcp, udp);
    SkipIsExact(|tcp|);
    SkipIsExact(|udp|);
    RunBlock(prog, 0, TCP, tcp, pkt, 0, 0);
    if |pkt| >= 10 {
      RunBlock(prog, u, UDP, udp, pkt, pkt[9], 0);
    }
  }

  /** The skip counts for which the program is right. */
  predicate Sound(k1: nat, k2: nat) {
    || (k1 <= 84 && (k2 <= 84 || LandsOnDrop(k2)))
    || (LandsOnDrop(k1) && k2 == 0x1_0000)
  }

  lemma FilterSound(tcp: seq<u16>, udp: seq<u16>, pkt: seq<u8>)
    requires Ascending(tcp) && Ascending(udp) && Sound(|tcp|, |udp|)
    ensures Run(Program(tcp, udp), pkt, 0, 0, 0) == Verdict(Wanted(tcp, udp, pkt))
  {
    hide Block, Checks, Stands, Run, Program, Skip, Load, Ascending;
    RunProgram(tcp, udp, pkt);
    ProgramStands(tcp, udp);
    if |pkt| >= 10 && pkt[9] != TCP {
      if |tcp| > 84 {
        RunLanding(Program(tcp, udp), 0, TCP, tcp, pkt, pkt[9], 0);
        if HeaderLen(pkt) + 4 <= |pkt| {
          AllUsed(udp, DstPort(pkt, HeaderLen(pkt)));
        }
      } else if pkt[9] != UDP && |udp| > 84 {
        RunLanding(Program(tcp, udp), 3 * |tcp| + 4, UDP, udp, pkt, pkt[9], 0);
      }
    }
  }

  lemma FilterUnsound(tcp: seq<u16>, udp: seq<u16>) returns (pkt: seq<u8>)
    requires Ascending(tcp) && Ascending(udp) && !Sound(|tcp|, |udp|)
    ensures Run(Program(tcp, udp), pkt, 0, 0, 0) != Verdict(Wanted(tcp, udp, pkt))
  {
    hide Block, Checks, Stands, Run, Program, Skip, Load, Mini, Ascending;
    ProgramStands(tcp, udp);
    var p, w := UDP, 0;
    if |tcp| <= 84 {
      p, w := Leak(Program(tcp, udp), 3 * |tcp| + 4, UDP, udp);
    } else if !LandsOnDrop(|tcp|) {
      p, w := Leak(Program(tcp, udp), 0, TCP, tcp);
    } else {
      AllUsed(udp, 0);
      w := Unused(udp, 0);
      RunLanding(Program(tcp, udp), 0, TCP, tcp, Mini(p, w), p, 0);
    }
    pkt := Mini(p, w);
    RunProgram(tcp, udp, pkt);
  }

  /** The filter decides every packet as intended if and only if neither list's skip is cut harmfully. */
  lemma FilterExact(tcp: seq<u16>, udp: seq<u16>)
    ensures var t, u := Distinct(tcp), Distinct(udp);
            Correct(t, u) <==> Sound(|t|, |u|)
  {
    hide Wanted, Run, Program, Skip, Sound, Ascending;
    var t, u := Distinct(tcp), Distinct(udp);
    if Sound(|t|, |u|) {
      forall pkt ensures Run(Program(t, u), pkt, 0, 0, 0) == Verdict(Wanted(t, u, pkt)) {
        FilterSound(t, u, pkt);
      }
    } else {
      var pkt := FilterUnsound(t, u);
    }
  }

  /** Up to 84 distinct ports in each list are always right; repeats do not count. */
  lemma FilterCorrect(tcp: seq<u16>, udp: seq<u16>)
    requires |Distinct(tcp)| <= 84 && |Distinct(udp)| <= 84
    ensures Correct(Distinct(tcp), Distinct(udp))
  {
    FilterExact(tcp, udp);
  }

  /** What the generated program answers, in numbers: from the lists as given, for any packet, when neither names
      more than 84 different ports. */
  lemma FilterMeans(tcp: seq<u16>, udp: seq<u16>, pkt: seq<u8>)
    requires |set p | p in tcp| <= 84 && |set p | p in udp| <= 84
    ensures Run(Program(Distinct(tcp), Distinct(udp)), pkt, 0, 0, 0)
            == Ret(if |pkt| >= 10 && ((pkt[9] == 6 && Passes(tcp, pkt)) || (pkt[9] == 17 && Passes(udp, pkt)))
                   then 65535 else 0)
  {
    hide Program, Run, Passes, Clear;
    DistinctCount(tcp);
    DistinctCount(udp);
    FilterCorrect(tcp, udp);
    assert Run(Program(Distinct(tcp), Distinct(udp)), pkt, 0, 0, 0)
           == Verdict(Wanted(Distinct(tcp), Distinct(udp), pkt));
    if |pkt| >= 10 {
      PassesClear(tcp, pkt);
      PassesClear(udp, pkt);
    }
  }

  /** The list is empty, or the destination port behind the IPv4 header is in the packet and not in the list. */
  predicate Passes(ports: seq<u16>, pkt: seq<u8>)
    requires |pkt| > 0
  {
    var h := 4 * (pkt[0] as int % 16);
    ports == [] || (h + 4 <= |pkt| && 256 * pkt[h + 2] as int + pkt[h + 3] as int !in ports)
  }

  lemma PassesClear(ports: seq<u16>, pkt: seq<u8>)
    requires |pkt| > 0
    ensures Passes(ports, pkt) <==> Clear(Distinct(ports), pkt, HeaderLen(pkt))
  {
    hide Distinct, Ascending;
    assert Distinct(ports) == [] <==> ports == [] by { DistinctEmpty(ports); }
    assert forall p :: p in Distinct(ports) <==> p in ports;
  }

  lemma DistinctEmpty(ports: seq<u16>)
    ensures Distinct(ports) == [] <==> ports == []
  {
    assert ports != [] ==> ports[0] in Distinct(ports);
    assert Distinct(ports) != [] ==> Distinct(ports)[0] in ports;
  }

  function SetOf(s: seq<u16>): set<u16> { set p | p in s }

  lemma SetOfLast(s: seq<u16>)
    requires Ascending(s) && s != []
    ensures SetOf(s) == SetOf(s[..|s| - 1]) + {s[|s| - 1]} && s[|s| - 1] !in SetOf(s[..|s| - 1])
  {
    var t := s[..|s| - 1];
    assert s == t + [s[|s| - 1]];
    assert forall i :: 0 <= i < |t| ==> t[i] == s[i] < s[|s| - 1];
  }

  lemma {:induction false} AscendingCount(s: seq<u16>)
    requires Ascending(s)
    ensures |SetOf(s)| == |s|
  {
    hide SetOf;
    if s == [] {
      assert SetOf(s) == {} by { NoneIn(s); }
    } else {
      SetOfLast(s);
      AscendingCount(s[..|s| - 1]);
    }
  }

  lemma NoneIn(s: seq<u16>)
    requires s == []
    ensures SetOf(s) == {}
  {
  }

  lemma DistinctCount(ports: seq<u16>)
    ensures |Distinct(ports)| == |set p | p in ports|
  {
    AscendingCount(Distinct(ports));
    assert SetOf(Distinct(ports)) == set p | p in ports;
  }

  // Shape

  lemma {:induction false} AscendingUnique(a: seq<u16>, b: seq<u16>)
    requires Ascending(a) && Ascending(b) && forall p :: p in a <==> p in b
    ensures a == b
  {
    assert a != [] ==> a[0] in b;
    assert b != [] ==> b[0] in a;
    if a != [] && b != [] {
      assert a[0] == b[0];
      forall p ensures p in a[1..] <==> p in b[1..] {
        assert p in a[1..] <==> p in a && p != a[0] by { Rest(a, p); }
        assert p in b[1..] <==> p in b && p != b[0] by { Rest(b, p); }
      }
      AscendingUnique(a[1..], b[1..]);
      assert a == [a[0]] + a[1..] && b == [b[0]] + b[1..];
    }
  }

  lemma Rest(s: seq<u16>, p: u16)
    requires Ascending(s) && s != []
    ensures p in s[1..] <==> p in s && p != s[0]
  {
    assert s == [s[0]] + s[1..];
    assert forall i :: 0 <= i < |s[1..]| ==> s[1..][i] == s[i + 1] > s[0];
  }

  /** The program depends on the sets of ports alone, not on order or repeats. */
  lemma SameSetsSameProgram(tcp: seq<u16>, tcp': seq<u16>, udp: seq<u16>, udp': seq<u16>)
    requires forall p :: (p in tcp <==> p in tcp') && (p in udp <==> p in udp')
    ensures Program(Distinct(tcp), Distinct(udp)) == Program(Distinct(tcp'), Distinct(udp'))
  {
    AscendingUnique(Distinct(tcp), Distinct(tcp'));
    AscendingUnique(Distinct(udp), Distinct(udp'));
  }

  /** Every jump lands inside and the last instruction returns. */
  predicate Closed(prog: seq<Ins>) {
    && prog != [] && prog[|prog| - 1].RetConstant?
    && forall i :: 0 <= i < |prog| && prog[i].JumpIfNotEqual? ==> i + 1 + prog[i].skipTrue < |prog|
  }

  lemma ProgramClosed(tcp: seq<u16>, udp: seq<u16>)
    ensures Closed(Program(tcp, udp))
  {
    var prog := Program(tcp, udp);
    ProgramStands(tcp, udp);
    forall i | 0 <= i < |prog| && prog[i].JumpIfNotEqual? ensures i + 1 + prog[i].skipTrue < |prog| {
      BlockJumps(TCP, tcp);
      BlockJumps(UDP, udp);
    }
  }

  lemma BlockJumps(proto: u8, ports: seq<u16>)
    ensures var b := Block(proto, ports);
            forall i :: 0 <= i < |b| && b[i].JumpIfNotEqual? ==> i + 1 + b[i].skipTrue <= |b|
  {
    assert Skip(|ports|) <= 3 * |ports| + 2;
  }

  lemma {:induction false} ClosedRuns(prog: seq<Ins>, pkt: seq<u8>, pc: nat, a: nat, x: nat)
    requires Closed(prog) && pc < |prog|
    ensures Run(prog, pkt, pc, a, x) != Outside
    decreases |prog| - pc
  {
    match prog[pc]
    case LoadAbsolute(off, size) =>
      if Load(pkt, off, size).Some? {
        ClosedRuns(prog, pkt, pc + 1, Load(pkt, off, size).value, x);
      }
    case LoadIndirect(off, size) =>
      if Load(pkt, x + off, size).Some? {
        ClosedRuns(prog, pkt, pc + 1, Load(pkt, x + off, size).value, x);
      }
    case LoadMemShift(off) =>
      if Load(pkt, off, 1).Some? {
        ClosedRuns(prog, pkt, pc + 1, a, Load(pkt, off, 1).value % 16 * 4);
      }
    case JumpIfNotEqual(val, skip) => ClosedRuns(prog, pkt, if a != val then pc + 1 + skip else pc + 1, a, x);
    case RetConstant(_) =>
  }

  /** For any lists, of any length, and any packet the program returns, in at most its own length. */
  lemma ProgramReturns(tcp: seq<u16>, udp: seq<u16>, pkt: seq<u8>)
    ensures Run(Program(tcp, udp), pkt, 0, 0, 0).Ret?
    ensures Steps(Program(tcp, udp), pkt, 0, 0, 0) <= |Program(tcp, udp)|
  {
    hide Program;
    ProgramClosed(tcp, udp);
    ClosedRuns(Program(tcp, udp), pkt, 0, 0, 0);
  }
}
