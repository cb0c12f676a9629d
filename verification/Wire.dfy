/** Packets byte by byte: where every field stands that Client, Server and rechecksum write, in numbers. */
module Wire {
  import opened Net
  import opened InternetSum
  import opened LinkTable
  import opened SplitChecksum
  import MssOption
  import Sharding

  /** Where RFC 9293 and RFC 768 put the checksum. */
  predicate ChecksumStands(proto: u8, at: nat) {
    (proto == 6 && at == 16) || (proto == 17 && at == 6)
  }

  /** b and c differ at most in the words at i and k. */
  predicate SameBut(b: seq<u8>, c: seq<u8>, i: nat, k: nat) {
    |b| == |c| && forall j :: 0 <= j < |b| && j != i && j != i + 1 && j != k && j != k + 1 ==> c[j] == b[j]
  }

  /** The bytes with the word at i zero. */
  function Zeroed(b: seq<u8>, i: nat): (r: seq<u8>)
    requires i + 1 < |b|
    ensures |r| == |b|
  {
    b[i := 0][i + 1 := 0]
  }

  lemma ZeroedWord(b: seq<u8>, i: nat)
    requires i + 1 < |b|
    ensures PutWord(b, i, 0) == Zeroed(b, i)
  {
  }

  /** The words of an address, as a pseudo-header adds them. */
  function Words4(b: seq<u8>): nat
    requires |b| == 4
  {
    256 * b[0] as int + b[1] as int + 256 * b[2] as int + b[3] as int
  }

  lemma Words4Sum(b: seq<u8>)
    requires |b| == 4
    ensures Words4(b) == Sum(b)
  {
    SumConcat(b[..2], b[2..]);
    assert b == b[..2] + b[2..] && b[..2] == [b[0], b[1]] && b[2..] == [b[2], b[3]];
    SumPair(b[0], b[1]);
    SumPair(b[2], b[3]);
  }

  /** The Internet checksum of bytes whose words add up to n: the complement of n modulo 0xffff, and 0xffff
      only for no bytes but zeros. */
  predicate Complements(hi: u8, lo: u8, n: nat) {
    var w := 0xFFFF - (256 * hi as int + lo as int);
    w % 0xFFFF == n % 0xFFFF && (w == 0 <==> n == 0)
  }

  /** A checksum stored at c. */
  lemma StoredBytes(b: seq<u8>, c: nat, blank: seq<u8>, psum: u16, n: nat)
    requires c + 1 < |b| && psum == Fold(n)
    ensures var out := PutWord(b, c, Flip(Checksum(blank, psum)));
            SameBut(b, out, c, c) && Complements(out[c], out[c + 1], Sum(blank) + n)
  {
    hide Checksum, Sum, Fold;
    ChecksumFold(blank, psum);
    FoldFold(n, Sum(blank));
    FoldMeaning(Sum(blank) + n);
  }

  /** The arithmetic sum is of big-endian words: 256 times the bytes at even offsets, and the others. */
  lemma {:induction false} SumStep(b: seq<u8>, x: u8)
    ensures Sum([]) == 0
    ensures Sum(b + [x]) == Sum(b) + if |b| % 2 == 0 then 256 * x as int else x as int
  {
    assert (b + [x])[..|b|] == b;
  }

  /** Client changes nothing but the checksum, which it leaves as the complement of the segment's sum with a
      pseudo-header, source address and source port taken as zero. */
  lemma ClientBytes(proto: u8, at: nat, seg: seq<u8>, dst: seq<u8>)
    requires ChecksumStands(proto, at) && at + 2 <= |seg| < 0x1_0000 && |dst| == 4
    ensures Transport(proto, seg)
    ensures var out := ClientSegment(proto, seg, dst);
            && SameBut(seg, out, at, at)
            && Complements(out[at], out[at + 1],
                           Sum(Zeroed(Zeroed(seg, 0), at)) + Words4(dst) + |seg| + proto as int)
  {
    hide Checksum, Sum, Fold, PutWord, SameBut, Complements, Zeroed, Words4, PseudoSum;
    FieldAt(proto, at);
    ZeroedWord(seg, 0);
    ZeroedWord(PutWord(seg, 0, 0), at);
    PseudoFold(proto, ZERO4, dst, |seg|);
    ZeroSum();
    Words4Sum(dst);
    StoredBytes(seg, at, Zeroed(Zeroed(seg, 0), at), PseudoSum(proto, ZERO4, dst, |seg|),
                Words4(dst) + |seg| + proto as int);
  }

  lemma FieldAt(proto: u8, at: nat)
    requires ChecksumStands(proto, at)
    ensures Field(proto) == at && (proto == TCP || proto == UDP)
  {
  }

  /** Server after Client: the process's segment with the new source port and, in the checksum field alone,
      the complement of the sum of the segment with its true pseudo-header. */
  lemma SplitBytes(proto: u8, at: nat, seg: seq<u8>, src: seq<u8>, dst: seq<u8>, port: u16)
    requires ChecksumStands(proto, at) && at + 2 <= |seg| < 0x1_0000 && |src| == 4 == |dst|
    ensures Transport(proto, seg)
    ensures var out := ServerSegment(proto, ClientSegment(proto, seg, dst), src, port);
            && |out| == |seg| && SameBut(seg, out, 0, at) && 256 * out[0] as int + out[1] as int == port
            && Complements(out[at], out[at + 1],
                           Sum(Zeroed(out, at)) + Words4(src) + Words4(dst) + |seg| + proto as int)
  {
    hide Checksum, Sum, Fold, PutWord, SameBut, Complements, Zeroed, Words4, PseudoSum;
    FieldAt(proto, at);
    SplitIsExact(proto, seg, src, dst, port);
    PseudoFold(proto, src, dst, |seg|);
    Words4Sum(src);
    Words4Sum(dst);
    var n := Words4(src) + Words4(dst) + |seg| + proto as int;
    SealedBytes(PutWord(seg, 0, port), at, PseudoSum(proto, src, dst, |seg|), n);
    assert |seg| == |Sealed(PutWord(seg, 0, port), at, PseudoSum(proto, src, dst, |seg|))|;
    PortBytes(seg, at, port, Sealed(PutWord(seg, 0, port), at, PseudoSum(proto, src, dst, |seg|)));
  }

  lemma PortBytes(seg: seq<u8>, at: nat, port: u16, out: seq<u8>)
    requires 2 <= at && at + 1 < |seg| && SameBut(PutWord(seg, 0, port), out, at, at)
    ensures SameBut(seg, out, 0, at) && 256 * out[0] as int + out[1] as int == port
  {
  }

  lemma SealedBytes(b: seq<u8>, at: nat, psum: u16, n: nat)
    requires at + 1 < |b| && psum == Fold(n)
    ensures var out := Sealed(b, at, psum);
            && SameBut(b, out, at, at) && Complements(out[at], out[at + 1], Sum(Zeroed(out, at)) + n)
  {
    hide Checksum, Sum, Fold, PutWord, SameBut, Complements, Zeroed;
    ZeroedWord(b, at);
    ZeroedWord(Sealed(b, at, psum), at);
    PutWordTwice(b, at, Flip(Checksum(PutWord(b, at, 0), psum)), 0);
    StoredBytes(b, at, PutWord(b, at, 0), psum, n);
  }

  // The clamp and the split checksum

  lemma {:induction false} ScanLocal(h: seq<u8>, g: seq<u8>, n: nat, i: nat)
    requires n <= |h| == |g| && forall j :: i <= j < n ==> g[j] == h[j]
    ensures MssOption.Scan(g, n, i) == MssOption.Scan(h, n, i)
    decreases n - i
  {
    if i < n && h[i] == 1 {
      ScanLocal(h, g, n, i + 1);
    } else if i + 1 < n && h[i] != 0 && h[i] != 2 && h[i + 1] != 0 {
      ScanLocal(h, g, n, i + h[i + 1]);
    }
  }

  /** Bytes with a full checksum are determined by all their other bytes. */
  lemma SealedUnique(a: seq<u8>, b: seq<u8>, psum: u16)
    requires |a| == |b| >= 18 && SameBut(a, b, 16, 16) && MssOption.Exact(b, psum)
    ensures Sealed(a, 16, psum) == b
  {
    hide Checksum, PutWord, SameBut;
    PutWordSame(a, b, 0);
    PutWordSame(a, b, Flip(Checksum(PutWord(b, 16, 0), psum)));
  }

  lemma PutWordSame(a: seq<u8>, b: seq<u8>, w: u16)
    requires |a| == |b| >= 18 && SameBut(a, b, 16, 16)
    ensures PutWord(a, 16, w) == PutWord(b, 16, w)
  {
  }

  lemma SealedAgain(b: seq<u8>, psum: u16)
    requires |b| >= 18
    ensures MssOption.Exact(Sealed(b, 16, psum), psum)
  {
    MssOption.SealedIsExact(b, psum);
  }

  /** Clamping the option before the segment goes through Client and Server, or in what they make of it, gives
      the same bytes: both write the checksum to the same place, and both write what a full sum gives. */
  lemma ClampCommutes(seg: seq<u8>, delta: int, src: seq<u8>, dst: seq<u8>, port: u16)
    requires 20 <= |seg| < 0x1_0000 && MssOption.Accepts(seg) && |src| == 4 == |dst|
    ensures Transport(6, seg) && Transport(6, MssOption.Updated(seg, delta).0)
    ensures var out := ServerSegment(6, ClientSegment(6, seg, dst), src, port);
            && MssOption.Accepts(out)
            && MssOption.Updated(out, delta).0
               == ServerSegment(6, ClientSegment(6, MssOption.Updated(seg, delta).0, dst), src, port)
            && MssOption.Updated(out, delta).1 == MssOption.Updated(seg, delta).1
  {
    hide Checksum, PutWord, PseudoSum, SameBut, Sealed, MssOption.Updated, MssOption.Accepts, MssOption.Exact,
         ClientSegment, ServerSegment, Complements, Zeroed, Sum;
    FieldAt(6, 16);
    var psum := PseudoSum(6, src, dst, |seg|);
    var out := ServerSegment(6, ClientSegment(6, seg, dst), src, port);
    SplitIsExact(6, seg, src, dst, port);
    SplitBytes(6, 16, seg, src, dst, port);
    SplitIsExact(6, MssOption.Updated(seg, delta).0, src, dst, port);
    SealedAgain(PutWord(seg, 0, port), psum);
    ClampSame(seg, out, delta, psum, port);
    SealedUnique(PutWord(MssOption.Updated(seg, delta).0, 0, port), MssOption.Updated(out, delta).0, psum);
  }

  /** Two segments that differ in the source port and the checksum are clamped alike. */
  lemma ClampSame(seg: seq<u8>, out: seq<u8>, delta: int, psum: u16, port: u16)
    requires |seg| >= 20 && MssOption.Accepts(seg) && SameBut(seg, out, 0, 16)
    requires 256 * out[0] as int + out[1] as int == port && MssOption.Exact(out, psum)
    ensures MssOption.Accepts(out) && MssOption.Updated(out, delta).1 == MssOption.Updated(seg, delta).1
    ensures MssOption.Exact(MssOption.Updated(out, delta).0, psum)
    ensures SameBut(PutWord(MssOption.Updated(seg, delta).0, 0, port), MssOption.Updated(out, delta).0, 16, 16)
  {
    hide Checksum, PutWord, SameBut, Sealed, Word, MssOption.Edited, MssOption.Exact, MssOption.Scan,
         MssOption.DataOffset;
    Untouched(seg, out);
    if MssOption.Changes(seg, delta) {
      var i := MssOption.Scan(seg, MssOption.DataOffset(seg), 20).i;
      ScanRoom(seg, i);
      assert Word(out, i + 2) == Word(seg, i + 2);
      MssOption.UpdateKeepsExact(out, delta, psum);
      EditSame(seg, out, i, (Word(seg, i + 2) + delta) % 0x1_0000, port);
    } else {
      UntouchedPort(seg, out, port);
    }
  }

  lemma ScanRoom(h: seq<u8>, i: nat)
    requires MssOption.Accepts(h) && MssOption.Scan(h, MssOption.DataOffset(h), 20) == MssOption.At(i)
    ensures 20 <= i && i + 4 <= |h| && (i % 2 == 1 ==> i + 5 <= |h|)
  {
    MssOption.OddRoom(h, i);
  }

  lemma Untouched(seg: seq<u8>, out: seq<u8>)
    requires |seg| >= 20 && MssOption.Accepts(seg) && SameBut(seg, out, 0, 16)
    ensures MssOption.Accepts(out) && MssOption.DataOffset(out) == MssOption.DataOffset(seg)
    ensures MssOption.Scan(out, MssOption.DataOffset(seg), 20) == MssOption.Scan(seg, MssOption.DataOffset(seg), 20)
    ensures forall i :: 20 <= i && i + 1 < |seg| ==> Word(out, i) == Word(seg, i)
  {
    ScanLocal(seg, out, MssOption.DataOffset(seg), 20);
  }

  lemma UntouchedPort(seg: seq<u8>, out: seq<u8>, port: u16)
    requires |seg| >= 20 && SameBut(seg, out, 0, 16) && 256 * out[0] as int + out[1] as int == port
    ensures SameBut(PutWord(seg, 0, port), out, 16, 16)
  {
  }

  lemma EditSame(seg: seq<u8>, out: seq<u8>, i: nat, v: u16, port: u16)
    requires 20 <= i && i + 4 <= |seg| && (i % 2 == 1 ==> i + 5 <= |seg|)
    requires SameBut(seg, out, 0, 16) && 256 * out[0] as int + out[1] as int == port
    ensures SameBut(PutWord(MssOption.Edited(seg, i, v), 0, port), MssOption.Edited(out, i, v), 16, 16)
  {
    hide Checksum, MssOption.Edited;
    MssOption.EditedElsewhere(seg, i, v);
    MssOption.EditedElsewhere(out, i, v);
    var a, b := PutWord(MssOption.Edited(seg, i, v), 0, port), MssOption.Edited(out, i, v);
    assert Word(a, 0) == Word(b, 0) && Word(a, i + 2) == Word(b, i + 2);
    forall j | 0 <= j < |seg| && j != 16 && j != 17 ensures a[j] == b[j] {
      assert j == i + 2 || j == i + 3 || j < 2 || b[j] == out[j] == seg[j] == a[j];
    }
  }

  // Whole packets

  /** An IPv4 packet with a TCP or UDP header behind a header of h bytes and before byte total. */
  predicate Carries(b: seq<u8>, h: nat, total: nat, at: nat) {
    && |b| >= 20 && h == 4 * (b[0] as int % 16) && total == 256 * b[2] as int + b[3] as int
    && 20 <= h && h + at + 2 <= total <= |b| && ChecksumStands(b[9], at)
  }

  /** Client accepts exactly those of version 4; recomputing accepts them all. */
  lemma InputExact(b: seq<u8>)
    ensures Shaped(b) <==> exists h, total, at :: Carries(b, h, total, at)
    ensures ClientInput(b) <==> Shaped(b) && b[0] as int / 16 == 4
  {
    if Shaped(b) {
      assert Carries(b, HeaderLen(b), Word(b, 2), Field(b[9]));
    }
  }

  /** Four bytes of an address, most significant first. */
  predicate Big4(b: seq<u8>, a: u32) {
    |b| == 4 && a == 0x100_0000 * b[0] as int + 0x1_0000 * b[1] as int + 0x100 * b[2] as int + b[3] as int
  }

  lemma Bytes4Big(a: u32, b: seq<u8>)
    requires |b| == 4
    ensures Big4(Bytes4(a), a)
    ensures Addr4(b).V4? && Big4(b, Addr4(b).bits4)
  {
  }

  /** A whole packet through Client and Server, field by field. */
  lemma PacketBytes(b: seq<u8>, h: nat, at: nat, down: Downlink, id: u16)
    requires Carries(b, h, |b|, at) && b[0] as int / 16 == 4
    requires down.proto == b[9] && down.local.addr.V4? && down.server.addr.V4?
    requires Big4(b[16..20], down.server.addr.bits4)
    ensures ClientInput(b) && ServerInput(ClientPacket(b), down)
    ensures var ip := ServerPacket(ClientPacket(b), down, id);
            && |ip| == 20 + |b| - h
            && ip[0] == 0x45 && ip[1] == 0x0E && 256 * ip[2] as int + ip[3] as int == |ip|
            && 256 * ip[4] as int + ip[5] as int == id && ip[6] == 0 && ip[7] == 0 && ip[8] == 64 && ip[9] == b[9]
            && Big4(ip[12..16], down.local.addr.bits4) && ip[16..20] == b[16..20]
            && Complements(ip[10], ip[11], Sum(Zeroed(ip[..20], 10)))
    ensures var ip := ServerPacket(ClientPacket(b), down, id);
            && SameBut(b[h..], ip[20..], 0, at)
            && 256 * ip[20] as int + ip[21] as int == down.local.port
            && Complements(ip[20 + at], ip[20 + at + 1],
                           Sum(Zeroed(ip[20..], at)) + Words4(ip[12..16]) + Words4(ip[16..20])
                           + |b| - h + b[9] as int)
  {
    hide Checksum, Sum, PutWord, SameBut, Complements, Zeroed, Words4, PseudoSum, ClientSegment, ServerSegment, Pair,
         Bytes4, Sealed, EncodedHeader, ServerPacket, ClientPacket, Shaped, Transport, ServerInput;
    var src, dst := Bytes4(down.local.addr.bits4), b[16..20];
    Bytes4Big(down.local.addr.bits4, src);
    ThroughBoth(b, h, at, down, id);
    SplitBytes(b[9], at, b[h..], src, dst, down.local.port);
    var head := EncodedHeader(0x0E, 20 + |b| - h, id, b[9], src, dst);
    var ip := ServerPacket(ClientPacket(b), down, id);
    FoldSmall(0);
    SealedBytes(head, 10, 0, 0);
    HeaderBytes(20 + |b| - h, id, b[9], src, dst, ip[..20]);
    assert ip[12..16] == ip[..20][12..16] && ip[16..20] == ip[..20][16..];
    assert ip[10] == ip[..20][10] && ip[11] == ip[..20][11];
    assert ip[20] == ip[20..][0] && ip[21] == ip[20..][1];
    assert ip[20 + at] == ip[20..][at] && ip[20 + at + 1] == ip[20..][at + 1];
  }

  /** The header and the segment of a packet that went through Client and Server. */
  lemma ThroughBoth(b: seq<u8>, h: nat, at: nat, down: Downlink, id: u16)
    requires Carries(b, h, |b|, at) && b[0] as int / 16 == 4
    requires down.proto == b[9] && down.local.addr.V4? && down.server.addr.V4?
    requires Big4(b[16..20], down.server.addr.bits4)
    ensures ClientInput(b) && ServerInput(ClientPacket(b), down) && Transport(b[9], b[h..]) && 20 + |b| - h < 0x1_0000
    ensures var src := Bytes4(down.local.addr.bits4);
            var ip := ServerPacket(ClientPacket(b), down, id);
            && |ip| == 20 + |b| - h
            && ip[..20] == Sealed(EncodedHeader(0x0E, 20 + |b| - h, id, b[9], src, b[16..20]), 10, 0)
            && ip[20..] == ServerSegment(b[9], ClientSegment(b[9], b[h..], b[16..20]), src, down.local.port)
  {
    hide Checksum, PutWord, PseudoSum, ClientSegment, Pair, Bytes4, Sealed, EncodedHeader, Combine;
    FieldAt(b[9], at);
    Bytes4Big(down.server.addr.bits4, b[16..20]);
    Big4Unique(Bytes4(down.server.addr.bits4), b[16..20], down.server.addr.bits4);
    TotalLength(b);
    assert Payload(b) == b[h..] && b[|b|..] == [];
    assert ClientPacket(b) == ClientSegment(b[9], b[h..], b[16..20]);
    TransportKept(b[9], b[h..], b[16..20]);
  }

  lemma TotalLength(b: seq<u8>)
    requires |b| >= 20
    ensures Word(b, 2) == 256 * b[2] as int + b[3] as int && HeaderLen(b) == 4 * (b[0] as int % 16)
  {
  }

  lemma Big4Byte(b: seq<u8>, a: u32)
    requires Big4(b, a)
    ensures b[3] == a % 0x100 && b[2] == a / 0x100 % 0x100 && b[1] == a / 0x1_0000 % 0x100 && b[0] == a / 0x100_0000
  {
    assert a / 0x100 == 0x1_0000 * b[0] as int + 0x100 * b[1] as int + b[2] as int;
    assert a / 0x1_0000 == 0x100 * b[0] as int + b[1] as int;
  }

  lemma Big4Unique(b: seq<u8>, c: seq<u8>, a: u32)
    requires Big4(b, a) && Big4(c, a)
    ensures b == c
  {
    Big4Byte(b, a);
    Big4Byte(c, a);
  }

  lemma HeaderBytes(total: u16, id: u16, proto: u8, src: seq<u8>, dst: seq<u8>, ip: seq<u8>)
    requires |src| == 4 == |dst| && SameBut(EncodedHeader(0x0E, total, id, proto, src, dst), ip, 10, 10)
    ensures |ip| == 20 && ip[0] == 0x45 && ip[1] == 0x0E && 256 * ip[2] as int + ip[3] as int == total
    ensures 256 * ip[4] as int + ip[5] as int == id && ip[6] == 0 && ip[7] == 0 && ip[8] == 64 && ip[9] == proto
    ensures ip[12..16] == src && ip[16..] == dst
  {
    var e := EncodedHeader(0x0E, total, id, proto, src, dst);
    assert forall j :: 12 <= j < 20 ==> ip[j] == e[j];
    assert e[12..16] == src && e[16..] == dst;
  }

  /** Recomputing both checksums of a received packet: they are the complements of their sums, and no other
      byte changes. */
  lemma RecheckedBytes(b: seq<u8>, h: nat, total: nat, at: nat)
    requires Carries(b, h, total, at)
    ensures Shaped(b) && SameBut(b, Rechecked(b), 10, h + at)
    ensures var r := Rechecked(b);
            && Complements(r[10], r[11], Sum(Zeroed(r[..h], 10)))
            && Complements(r[h + at], r[h + at + 1],
                           Sum(Zeroed(r[h..total], at)) + Words4(b[12..16]) + Words4(b[16..20])
                           + total - h + b[9] as int)
  {
    hide Checksum, Sum, PutWord, Complements, Zeroed, Words4, PseudoSum, Pair, Sealed, Fold;
    FieldAt(b[9], at);
    TotalLength(b);
    var r, seg := Rechecked(b), b[h..total];
    var n := Words4(b[12..16]) + Words4(b[16..20]) + total - h + b[9] as int;
    Words4Sum(b[12..16]);
    Words4Sum(b[16..20]);
    PseudoFold(b[9], b[12..16], b[16..20], total - h);
    FoldSmall(0);
    SealedBytes(b[..h], 10, 0, 0);
    SealedBytes(seg, at, PseudoSum(b[9], b[12..16], b[16..20], total - h), n);
    assert r[..h] == Sealed(b[..h], 10, 0);
    assert r[h..total] == Sealed(seg, at, PseudoSum(b[9], b[12..16], b[16..20], total - h));
    Parts(b, r, h, total, at);
  }

  lemma Parts(b: seq<u8>, r: seq<u8>, h: nat, total: nat, at: nat)
    requires 12 <= h && h + at + 2 <= total <= |b| == |r| && r[total..] == b[total..]
    requires SameBut(b[..h], r[..h], 10, 10) && SameBut(b[h..total], r[h..total], at, at)
    ensures SameBut(b, r, 10, h + at)
    ensures r[10] == r[..h][10] && r[11] == r[..h][11]
    ensures r[h + at] == r[h..total][at] && r[h + at + 1] == r[h..total][at + 1]
  {
    forall j | 0 <= j < |b| && j != 10 && j != 11 && j != h + at && j != h + at + 1 ensures r[j] == b[j] {
      if j < h {
        assert r[..h][j] == b[..h][j];
      } else if j < total {
        assert r[h..total][j - h] == b[h..total][j - h];
      } else {
        assert r[total..][j - total] == b[total..][j - total];
      }
    }
  }

  // Addresses

  /** Sixteen bytes of an address, most significant first. */
  function Bytes16(a: u128, n: nat): (r: seq<u8>)
    ensures |r| == n
  {
    if n == 0 then [] else Bytes16(a / 0x100, n - 1) + [a % 0x100]
  }

  /** The shard of a server is the last byte of its address, in network order, modulo the count. */
  lemma ShardOfServer(mutx: u8, a: u32, b: u128, zone: string)
    requires mutx > 0
    ensures Sharding.Shard(mutx, V4(a)) == Bytes4(a)[3] as int % mutx as int
    ensures Sharding.Shard(mutx, V6(b, zone)) == Bytes16(b, 16)[15] as int % mutx as int
    ensures forall s: seq<u8> :: Big4(s, a) ==> Sharding.Shard(mutx, V4(a)) == s[3] as int % mutx as int
  {
    forall s: seq<u8> | Big4(s, a) ensures Sharding.Shard(mutx, V4(a)) == s[3] as int % mutx as int {
      Big4Byte(s, a);
    }
  }
}
