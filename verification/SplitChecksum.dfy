/** The transport checksum split between client and server: the client sums as if it sent from port 0
    of address 0, and the server adds the real source without reading the segment again. */
module SplitChecksum {
  import opened Net
  import opened InternetSum
  import opened LinkTable

  /** Offset of the checksum in a TCP or UDP header. */
  function Field(proto: u8): nat { if proto == TCP then 16 else 6 }

  predicate Transport(proto: u8, seg: seq<u8>) {
    (proto == TCP || proto == UDP) && Field(proto) + 2 <= |seg| < 0x1_0000
  }

  const ZERO4: seq<u8> := [0, 0, 0, 0]

  function Bytes4(a: u32): (r: seq<u8>)
    ensures |r| == 4
  {
    var hi, lo := a / 0x1_0000, a % 0x1_0000;
    [hi / 256, hi % 256, lo / 256, lo % 256]
  }

  function Addr4(b: seq<u8>): Addr
    requires |b| == 4
  {
    V4(0x1_0000 * Pair(b[0], b[1]) + Pair(b[2], b[3]))
  }

  lemma Addr4Bytes(a: u32)
    ensures Addr4(Bytes4(a)) == V4(a)
  {
    hide Pair;
    WordBytes(a / 0x1_0000);
    WordBytes(a % 0x1_0000);
  }

  /** A segment as it leaves the client. */
  function ClientSegment(proto: u8, seg: seq<u8>, dst: seq<u8>): (r: seq<u8>)
    requires Transport(proto, seg)
    ensures |r| == |seg|
  {
    var blank := PutWord(PutWord(seg, 0, 0), Field(proto), 0);
    PutWord(seg, Field(proto), Flip(Checksum(blank, PseudoSum(proto, ZERO4, dst, |seg|))))
  }

  /** What the server makes of a received segment: a patched checksum and its own source port. */
  function ServerSegment(proto: u8, seg: seq<u8>, src: seq<u8>, port: u16): seq<u8>
    requires |seg| >= Field(proto) + 2
  {
    var sum := Combine(Checksum(src, port), Flip(Word(seg, Field(proto))));
    PutWord(PutWord(seg, Field(proto), Flip(sum)), 0, port)
  }

  /** The patched sum is, bit for bit, the sum over the rewritten segment. */
  lemma PatchedSum(proto: u8, seg: seq<u8>, src: seq<u8>, dst: seq<u8>, port: u16)
    requires Transport(proto, seg)
    ensures var blank := PutWord(PutWord(seg, 0, 0), Field(proto), 0);
            var full := PutWord(PutWord(seg, 0, port), Field(proto), 0);
            Combine(Checksum(src, port), Checksum(blank, PseudoSum(proto, ZERO4, dst, |seg|)))
            == Checksum(full, PseudoSum(proto, src, dst, |seg|))
  {
    hide Fold, Sum, Checksum, PutWord, Combine;
    var c := Field(proto);
    var blank, full := PutWord(PutWord(seg, 0, 0), c, 0), PutWord(PutWord(seg, 0, port), c, 0);
    var p0, p1 := PseudoSum(proto, ZERO4, dst, |seg|), PseudoSum(proto, src, dst, |seg|);
    PutWordSwap(seg, 0, 0, c, 0);
    PutWordSwap(seg, 0, port, c, 0);
    SumPutWord(PutWord(seg, c, 0), 0, 0);
    SumPutWord(PutWord(seg, c, 0), 0, port);
    assert Sum(full) == Sum(blank) + port;
    ZeroSum();
    PseudoFold(proto, ZERO4, dst, |seg|);
    PseudoFold(proto, src, dst, |seg|);
    ChecksumFold(blank, p0);
    ChecksumFold(full, p1);
    ChecksumFold(src, port);
    var k := Sum(dst) + |seg| + proto as int;
    FoldFold(k, Sum(blank));
    FoldFold(Sum(src) + k, Sum(full));
    CombineFold(Checksum(src, port), Checksum(blank, p0));
    FoldFold(Sum(src) + port, Fold(Sum(blank) + k));
    FoldFold(Sum(blank) + k, Sum(src) + port);
  }

  lemma ZeroSum()
    ensures Sum(ZERO4) == 0
  {
    SumPair(0, 0);
    SumConcat([0, 0], [0, 0]);
    assert ZERO4 == [0, 0] + [0, 0];
  }

  /** Server after Client leaves the very bytes a full recomputation would: no other byte differs, and
      the 16 bits of the checksum are equal, not merely equal modulo 0xffff. */
  lemma SplitIsExact(proto: u8, seg: seq<u8>, src: seq<u8>, dst: seq<u8>, port: u16)
    requires Transport(proto, seg)
    ensures ServerSegment(proto, ClientSegment(proto, seg, dst), src, port)
            == Sealed(PutWord(seg, 0, port), Field(proto), PseudoSum(proto, src, dst, |seg|))
  {
    hide Checksum, PutWord, Combine, PseudoSum;
    PatchedSum(proto, seg, src, dst, port);
    var c := Field(proto);
    var blank := PutWord(PutWord(seg, 0, 0), c, 0);
    var s := Checksum(blank, PseudoSum(proto, ZERO4, dst, |seg|));
    var t := Combine(Checksum(src, port), s);
    PutWordTwice(seg, c, Flip(s), Flip(t));
    PutWordSwap(seg, 0, port, c, Flip(t));
  }

  // Packets

  /** A header and a TCP or UDP payload within the buffer; the code panics on anything else. */
  predicate Shaped(b: seq<u8>) {
    && |b| >= 20
    && 20 <= HeaderLen(b) <= Word(b, 2) <= |b|
    && Transport(b[9], Payload(b))
  }

  function Payload(b: seq<u8>): seq<u8>
    requires |b| >= 20 && HeaderLen(b) <= Word(b, 2) <= |b|
  {
    b[HeaderLen(b)..Word(b, 2)]
  }

  /** What Client accepts. */
  predicate ClientInput(b: seq<u8>) { Shaped(b) && b[0] as int / 16 == 4 }

  function ClientPacket(b: seq<u8>): seq<u8>
    requires ClientInput(b)
  {
    ClientSegment(b[9], Payload(b), b[16..20]) + b[Word(b, 2)..]
  }

  function EncodedHeader(tos: u8, total: u16, id: u16, proto: u8, src: seq<u8>, dst: seq<u8>): (r: seq<u8>)
    requires |src| == 4 && |dst| == 4
    ensures |r| == 20 && r[9] == proto && r[12..16] == src && r[16..] == dst && Word(r, 2) == total
    ensures r[6] == 0 && r[7] == 0 && r[8] == 64
  {
    [0x45, tos, total / 256, total % 256, id / 256, id % 256, 0, 0, 64, proto, 0, 0] + src + dst
  }

  predicate ServerInput(seg: seq<u8>, down: Downlink) {
    && (down.proto == TCP || down.proto == UDP) && |seg| >= Field(down.proto) + 2
    && down.local.addr.V4? && down.server.addr.V4?
  }

  /** Client leaves both ports and every other field but the checksum as they were. */
  lemma ClientKeepsPorts(b: seq<u8>)
    requires ClientInput(b)
    ensures |ClientPacket(b)| >= 8
    ensures Word(ClientPacket(b), 0) == Word(Payload(b), 0) && Word(ClientPacket(b), 2) == Word(Payload(b), 2)
  {
    hide Checksum, PseudoSum, Pair;
  }

  function ServerPacket(seg: seq<u8>, down: Downlink, id: u16): seq<u8>
    requires ServerInput(seg, down)
  {
    var src, dst := Bytes4(down.local.addr.bits4), Bytes4(down.server.addr.bits4);
    Sealed(EncodedHeader(0x0E, (|seg| + 20) % 0x1_0000, id, down.proto, src, dst), 10, 0)
    + ServerSegment(down.proto, seg, src, down.local.port)
  }

  /** A whole packet through both ends: a header that verifies and states the true length, no fragment, a time to
      live of 64, the link's addresses and source port, and the exact checksum of the segment it now carries. */
  lemma PacketThrough(b: seq<u8>, down: Downlink, id: u16)
    requires ClientInput(b) && |b| == Word(b, 2)
    requires down.proto == b[9] && down.local.addr.V4? && down.server.addr.V4?
    requires Bytes4(down.server.addr.bits4) == b[16..20]
    ensures var src := Bytes4(down.local.addr.bits4);
            var seg := b[HeaderLen(b)..];
            var psum := PseudoSum(b[9], src, b[16..20], |seg|);
            && ServerInput(ClientPacket(b), down)
            && var ip := ServerPacket(ClientPacket(b), down, id);
            && |ip| == 20 + |seg| && Word(ip, 2) == |ip| && Verifies(ip[..20], 0)
            && ip[9] == b[9] && ip[12..16] == src && ip[16..20] == b[16..20]
            && ip[6] == 0 && ip[7] == 0 && ip[8] == 64
            && ip[20..] == Sealed(PutWord(seg, 0, down.local.port), Field(b[9]), psum)
            && Verifies(ip[20..], psum)
  {
    hide Checksum, PseudoSum, ClientSegment, ServerSegment, Transport, Bytes4, Sealed, PutWord, EncodedHeader,
         Verifies, Pair;
    var src := Bytes4(down.local.addr.bits4);
    var seg := b[HeaderLen(b)..];
    assert Payload(b) == seg && b[Word(b, 2)..] == [];
    assert ClientPacket(b) == ClientSegment(b[9], seg, b[16..20]);
    var psum := PseudoSum(b[9], src, b[16..20], |seg|);
    TransportKept(b[9], seg, b[16..20]);
    SplitIsExact(b[9], seg, src, b[16..20], down.local.port);
    SealedVerifies(PutWord(seg, 0, down.local.port), Field(b[9]), psum);
    var h := EncodedHeader(0x0E, |seg| + 20, id, b[9], src, b[16..20]);
    SealedVerifies(h, 10, 0);
    SealedElsewhere(h, 10, 0);
    var ip := ServerPacket(ClientPacket(b), down, id);
    assert ip[..20] == Sealed(h, 10, 0);
    HeaderFields(h, ip);
    assert ip[6] == ip[6..9][0] && ip[7] == ip[6..9][1] && ip[8] == ip[6..9][2];
  }

  lemma HeaderFields(h: seq<u8>, ip: seq<u8>)
    requires |h| == 20 <= |ip| && ip[..20] == Sealed(h, 10, 0)
    ensures Word(ip, 2) == Word(h, 2) && ip[9] == h[9] && ip[12..16] == h[12..16] && ip[16..20] == h[16..]
    ensures ip[6..9] == h[6..9]
  {
    hide Checksum, PutWord, Pair;
    SealedElsewhere(h, 10, 0);
    assert forall j :: 0 <= j < 20 && j != 10 && j != 11 ==> ip[j] == Sealed(h, 10, 0)[j] == h[j];
  }

  lemma TransportKept(proto: u8, seg: seq<u8>, dst: seq<u8>)
    requires Transport(proto, seg)
    ensures |ClientSegment(proto, seg, dst)| == |seg| >= Field(proto) + 2 && (proto == TCP || proto == UDP)
  {
  }

  /** Bytes past the IP total length travel with the segment although the client did not sum them. The
      receiver then accepts the segment if and only if they and their count sum to zero modulo 0xffff. */
  lemma PaddingExact(proto: u8, seg: seq<u8>, pad: seq<u8>, src: seq<u8>, dst: seq<u8>, port: u16)
    requires Transport(proto, seg) && Transport(proto, seg + pad)
    ensures Verifies(ServerSegment(proto, ClientSegment(proto, seg, dst) + pad, src, port),
                     PseudoSum(proto, src, dst, |seg| + |pad|))
            <==> (SumAfter(|seg|, pad) + |pad|) % 0xFFFF == 0
  {
    hide Checksum, PseudoSum, Sum, SumAfter, Fold, PutWord, Combine, Transport;
    var c := Field(proto);
    SegmentSize(proto, seg);
    SegmentSize(proto, seg + pad);
    var sent := ClientSegment(proto, seg, dst);
    var got := ServerSegment(proto, sent, src, port);
    var psum := PseudoSum(proto, src, dst, |seg|);
    ServerPadded(proto, sent, pad, src, port);
    SplitIsExact(proto, seg, src, dst, port);
    SealedVerifies(PutWord(seg, 0, port), c, psum);
    VerifiesSum(got, psum);
    VerifiesSum(got + pad, PseudoSum(proto, src, dst, |seg| + |pad|));
    SumAppend(got, pad);
    PseudoFold(proto, src, dst, |seg|);
    PseudoFold(proto, src, dst, |seg| + |pad|);
    var k := Sum(src) + Sum(dst) + proto as int;
    FoldMeaning(k + |seg|);
    FoldMeaning(k + |seg| + |pad|);
    Residues(Sum(got), k + |seg|, psum, SumAfter(|seg|, pad), |pad|, PseudoSum(proto, src, dst, |seg| + |pad|));
  }

  /** One zero byte too many already breaks every segment. */
  lemma PaddingBreaks(proto: u8, seg: seq<u8>, src: seq<u8>, dst: seq<u8>, port: u16)
    requires Transport(proto, seg) && Transport(proto, seg + [0])
    ensures !Verifies(ServerSegment(proto, ClientSegment(proto, seg, dst) + [0], src, port),
                      PseudoSum(proto, src, dst, |seg| + 1))
  {
    hide Checksum, PseudoSum, ServerSegment, ClientSegment, Verifies;
    PaddingExact(proto, seg, [0], src, dst, port);
    SumPair(0, 0);
    assert [0] + [0] == [0, 0] && [0, 0][..1] == [0];
  }

  lemma SegmentSize(proto: u8, seg: seq<u8>)
    requires Transport(proto, seg)
    ensures Field(proto) + 2 <= |seg| < 0x1_0000 && proto > 0
  {
  }

  lemma ServerPadded(proto: u8, seg: seq<u8>, pad: seq<u8>, src: seq<u8>, port: u16)
    requires |seg| >= Field(proto) + 2
    ensures ServerSegment(proto, seg + pad, src, port) == ServerSegment(proto, seg, src, port) + pad
  {
  }

  lemma Residues(s: nat, k: nat, p: nat, a: nat, n: nat, q: nat)
    requires (s + p) % 0xFFFF == 0 && p % 0xFFFF == k % 0xFFFF && q % 0xFFFF == (k + n) % 0xFFFF
    ensures (s + a + q) % 0xFFFF == (a + n) % 0xFFFF
  {
    var i, j, l := (s + p) / 0xFFFF, p / 0xFFFF - k / 0xFFFF, q / 0xFFFF - (k + n) / 0xFFFF;
    assert s + p == 0xFFFF * i && p - k == 0xFFFF * j && q - (k + n) == 0xFFFF * l;
    Shift(a + n, i - j + l);
  }

  // The client's side of a reply: both checksums recomputed

  function Rechecked(b: seq<u8>): seq<u8>
    requires Shaped(b)
  {
    var h, t := HeaderLen(b), Word(b, 2);
    Sealed(b[..h], 10, 0)
    + Sealed(Payload(b), Field(b[9]), PseudoSum(b[9], b[12..16], b[16..20], t - h))
    + b[t..]
  }

  /** The header and the segment both verify, whatever their checksum fields held before. */
  lemma RecheckedVerifies(b: seq<u8>)
    requires Shaped(b)
    ensures var r := Rechecked(b);
            && |r| == |b| && HeaderLen(r) == HeaderLen(b) && Word(r, 2) == Word(b, 2)
            && r[9] == b[9] && r[12..20] == b[12..20]
            && Verifies(r[..HeaderLen(b)], 0)
            && Verifies(Payload(r), PseudoSum(r[9], r[12..16], r[16..20], |Payload(r)|))
            && (forall i :: 0 <= i < |b| && i != 10 && i != 11 && i - HeaderLen(b) - Field(b[9]) !in {0, 1}
                  ==> r[i] == b[i])
  {
    hide Checksum, PseudoSum, PutWord, Verifies, Sealed, Transport, Pair;
    var h, t, r := HeaderLen(b), Word(b, 2), Rechecked(b);
    var psum := PseudoSum(b[9], b[12..16], b[16..20], t - h);
    SegmentSize(b[9], Payload(b));
    SealedVerifies(b[..h], 10, 0);
    SealedVerifies(Payload(b), Field(b[9]), psum);
    SealedElsewhere(b[..h], 10, 0);
    SealedElsewhere(Payload(b), Field(b[9]), psum);
    assert r[..h] == Sealed(b[..h], 10, 0);
    assert forall j :: 0 <= j < h && j != 10 && j != 11 ==> r[j] == r[..h][j] == b[..h][j] == b[j];
    assert r[h..t] == Sealed(Payload(b), Field(b[9]), psum);
    assert forall j :: h <= j < t ==> r[j] == r[h..t][j - h] && b[j] == Payload(b)[j - h];
    assert r[12..16] == b[12..16] && r[16..20] == b[16..20];
  }
}
