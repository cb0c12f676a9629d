/** `packet.Packet` and the functions that rewrite packets in place. */
module Packets {
  import opened Net
  import opened InternetSum
  import opened LinkTable
  import opened SplitChecksum

  /** A buffer with the bytes from lo to hi replaced. */
  function Splice(b: seq<u8>, lo: nat, hi: nat, s: seq<u8>): (r: seq<u8>)
    requires lo <= hi <= |b| && |s| == hi - lo
    ensures |r| == |b|
  {
    b[..lo] + s + b[hi..]
  }

  lemma SpliceParts(b: seq<u8>, lo: nat, hi: nat, s: seq<u8>)
    requires lo <= hi <= |b| && |s| == hi - lo
    ensures Splice(b, lo, hi, s)[lo..hi] == s
    ensures Splice(b, lo, hi, s)[..lo] == b[..lo] && Splice(b, lo, hi, s)[hi..] == b[hi..]
    ensures Splice(b, lo, hi, b[lo..hi]) == b
  {
  }

  lemma SpliceAgain(b: seq<u8>, lo: nat, hi: nat, s: seq<u8>, t: seq<u8>)
    requires lo <= hi <= |b| && |s| == hi - lo == |t|
    ensures Splice(Splice(b, lo, hi, s), lo, hi, t) == Splice(b, lo, hi, t)
  {
  }

  /** Writing inside a slice of a buffer is writing to the slice. */
  lemma PutWordSlice(b: seq<u8>, lo: nat, hi: nat, i: nat, w: u16)
    requires lo + i + 1 < hi <= |b|
    ensures PutWord(b, lo + i, w) == Splice(b, lo, hi, PutWord(b[lo..hi], i, w))
  {
  }

  /** One 16-bit store inside `a[lo..hi]`. */
  method PutIn(a: array<u8>, lo: nat, hi: nat, i: nat, w: u16)
    requires lo + i + 1 < hi <= a.Length
    modifies a
    ensures a[..] == Splice(old(a[..]), lo, hi, PutWord(old(a[..])[lo..hi], i, w))
  {
    PutWordSlice(a[..], lo, hi, i, w);
    PutU16(a, lo + i, w);
  }

  method Store(a: array<u8>, lo: nat, s: seq<u8>)
    requires lo + |s| <= a.Length
    modifies a
    ensures a[..] == Splice(old(a[..]), lo, lo + |s|, s)
  {
    forall i | 0 <= i < |s| {
      a[lo + i] := s[i];
    }
  }

  /** Clears a checksum field, sums the slice and stores the complement. */
  method Seal(a: array<u8>, lo: nat, hi: nat, c: nat, psum: u16)
    requires lo + c + 1 < hi <= a.Length
    modifies a
    ensures a[..] == Splice(old(a[..]), lo, hi, Sealed(old(a[..])[lo..hi], c, psum))
  {
    hide PutWord, Checksum, Splice;
    ghost var was := a[..];
    ghost var seg := was[lo..hi];
    PutIn(a, lo, hi, c, 0);
    SpliceParts(was, lo, hi, PutWord(seg, c, 0));
    var sum := Checksum(a[..][lo..hi], psum);
    PutIn(a, lo, hi, c, Flip(sum));
    PutWordTwice(seg, c, 0, Flip(sum));
    SpliceAgain(was, lo, hi, PutWord(seg, c, 0), Sealed(seg, c, psum));
  }

  /** `rechecksum` on an IPv4 packet: both checksums, recomputed in place. */
  method Rechecksum(a: array<u8>)
    requires Shaped(a[..])
    modifies a
    ensures a[..] == Rechecked(old(a[..]))
  {
    hide PutWord, Checksum, Transport, PseudoSum, Pair, Sealed, Splice;
    ghost var was := a[..];
    var proto, h, t := a[9], a[0] as int % 16 * 4, Pair(a[2], a[3]);
    SegmentSize(proto, Payload(was));
    var psum := PseudoSum(proto, a[..][12..16], a[..][16..20], t - h);
    ghost var x := Sealed(was[0..h], 10, 0);
    Seal(a, 0, h, 10, 0);
    Seal(a, h, t, Field(proto), psum);
    SpliceTwo(was, h, t, x, Sealed(Payload(was), Field(proto), psum));
    assert was[0..h] == was[..h];
  }

  lemma SpliceTwo(b: seq<u8>, h: nat, t: nat, x: seq<u8>, y: seq<u8>)
    requires h <= t <= |b| && |x| == h && |y| == t - h
    ensures Splice(b, 0, h, x)[h..t] == b[h..t]
    ensures Splice(Splice(b, 0, h, x), h, t, y) == x + y + b[t..]
  {
  }

  /** A buffer and the slice of it that is the packet; the space before `head` is room for headers. */
  class Packet {
    const buf: array<u8>
    var head: nat
    const tail: nat

    ghost predicate Valid()
      reads this`head
    {
      head <= tail <= buf.Length
    }

    function Bytes(): seq<u8>
      requires Valid()
      reads this`head, buf
    {
      buf[..][head..tail]
    }

    constructor (buf: array<u8>, head: nat, tail: nat)
      requires head <= tail <= buf.Length
      ensures Valid() && this.buf == buf && this.head == head && this.tail == tail
    {
      this.buf, this.head, this.tail := buf, head, tail;
    }
  }

  /** Clearing the port and the checksum, then setting one and restoring the other, sets the one. */
  lemma RestoredPort(seg: seq<u8>, c: nat, w: u16)
    requires 2 <= c && c + 1 < |seg|
    ensures var blank := PutWord(PutWord(seg, 0, 0), c, 0);
            PutWord(PutWord(blank, c, w), 0, Word(seg, 0)) == PutWord(seg, c, w)
  {
    hide PutWord, Word;
    var done := PutWord(seg, c, w);
    PutWordTwice(PutWord(seg, 0, 0), c, 0, w);
    PutWordSwap(seg, 0, 0, c, w);
    PutWordTwice(done, 0, 0, Word(seg, 0));
    PutWordSwap(seg, c, w, 0, 0);
    PutWordTwice(done, 0, 0, 0);
  }

  /** The segment's part of Client: port and checksum cleared, the sum stored, the port restored. */
  method SumFromZero(a: array<u8>, lo: nat, hi: nat, proto: u8, dst: seq<u8>)
    requires lo <= hi <= a.Length && Transport(proto, a[..][lo..hi])
    modifies a
    ensures a[..] == Splice(old(a[..]), lo, hi, ClientSegment(proto, old(a[..])[lo..hi], dst))
  {
    hide PutWord, Checksum, PseudoSum, Pair, Splice, Transport;
    ghost var was := a[..];
    ghost var seg := was[lo..hi];
    SegmentSize(proto, seg);
    var srcPort, c := Pair(a[lo], a[lo + 1]), Field(proto);
    PutIn(a, lo, hi, 0, 0);
    ghost var s1 := PutWord(seg, 0, 0);
    SpliceParts(was, lo, hi, s1);
    PutIn(a, lo, hi, c, 0);
    ghost var s2 := PutWord(s1, c, 0);
    SpliceAgain(was, lo, hi, s1, s2);
    SpliceParts(was, lo, hi, s2);
    var sum := Checksum(a[..][lo..hi], PseudoSum(proto, ZERO4, dst, hi - lo));
    PutIn(a, lo, hi, c, Flip(sum));
    ghost var s3 := PutWord(s2, c, Flip(sum));
    SpliceAgain(was, lo, hi, s2, s3);
    SpliceParts(was, lo, hi, s3);
    PutIn(a, lo, hi, 0, srcPort);
    SpliceAgain(was, lo, hi, s3, PutWord(s3, 0, srcPort));
    RestoredPort(seg, c, Flip(sum));
  }

  /** `checksum.Client`: the segment summed as if sent from port 0 of 0.0.0.0, the header stripped. */
  method Client(p: Packet)
    requires p.Valid() && ClientInput(p.Bytes())
    modifies p, p.buf
    ensures p.Valid() && p.head == old(p.head) + HeaderLen(old(p.Bytes()))
    ensures p.buf[..] == old(p.buf[..])[..p.head] + ClientPacket(old(p.Bytes())) + old(p.buf[..])[p.tail..]
  {
    hide Transport, Pair, ClientSegment, Splice;
    ghost var was := p.Bytes();
    ghost var all := p.buf[..];
    var b, at := p.buf, p.head;
    var lo, hi := at + b[at] as int % 16 * 4, at + Pair(b[at + 2], b[at + 3]);
    var proto, dst := b[at + 9], b[..][at + 16..at + 20];
    SliceOfSlice(all, at, p.tail, hi - lo, lo - at);
    SliceOfSlice(all, at, p.tail, 4, 16);
    SumFromZero(b, lo, hi, proto, dst);
    SpliceInside(all, at, lo, hi, p.tail, ClientSegment(proto, Payload(was), dst));
    p.head := lo;
  }

  /** `checksum.Server`: checksum patched, source port set, an IPv4 header put in front. The caller has
      left room for the header; id is the next value of the process-wide counter. */
  method Server(p: Packet, down: Downlink, id: u16)
    requires p.Valid() && p.head >= 20 && ServerInput(p.Bytes(), down)
    modifies p, p.buf
    ensures p.Valid() && p.head == old(p.head) - 20
    ensures p.buf[..] == old(p.buf[..])[..p.head] + ServerPacket(old(p.Bytes()), down, id) + old(p.buf[..])[p.tail..]
  {
    hide Checksum, PutWord, Pair, Sealed, EncodedHeader, Splice;
    ghost var all, seg := p.buf[..], p.Bytes();
    var b, lo, c := p.buf, p.head, Field(down.proto);
    var src, dst := Bytes4(down.local.addr.bits4), Bytes4(down.server.addr.bits4);
    var sum := Combine(Checksum(src, down.local.port), Flip(Pair(b[lo + c], b[lo + c + 1])));
    PutIn(b, lo, p.tail, c, Flip(sum));
    ghost var s1 := PutWord(seg, c, Flip(sum));
    SpliceParts(all, lo, p.tail, s1);
    PutIn(b, lo, p.tail, 0, down.local.port);
    ghost var s2 := PutWord(s1, 0, down.local.port);
    SpliceAgain(all, lo, p.tail, s1, s2);
    var at := lo - 20;
    var hdr := EncodedHeader(0x0E, (p.tail - at) % 0x1_0000, id, down.proto, src, dst);
    Store(b, at, hdr);
    ghost var mid := Splice(all, lo, p.tail, s2);
    SpliceParts(mid, at, lo, hdr);
    Seal(b, at, lo, 10, 0);
    SpliceAgain(mid, at, lo, hdr, Sealed(hdr, 10, 0));
    p.head := at;
    SpliceBefore(all, at, lo, p.tail, Sealed(hdr, 10, 0), s2);
  }

  lemma SliceOfSlice(b: seq<u8>, at: nat, tail: nat, n: nat, i: nat)
    requires at + i + n <= tail <= |b|
    ensures b[at..tail][i..i + n] == b[at + i..at + i + n]
  {
    var x, y := b[at..tail][i..i + n], b[at + i..at + i + n];
    assert |x| == |y| == n && forall k :: 0 <= k < n ==> x[k] == y[k];
  }

  lemma SpliceInside(b: seq<u8>, at: nat, lo: nat, hi: nat, tail: nat, s: seq<u8>)
    requires at <= lo <= hi <= tail <= |b| && |s| == hi - lo
    ensures Splice(b, lo, hi, s) == b[..lo] + (s + b[at..tail][hi - at..]) + b[tail..]
  {
  }

  lemma SpliceBefore(b: seq<u8>, at: nat, lo: nat, hi: nat, s: seq<u8>, t: seq<u8>)
    requires at <= lo <= hi <= |b| && |s| == lo - at && |t| == hi - lo
    ensures Splice(Splice(b, lo, hi, t), at, lo, s) == b[..at] + (s + t) + b[hi..]
  {
  }

  /** What the client hands the process for a segment it received: a header in front, both checksums summed. */
  function ReplyPacket(seg: seq<u8>, proto: u8, src: seq<u8>, dst: seq<u8>): seq<u8>
    requires Transport(proto, seg) && |seg| + 20 < 0x1_0000 && |src| == 4 == |dst|
  {
    Rechecked(EncodedHeader(0, |seg| + 20, 0, proto, src, dst) + seg)
  }

  lemma ReplyShaped(seg: seq<u8>, proto: u8, src: seq<u8>, dst: seq<u8>)
    requires Transport(proto, seg) && |seg| + 20 < 0x1_0000 && |src| == 4 == |dst|
    ensures var b := EncodedHeader(0, |seg| + 20, 0, proto, src, dst) + seg;
            && |b| == |seg| + 20 && HeaderLen(b) == 20 && Word(b, 2) == |b| && b[9] == proto
            && b[12..16] == src && b[16..20] == dst && b[20..] == seg && Shaped(b) && b[0] == 0x45
            && ReplyPacket(seg, proto, src, dst)
               == Sealed(EncodedHeader(0, |seg| + 20, 0, proto, src, dst), 10, 0)
                  + Sealed(seg, Field(proto), PseudoSum(proto, src, dst, |seg|))
  {
    hide Checksum, PutWord, PseudoSum, Pair, Sealed, Transport;
    var e := EncodedHeader(0, |seg| + 20, 0, proto, src, dst);
    var b := e + seg;
    assert b[..20] == e && b[20..] == seg && b[12..16] == e[12..16] && b[16..20] == e[16..];
    assert b[2] == e[2] && b[3] == e[3] && b[0] == e[0] == 0x45 && b[9] == e[9];
    assert Payload(b) == seg && b[|b|..] == [];
  }

  /** The client's side of a reply: the header encoded in front of the segment, then `rechecksum`. */
  method Reply(p: Packet, proto: u8, src: seq<u8>, dst: seq<u8>)
    requires p.Valid() && p.head >= 20 && Transport(proto, p.Bytes()) && |p.Bytes()| + 20 < 0x1_0000
    requires |src| == 4 == |dst|
    modifies p, p.buf
    ensures p.Valid() && p.head == old(p.head) - 20
    ensures var was := old(p.buf[..]);
            p.buf[..] == was[..p.head] + ReplyPacket(old(p.Bytes()), proto, src, dst) + was[p.tail..]
  {
    hide Checksum, PutWord, Pair, Sealed, EncodedHeader, Splice, PseudoSum, Transport, ReplyPacket;
    ghost var all, seg := p.buf[..], p.Bytes();
    var b, lo := p.buf, p.head;
    var at := lo - 20;
    SegmentSize(proto, seg);
    ReplyShaped(seg, proto, src, dst);
    var hdr := EncodedHeader(0, p.tail - at, 0, proto, src, dst);
    Store(b, at, hdr);
    SpliceParts(all, at, lo, hdr);
    Seal(b, at, lo, 10, 0);
    SpliceAgain(all, at, lo, hdr, Sealed(hdr, 10, 0));
    ghost var mid := Splice(all, at, lo, Sealed(hdr, 10, 0));
    SpliceBehind(all, at, lo, p.tail, Sealed(hdr, 10, 0));
    Seal(b, lo, p.tail, Field(proto), PseudoSum(proto, src, dst, p.tail - lo));
    p.head := at;
    SpliceAfter(all, at, lo, p.tail, Sealed(hdr, 10, 0), Sealed(seg, Field(proto), PseudoSum(proto, src, dst, |seg|)));
  }

  lemma SpliceBehind(b: seq<u8>, at: nat, lo: nat, hi: nat, s: seq<u8>)
    requires at <= lo <= hi <= |b| && |s| == lo - at
    ensures Splice(b, at, lo, s)[lo..hi] == b[lo..hi]
  {
  }

  lemma SpliceAfter(b: seq<u8>, at: nat, lo: nat, hi: nat, s: seq<u8>, t: seq<u8>)
    requires at <= lo <= hi <= |b| && |s| == lo - at && |t| == hi - lo
    ensures Splice(Splice(b, at, lo, s), lo, hi, t) == b[..at] + (s + t) + b[hi..]
  {
  }

  // Replies

  datatype StripError = NotIPv4 | OtherProtocol

  /** What `StripIP` can read without a panic. */
  predicate Readable(b: seq<u8>) {
    b != [] && b[0] as int / 16 == 4 ==>
      |b| >= 20 && (b[9] == TCP || b[9] == UDP ==> HeaderLen(b) + 4 <= Word(b, 2) <= |b|)
  }

  /** The link a datagram from outside belongs to: its source is the server, its destination is us. */
  function Strip(b: seq<u8>): Result<Downlink, StripError>
    requires Readable(b)
  {
    if b == [] || b[0] as int / 16 != 4 then Err(NotIPv4)
    else if b[9] != TCP && b[9] != UDP then Err(OtherProtocol)
    else
      var t := Payload(b);
      Ok(Downlink(AddrPort(Addr4(b[12..16]), Word(t, 0)), b[9], AddrPort(Addr4(b[16..20]), Word(t, 2))))
  }

  /** `links.StripIP`. */
  method StripIP(p: Packet) returns (r: Result<Downlink, StripError>)
    requires p.Valid() && Readable(p.Bytes())
    modifies p`head
    ensures r == Strip(old(p.Bytes()))
    ensures p.head == if r.Ok? then old(p.head) + HeaderLen(old(p.Bytes())) else old(p.head)
    ensures p.Valid()
  {
    hide Addr4, Pair;
    var b := p.Bytes();
    if b == [] || b[0] as int / 16 != 4 {
      return Err(NotIPv4);
    }
    if b[9] != TCP && b[9] != UDP {
      return Err(OtherProtocol);
    }
    var t := Payload(b);
    p.head := p.head + HeaderLen(b);
    var server, local := AddrPort(Addr4(b[12..16]), Pair(t[0], t[1])), AddrPort(Addr4(b[16..20]), Pair(t[2], t[3]));
    return Ok(Downlink(server, b[9], local));
  }

  /** r answers ip: addresses and ports swapped, same protocol, whatever else it holds. */
  predicate AnswerTo(r: seq<u8>, ip: seq<u8>) {
    && Readable(r) && r != [] && r[0] as int / 16 == 4 && |ip| >= 24
    && r[9] == ip[9] && (r[9] == TCP || r[9] == UDP)
    && r[12..16] == ip[16..20] && r[16..20] == ip[12..16]
    && Word(Payload(r), 0) == Word(ip[20..], 2) && Word(Payload(r), 2) == Word(ip[20..], 0)
  }

  /** A packet sent straight back: addresses and ports exchanged, everything else as it came. */
  function Mirror(ip: seq<u8>): (r: seq<u8>)
    requires |ip| >= 24
    ensures |r| == |ip|
  {
    ip[..12] + ip[16..20] + ip[12..16] + ip[22..24] + ip[20..22] + ip[24..]
  }

  /** Every packet Server builds can be answered. */
  lemma MirrorAnswers(seg: seq<u8>, down: Downlink, id: u16)
    requires ServerInput(seg, down) && |seg| + 20 < 0x1_0000
    ensures AnswerTo(Mirror(ServerPacket(seg, down, id)), ServerPacket(seg, down, id))
  {
    hide Checksum, PutWord, Combine, Bytes4, Pair, Sealed, ServerSegment;
    var ip := ServerPacket(seg, down, id);
    var src, dst := Bytes4(down.local.addr.bits4), Bytes4(down.server.addr.bits4);
    var h := EncodedHeader(0x0E, (|seg| + 20) % 0x1_0000, id, down.proto, src, dst);
    assert ip[..20] == Sealed(h, 10, 0);
    SealedElsewhere(h, 10, 0);
    HeaderFields(h, ip);
    assert ip[0] == ip[..20][0] == h[0] == 0x45;
    ServerLength(seg, down);
    MirrorSwaps(ip);
  }

  lemma MirrorSwaps(ip: seq<u8>)
    requires |ip| >= 28 && ip[0] == 0x45 && (ip[9] == TCP || ip[9] == UDP) && Word(ip, 2) == |ip|
    ensures AnswerTo(Mirror(ip), ip)
  {
    hide Pair;
    var r := Mirror(ip);
    assert r[12..16] == ip[16..20] && r[16..20] == ip[12..16];
    assert r[0] == ip[0] && r[2] == ip[2] && r[3] == ip[3] && r[9] == ip[9];
    assert r[20] == ip[22] && r[21] == ip[23] && r[22] == ip[20] && r[23] == ip[21];
    assert Payload(r) == r[20..] by { assert Word(r, 2) == |r|; }
  }

  lemma ServerLength(seg: seq<u8>, down: Downlink)
    requires ServerInput(seg, down)
    ensures |ServerSegment(down.proto, seg, Bytes4(down.local.addr.bits4), down.local.port)| == |seg|
  {
  }

  /** Byte for byte, an answer to what the server sent through a link strips to that link's own key. */
  lemma AnswerFindsLink(seg: seq<u8>, down: Downlink, id: u16, r: seq<u8>)
    requires ServerInput(seg, down) && Word(seg, 2) == down.server.port
    requires AnswerTo(r, ServerPacket(seg, down, id))
    ensures Strip(r) == Ok(down)
  {
    hide Checksum, Sealed, Pair, Bytes4, Addr4, PutWord, Combine;
    var ip := ServerPacket(seg, down, id);
    var src, dst := Bytes4(down.local.addr.bits4), Bytes4(down.server.addr.bits4);
    var h := EncodedHeader(0x0E, (|seg| + 20) % 0x1_0000, id, down.proto, src, dst);
    assert ip[..20] == Sealed(h, 10, 0);
    HeaderFields(h, ip);
    PortsOfSegment(seg, down);
    assert ip[20..] == ServerSegment(down.proto, seg, src, down.local.port);
    Addr4Bytes(down.local.addr.bits4);
    Addr4Bytes(down.server.addr.bits4);
  }

  lemma PortsOfSegment(seg: seq<u8>, down: Downlink)
    requires ServerInput(seg, down)
    ensures var s := ServerSegment(down.proto, seg, Bytes4(down.local.addr.bits4), down.local.port);
            Word(s, 0) == down.local.port && Word(s, 2) == Word(seg, 2)
  {
    hide Checksum, Pair;
  }
}
