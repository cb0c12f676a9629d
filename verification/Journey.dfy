/** There and back: a process's packet through client, server and remote, and the answer the process gets. */
module Journey {
  import opened Net
  import opened InternetSum
  import opened LinkTable
  import opened SplitChecksum
  import opened Packets
  import opened Wire
  import opened NatServers

  /** What a remote sends back: from and to exchanged, the same protocol, anything else as it likes. */
  predicate Answers(r: seq<u8>, rh: nat, at: nat, ip: seq<u8>) {
    && Carries(r, rh, |r|, at) && r[0] as int / 16 == 4 && |ip| >= 24
    && r[9] == ip[9] && r[12..16] == ip[16..20] && r[16..20] == ip[12..16]
    && r[rh] == ip[22] && r[rh + 1] == ip[23] && r[rh + 2] == ip[20] && r[rh + 3] == ip[21]
  }

  /** The server finds the link by the answer's own bytes, whatever else they are. */
  lemma AnswerNamesLink(b: seq<u8>, h: nat, at: nat, down: Downlink, id: u16, r: seq<u8>, rh: nat)
    requires Carries(b, h, |b|, at) && b[0] as int / 16 == 4
    requires down.proto == b[9] && down.local.addr.V4? && down.server.addr.V4?
    requires Big4(b[16..20], down.server.addr.bits4)
    requires down.server.port == 256 * b[h + 2] as int + b[h + 3] as int
    requires ClientInput(b) && ServerInput(ClientPacket(b), down)
    requires Answers(r, rh, at, ServerPacket(ClientPacket(b), down, id))
    ensures Told(r, rh) == down
  {
    hide ClientPacket, ServerPacket, Shaped, Transport, Complements, ServerInput, Zeroed;
    var ip := ServerPacket(ClientPacket(b), down, id);
    PacketBytes(b, h, at, down, id);
    assert ip[22] == ip[20..][2] == b[h..][2] == b[h + 2];
    assert ip[23] == ip[20..][3] == b[h..][3] == b[h + 3];
    NumberBig(r[16..20], down.local.addr.bits4);
    NumberBig(r[12..16], down.server.addr.bits4);
  }

  lemma NumberBig(s: seq<u8>, a: u32)
    requires Big4(s, a)
    ensures Number(s) == a
  {
  }

  /** The process gets an answer from the very address and port it sent to, at the port it sent from, with the
      answer's own payload and with checksums that verify, when the server found the link and the client hands
      on what it received. */
  lemma ThereAndBack(b: seq<u8>, h: nat, at: nat, r: seq<u8>, rh: nat, ip: seq<u8>, out: seq<u8>, back: seq<u8>)
    requires Carries(b, h, |b|, at) && |ip| >= 24 && SameBut(b[h..], ip[20..], 0, at) && ip[9] == b[9]
    requires Answers(r, rh, at, ip) && |r| - rh + 20 < 0x1_0000
    requires Readdressed(r[rh..], out, 256 * b[h] as int + b[h + 1] as int)
    requires |out| == |r| - rh && Transport(b[9], out) && back == ReplyPacket(out, b[9], b[16..20], b[12..16])
    ensures |back| == 20 + |r| - rh && Carries(back, 20, |back|, at) && back[0] == 0x45 && back[9] == b[9]
    ensures back[12..16] == b[16..20] && back[16..20] == b[12..16]
    ensures back[20] == b[h + 2] && back[21] == b[h + 3] && back[22] == b[h] && back[23] == b[h + 1]
    ensures SameBut(r[rh..], back[20..], 2, at)
    ensures Complements(back[10], back[11], Sum(Zeroed(back[..20], 10)))
    ensures Complements(back[20 + at], back[20 + at + 1],
                        Sum(Zeroed(back[20..], at)) + Words4(b[12..16]) + Words4(b[16..20]) + |back| - 20 + b[9] as int)
  {
    hide Complements, Zeroed, Words4, Transport, Rechecked, Sum, SameBut, Answers, Readdressed, EncodedHeader, Sealed;
    var sent := Sent(b, h, at, out);
    RecheckedBytes(sent, 20, |sent|, at);
    BackBytes(b, h, at, r, rh, ip, out, sent, back);
    assert back[20..|sent|] == back[20..];
    assert Words4(sent[12..16]) + Words4(sent[16..20]) == Words4(b[12..16]) + Words4(b[16..20]);
    assert Sum(Zeroed(back[20..], at)) + Words4(sent[12..16]) + Words4(sent[16..20]) + |sent| - 20 + sent[9] as int
           == Sum(Zeroed(back[20..], at)) + Words4(b[12..16]) + Words4(b[16..20]) + |back| - 20 + b[9] as int;
  }

  /** What the client's rechecksum is given. */
  lemma Sent(b: seq<u8>, h: nat, at: nat, out: seq<u8>) returns (sent: seq<u8>)
    requires Carries(b, h, |b|, at) && Transport(b[9], out) && |out| + 20 < 0x1_0000
    ensures sent == EncodedHeader(0, |out| + 20, 0, b[9], b[16..20], b[12..16]) + out
    ensures |sent| == |out| + 20 && sent[20..] == out && Carries(sent, 20, |sent|, at) && sent[0] == 0x45
    ensures sent[9] == b[9] && sent[12..16] == b[16..20] && sent[16..20] == b[12..16]
  {
    hide Rechecked, EncodedHeader, Sealed;
    sent := EncodedHeader(0, |out| + 20, 0, b[9], b[16..20], b[12..16]) + out;
    ReplyShaped(out, b[9], b[16..20], b[12..16]);
    TotalLength(sent);
  }

  lemma BackBytes(b: seq<u8>, h: nat, at: nat, r: seq<u8>, rh: nat, ip: seq<u8>, out: seq<u8>, sent: seq<u8>,
                  back: seq<u8>)
    requires Carries(b, h, |b|, at) && |ip| >= 24 && SameBut(b[h..], ip[20..], 0, at)
    requires Answers(r, rh, at, ip) && Readdressed(r[rh..], out, 256 * b[h] as int + b[h + 1] as int)
    requires |sent| == |out| + 20 && sent[20..] == out && Carries(sent, 20, |sent|, at) && sent[0] == 0x45
    requires sent[9] == b[9] && sent[12..16] == b[16..20] && sent[16..20] == b[12..16]
    requires SameBut(sent, back, 10, 20 + at)
    ensures Carries(back, 20, |back|, at) && back[0] == 0x45 && back[9] == b[9]
    ensures back[12..16] == b[16..20] && back[16..20] == b[12..16] && |back| == 20 + |r| - rh
    ensures back[20] == b[h + 2] && back[21] == b[h + 3] && back[22] == b[h] && back[23] == b[h + 1]
    ensures SameBut(r[rh..], back[20..], 2, at)
  {
    assert forall j :: 12 <= j < 20 ==> back[j] == sent[j];
    assert back[12..16] == sent[12..16] && back[16..20] == sent[16..20];
    forall j | 0 <= j < |out| && j != at && j != at + 1 ensures back[20..][j] == out[j] {
      assert back[20 + j] == sent[20 + j] == sent[20..][j];
    }
    assert ip[22] == ip[20..][2] == b[h..][2] == b[h + 2] && ip[23] == ip[20..][3] == b[h..][3] == b[h + 3];
    assert out[0] == r[rh..][0] == ip[22] && out[1] == r[rh..][1] == ip[23];
    assert 256 * out[2] as int + out[3] as int == 256 * b[h] as int + b[h + 1] as int;
    assert forall j :: 0 <= j < 4 ==> back[20 + j] == back[20..][j];
  }
}
