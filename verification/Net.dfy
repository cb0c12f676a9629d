/** Addresses, ports and protocol numbers, with the order `netip.Addr.Less` puts on addresses. */
module Net {
  type u8 = x: int | 0 <= x < 0x100
  type u16 = x: int | 0 <= x < 0x1_0000
  type u32 = x: int | 0 <= x < 0x1_0000_0000
  type u128 = x: int | 0 <= x < 0x1_0000_0000_0000_0000_0000_0000_0000_0000

  const TCP: u8 := 6
  const UDP: u8 := 17

  datatype Option<+T> = None | Some(value: T)
  datatype Result<+T, +E> = Ok(value: T) | Err(error: E)

  /** `netip.Addr`: the zero value is not a valid address. */
  datatype Addr = NoAddr | V4(bits4: u32) | V6(bits6: u128, zone: string) {
    predicate IsValid() { !NoAddr? }

    function BitLen(): int {
      match this
      case NoAddr => 0
      case V4(_) => 32
      case V6(_, _) => 128
    }
  }

  datatype AddrPort = AddrPort(addr: Addr, port: u16) {
    predicate IsValid() { addr.IsValid() }
  }

  /** The header length of an IPv4 packet, as its first byte states it. */
  function HeaderLen(b: seq<u8>): nat
    requires |b| > 0
  {
    b[0] as int % 16 * 4
  }

  predicate StringLess(a: string, b: string) {
    if b == [] then false
    else if a == [] then true
    else a[0] < b[0] || (a[0] == b[0] && StringLess(a[1..], b[1..]))
  }

  predicate AddrLess(a: Addr, b: Addr) {
    if a.BitLen() != b.BitLen() then a.BitLen() < b.BitLen()
    else match a
      case NoAddr => false
      case V4(x) => x < b.bits4
      case V6(x, z) => if x != b.bits6 then x < b.bits6 else StringLess(z, b.zone)
  }

  /** The order `AddrSet` keeps its entries in. */
  predicate Less(a: AddrPort, b: AddrPort) {
    if a.addr != b.addr then AddrLess(a.addr, b.addr) else a.port < b.port
  }

  lemma {:induction false} StringLessTotal(a: string, b: string)
    ensures a == b || StringLess(a, b) || StringLess(b, a)
    ensures !(StringLess(a, b) && StringLess(b, a))
    ensures !StringLess(a, a)
  {
    if a != [] {
      StringLessTotal(a[1..], a[1..]);
      if b != [] && a[0] == b[0] {
        StringLessTotal(a[1..], b[1..]);
        assert a == [a[0]] + a[1..] && b == [b[0]] + b[1..];
      }
    }
  }

  lemma {:induction false} StringLessTransitive(a: string, b: string, c: string)
    requires StringLess(a, b) && StringLess(b, c)
    ensures StringLess(a, c)
  {
    if a != [] && a[0] == b[0] == c[0] {
      StringLessTransitive(a[1..], b[1..], c[1..]);
    }
  }

  /** `less` is a strict total order, so a sorted address list is determined by its elements. */
  lemma LessTotal(a: AddrPort, b: AddrPort)
    ensures a == b || Less(a, b) || Less(b, a)
    ensures !(Less(a, b) && Less(b, a))
    ensures !Less(a, a)
  {
    if a.addr.V6? && b.addr.V6? {
      StringLessTotal(a.addr.zone, b.addr.zone);
    }
  }

  lemma LessTransitive(a: AddrPort, b: AddrPort, c: AddrPort)
    requires Less(a, b) && Less(b, c)
    ensures Less(a, c)
  {
    if a.addr.V6? && b.addr.V6? && c.addr.V6? {
      StringLessTotal(a.addr.zone, b.addr.zone);
      StringLessTotal(b.addr.zone, c.addr.zone);
      if StringLess(a.addr.zone, b.addr.zone) && StringLess(b.addr.zone, c.addr.zone) {
        StringLessTransitive(a.addr.zone, b.addr.zone, c.addr.zone);
        StringLessTotal(a.addr.zone, c.addr.zone);
      }
    }
  }
}
