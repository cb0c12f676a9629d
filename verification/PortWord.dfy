/** `maps.port`: one 64-bit word, the port in the top 16 bits and a hit counter in the low 48. */
module PortWord {
  import opened Net

  const LOW: int := 0x1_0000_0000_0000
  type u64 = x: int | 0 <= x < 0x1_0000_0000_0000_0000

  function Pack(p: u16): u64 { p * LOW }
  function Top(w: u64): u16 { w / LOW }
  function Hits(w: u64): nat { w % LOW }

  /** One atomic `Add(1)`, wrapping at 64 bits. */
  function Bump(w: u64): u64 { (w + 1) % 0x1_0000_0000_0000_0000 }

  /** What one `Port` call leaves behind: the port survives exactly while the counter has room. */
  lemma BumpExact(w: u64)
    ensures Top(Bump(w)) == Top(w) <==> Hits(w) + 1 < LOW
    ensures Hits(w) + 1 < LOW ==> Hits(Bump(w)) == Hits(w) + 1
    ensures Top(w) == w / 281474976710656 && Hits(w) == w % 281474976710656 && 0x1_0000 * LOW == 18446744073709551616
  {
    assert w == Top(w) * LOW + Hits(w);
    if Hits(w) + 1 < LOW {
      assert (w + 1) / LOW == Top(w);
    } else {
      assert w + 1 == (Top(w) + 1) * LOW;
    }
  }

  function Bumps(w: u64, n: nat): u64 {
    if n == 0 then w else Bump(Bumps(w, n - 1))
  }

  /** After an idle check, n further `Port` calls (n below 2^48) all return the port, and the
      next check finds the word idle exactly when n is zero. */
  lemma {:induction false} PortSurvives(p: u16, n: nat)
    requires n < LOW
    ensures Top(Bumps(Pack(p), n)) == p
    ensures Hits(Bumps(Pack(p), n)) == n
  {
    if n > 0 {
      PortSurvives(p, n - 1);
      BumpExact(Bumps(Pack(p), n - 1));
    }
  }

  /** 2^48 calls with no idle check in between hand out another port. */
  lemma PortOverflows(p: u16)
    ensures Top(Bumps(Pack(p), LOW)) != p
  {
    PortSurvives(p, LOW - 1);
    BumpExact(Bumps(Pack(p), LOW - 1));
  }

  class Port {
    var word: u64

    constructor (p: u16)
      ensures Top(word) == p && Hits(word) == 0
    {
      word := Pack(p);
    }

    /** Reports whether no `GetPort` happened since the last check, and clears the counter. */
    method Idle() returns (idle: bool)
      modifies this
      ensures idle <==> Hits(old(word)) == 0
      ensures Top(word) == Top(old(word)) && Hits(word) == 0
    {
      var d := word;
      word := (d / LOW) * LOW;
      return d % LOW == 0;
    }

    method GetPort() returns (p: u16)
      modifies this
      ensures word == Bump(old(word)) && p == Top(word)
      ensures p == Top(old(word)) <==> Hits(old(word)) + 1 < LOW
      ensures Hits(old(word)) + 1 < LOW ==> Hits(word) == Hits(old(word)) + 1
    {
      BumpExact(word);
      word := Bump(word);
      p := Top(word);
    }
  }
}
