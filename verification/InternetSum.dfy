/** The Internet checksum of RFC 1071: 16-bit big-endian words added with end-around carry, an odd last
    byte padded with zero. */
module InternetSum {
  import opened Net

  /** End-around-carry addition. */
  function Combine(a: u16, b: u16): u16 {
    if a + b >= 0x1_0000 then a + b - 0xFFFF else a + b
  }

  /** The one's complement `^a`. */
  function Flip(a: u16): u16 { 0xFFFF - a }

  /** A big-endian word. */
  function Pair(hi: u8, lo: u8): u16 { 256 * (hi as int) + lo as int }

  function Checksum(b: seq<u8>, init: u16): u16 {
    if |b| == 0 then init
    else if |b| == 1 then Combine(init, Pair(b[0], 0))
    else Checksum(b[2..], Combine(init, Pair(b[0], b[1])))
  }

  // The same sum as plain arithmetic

  /** The byte at offset i counts 256 times as much when i is even. */
  function Weight(i: nat, x: u8): nat { if i % 2 == 0 then 256 * (x as int) else x }

  function Sum(b: seq<u8>): nat {
    if b == [] then 0 else Sum(b[..|b| - 1]) + Weight(|b| - 1, b[|b| - 1])
  }

  /** The 16-bit representative of a sum: 0 only for 0, otherwise 1 to 0xffff. */
  function Fold(n: nat): u16 { if n == 0 then 0 else (n - 1) % 0xFFFF + 1 }

  lemma FoldMeaning(n: nat)
    ensures Fold(n) % 0xFFFF == n % 0xFFFF
    ensures Fold(n) == 0 <==> n == 0
    ensures Fold(n) == 0xFFFF <==> n != 0 && n % 0xFFFF == 0
  {
  }

  lemma FoldSame(a: nat, b: nat)
    requires a % 0xFFFF == b % 0xFFFF && (a == 0 <==> b == 0)
    ensures Fold(a) == Fold(b)
  {
    FoldMeaning(a);
    FoldMeaning(b);
  }

  lemma FoldFold(a: nat, b: nat)
    ensures Fold(Fold(a) + b) == Fold(a + b)
  {
    FoldMeaning(a);
    assert (Fold(a) + b) % 0xFFFF == (a + b) % 0xFFFF;
    FoldSame(Fold(a) + b, a + b);
  }

  lemma FoldSmall(a: u16)
    ensures Fold(a) == a
  {
  }

  /** Folding drops a whole number of 0xffff. */
  lemma FoldSteps(n: nat) returns (q: nat)
    ensures n == Fold(n) + 0xFFFF * q
  {
    q := if n == 0 then 0 else (n - 1) / 0xFFFF;
  }

  lemma Shift(n: int, q: int)
    ensures (n + 0xFFFF * q) % 0xFFFF == n % 0xFFFF
  {
  }

  lemma FoldCancel(n: nat)
    ensures (n + 0xFFFF - Fold(n)) % 0xFFFF == 0
  {
    var q := FoldSteps(n);
    Shift(0, q + 1);
  }

  lemma CombineFold(a: u16, b: u16)
    ensures Combine(a, b) == Fold(a + b)
  {
  }

  lemma {:induction false} SumConcat(a: seq<u8>, b: seq<u8>)
    requires |a| % 2 == 0
    ensures Sum(a + b) == Sum(a) + Sum(b)
  {
    if b == [] {
      assert a + b == a;
    } else {
      assert (a + b)[..|a + b| - 1] == a + b[..|b| - 1];
      SumConcat(a, b[..|b| - 1]);
    }
  }

  lemma {:induction false} SumUpdate(b: seq<u8>, i: nat, x: u8)
    requires i < |b|
    ensures Sum(b[i := x]) == Sum(b) - Weight(i, b[i]) + Weight(i, x)
  {
    var last := |b| - 1;
    if i == last {
      assert b[i := x][..last] == b[..last];
    } else {
      assert b[i := x][..last] == b[..last][i := x];
      SumUpdate(b[..last], i, x);
    }
  }

  lemma SumPair(hi: u8, lo: u8)
    ensures Sum([hi, lo]) == Pair(hi, lo)
  {
    assert [hi, lo][..1] == [hi] && [hi][..0] == [];
    assert Sum([hi]) == Weight(0, hi) && Weight(1, lo) == lo;
  }

  /** The word-by-word loop and the arithmetic agree. */
  lemma {:induction false} ChecksumFold(b: seq<u8>, init: u16)
    ensures Checksum(b, init) == Fold(Sum(b) + init)
    decreases |b|
  {
    hide Fold, Combine;
    FoldSmall(init);
    if |b| == 1 {
      assert b[..0] == [];
      CombineFold(init, Pair(b[0], 0));
    } else if |b| > 1 {
      var w := Pair(b[0], b[1]);
      CombineFold(init, w);
      ChecksumFold(b[2..], Combine(init, w));
      assert b == b[..2] + b[2..];
      SumConcat(b[..2], b[2..]);
      SumPair(b[0], b[1]);
      assert b[..2] == [b[0], b[1]];
      assert Sum(b) == w + Sum(b[2..]);
      FoldFold(init + w, Sum(b[2..]));
    }
  }

  /** What bytes add to the sum when they follow n others: after an odd count they start mid-word. */
  function SumAfter(n: nat, b: seq<u8>): nat {
    if n % 2 == 0 then Sum(b) else Sum([0] + b)
  }

  lemma SumAppend(a: seq<u8>, b: seq<u8>)
    ensures Sum(a + b) == Sum(a) + SumAfter(|a|, b)
  {
    if |a| % 2 == 0 {
      SumConcat(a, b);
    } else {
      var m := |a| - 1;
      assert a + b == a[..m] + ([a[m]] + b);
      SumConcat(a[..m], [a[m]] + b);
      SumUpdate([a[m]] + b, 0, 0);
      assert ([a[m]] + b)[0 := 0] == [0] + b;
      assert a == a[..m] + [a[m]];
    }
  }

  /** A sum may be split at any even offset. */
  lemma ChecksumSplit(a: seq<u8>, b: seq<u8>, init: u16)
    requires |a| % 2 == 0
    ensures Checksum(a + b, init) == Checksum(b, Checksum(a, init))
  {
    hide Fold, Sum, Checksum;
    ChecksumFold(a + b, init);
    ChecksumFold(a, init);
    ChecksumFold(b, Checksum(a, init));
    SumConcat(a, b);
    FoldFold(Sum(a) + init, Sum(b));
  }

  // Words in a buffer

  function Word(b: seq<u8>, i: nat): u16
    requires i + 1 < |b|
  {
    Pair(b[i], b[i + 1])
  }

  function PutWord(b: seq<u8>, i: nat, w: u16): (r: seq<u8>)
    requires i + 1 < |b|
    ensures |r| == |b| && Word(r, i) == w
    ensures forall j :: 0 <= j < |b| && j != i && j != i + 1 ==> r[j] == b[j]
  {
    b[i := w / 256][i + 1 := w % 256]
  }

  /** `binary.BigEndian.PutUint16`. */
  method PutU16(a: array<u8>, i: nat, w: u16)
    requires i + 1 < a.Length
    modifies a
    ensures a[..] == PutWord(old(a[..]), i, w)
  {
    a[i], a[i + 1] := w / 256, w % 256;
  }

  /** What a word at offset i adds to the sum: its bytes swapped when i is odd. */
  function Share(i: nat, w: u16): nat {
    if i % 2 == 0 then w else Pair(w % 256, w / 256)
  }

  lemma ShareWeights(i: nat, hi: u8, lo: u8)
    ensures Share(i, Pair(hi, lo)) == Weight(i, hi) + Weight(i + 1, lo)
  {
  }

  lemma PairBytes(hi: u8, lo: u8)
    ensures Pair(hi, lo) / 256 == hi && Pair(hi, lo) % 256 == lo
  {
  }

  lemma WordBytes(w: u16)
    ensures Pair(w / 256, w % 256) == w
  {
  }

  lemma SumPutWord(b: seq<u8>, i: nat, w: u16)
    requires i + 1 < |b|
    ensures Share(i, Word(b, i)) <= Sum(b)
    ensures Sum(PutWord(b, i, w)) == Sum(b) - Share(i, Word(b, i)) + Share(i, w)
  {
    hide Sum, Weight, Share;
    SumUpdate(b, i, w / 256);
    SumUpdate(b[i := w / 256], i + 1, w % 256);
    SumUpdate(b, i, 0);
    SumUpdate(b[i := 0], i + 1, 0);
    ShareWeights(i, b[i], b[i + 1]);
    ShareWeights(i, w / 256, w % 256);
    ShareWeights(i, 0, 0);
    WordBytes(w);
    WordBytes(0);
    ShareZero(i);
  }

  lemma ShareZero(i: nat)
    ensures Share(i, 0) == 0
  {
  }

  lemma PutWordTwice(b: seq<u8>, i: nat, v: u16, w: u16)
    requires i + 1 < |b|
    ensures PutWord(PutWord(b, i, v), i, w) == PutWord(b, i, w)
    ensures PutWord(b, i, Word(b, i)) == b
  {
    hide Pair;
    PairBytes(b[i], b[i + 1]);
  }

  lemma PutWordSwap(b: seq<u8>, i: nat, v: u16, j: nat, w: u16)
    requires i + 1 < |b| && j + 1 < |b| && (i + 1 < j || j + 1 < i)
    ensures PutWord(PutWord(b, i, v), j, w) == PutWord(PutWord(b, j, w), i, v)
    ensures Word(PutWord(b, i, v), j) == Word(b, j)
  {
  }

  // Checksum fields

  /** A receiver accepts bytes whose words, with the pseudo-header, sum to minus zero. */
  predicate Verifies(b: seq<u8>, psum: u16) { Checksum(b, psum) == 0xFFFF }

  lemma VerifiesSum(b: seq<u8>, psum: u16)
    ensures Verifies(b, psum) <==> Sum(b) + psum != 0 && (Sum(b) + psum) % 0xFFFF == 0
  {
    hide Fold, Sum, Checksum;
    ChecksumFold(b, psum);
    FoldMeaning(Sum(b) + psum);
  }

  /** The bytes with their checksum, computed as RFC 1071 says, stored at offset c. */
  function Sealed(b: seq<u8>, c: nat, psum: u16): (r: seq<u8>)
    requires c + 1 < |b|
    ensures |r| == |b|
  {
    PutWord(b, c, Flip(Checksum(PutWord(b, c, 0), psum)))
  }

  lemma SealedElsewhere(b: seq<u8>, c: nat, psum: u16)
    requires c + 1 < |b|
    ensures |Sealed(b, c, psum)| == |b|
    ensures forall j :: 0 <= j < |b| && j != c && j != c + 1 ==> Sealed(b, c, psum)[j] == b[j]
  {
  }

  lemma SealedVerifies(b: seq<u8>, c: nat, psum: u16)
    requires c + 1 < |b| && c % 2 == 0
    ensures Verifies(Sealed(b, c, psum), psum)
  {
    hide Fold, Sum, Checksum, PutWord;
    var zero := PutWord(b, c, 0);
    var w := Flip(Checksum(zero, psum));
    ChecksumFold(zero, psum);
    FoldMeaning(Sum(zero) + psum);
    SumPutWord(zero, c, w);
    PutWordTwice(b, c, 0, w);
    VerifiesSum(Sealed(b, c, psum), psum);
    FoldCancel(Sum(zero) + psum);
  }

  /** `header.PseudoHeaderChecksum`. */
  function PseudoSum(proto: u8, src: seq<u8>, dst: seq<u8>, len: u16): u16 {
    Combine(Combine(Checksum(dst, Checksum(src, 0)), len), proto)
  }

  lemma PseudoFold(proto: u8, src: seq<u8>, dst: seq<u8>, len: u16)
    ensures PseudoSum(proto, src, dst, len) == Fold(Sum(src) + Sum(dst) + len + proto)
  {
    hide Fold, Sum, Checksum, Combine;
    ChecksumFold(src, 0);
    ChecksumFold(dst, Checksum(src, 0));
    FoldFold(Sum(src), Sum(dst));
    CombineFold(Checksum(dst, Checksum(src, 0)), len);
    FoldFold(Sum(src) + Sum(dst), len);
    CombineFold(Combine(Checksum(dst, Checksum(src, 0)), len), proto);
    FoldFold(Sum(src) + Sum(dst) + len, proto);
  }
}
