/** `UpdateTcpMssOption`: an option scan, an edit in place and an incremental checksum. */
module MssOption {
  import opened Net
  import opened InternetSum

  const EOL: u8 := 0
  const NOP: u8 := 1
  const MSS: u8 := 2
  const SUM_AT: nat := 16

  function DataOffset(h: seq<u8>): nat
    requires |h| > 12
  {
    h[12] as int / 16 * 4
  }

  /** Where the option loop ends; an option with length byte zero keeps it in place for ever. */
  datatype Scanned = At(i: nat) | Absent | Malformed | Stuck

  function Scan(h: seq<u8>, n: nat, i: nat): (r: Scanned)
    requires n <= |h|
    ensures r.At? ==> i <= r.i && r.i + 4 <= n && h[r.i] == MSS && h[r.i + 1] == 4
    decreases n - i
  {
    if i >= n then Absent
    else if h[i] == MSS then
      if i + 4 <= n && h[i + 1] == 4 then At(i) else Malformed
    else if h[i] == NOP then Scan(h, n, i + 1)
    else if h[i] == EOL then Absent
    else if i + 1 >= n then Malformed
    else if h[i + 1] == 0 then Stuck
    else Scan(h, n, i + h[i + 1])
  }

  /** The loop index after k iterations, or None once the loop has ended. */
  function Walk(h: seq<u8>, n: nat, i: nat, k: nat): Option<nat>
    requires n <= |h|
    decreases k
  {
    if i >= n || h[i] == MSS || h[i] == EOL || (h[i] != NOP && i + 1 >= n) then None
    else if k == 0 then Some(i)
    else Walk(h, n, if h[i] == NOP then i + 1 else i + h[i + 1], k - 1)
  }

  /** The loop fails to end exactly when the scan meets an option of length zero. */
  lemma {:induction false} HaltsExactly(h: seq<u8>, n: nat, i: nat, k: nat)
    requires n <= |h|
    ensures Scan(h, n, i).Stuck? ==> Walk(h, n, i, k).Some?
    ensures !Scan(h, n, i).Stuck? && k + i >= n ==> Walk(h, n, i, k).None?
    decreases k
  {
    if i < n && h[i] != MSS && h[i] != EOL && (h[i] == NOP || i + 1 < n) && k > 0 {
      var next := if h[i] == NOP then i + 1 else i + h[i + 1];
      HaltsExactly(h, n, next, k - 1);
    }
  }

  /** Such a header: an option of kind 5 and length 0, on which the loop never ends. */
  lemma StuckHeader() returns (h: seq<u8>)
    ensures |h| == 24 && h[12] == 0x60 && h[20] == 5 && h[21] == 0
    ensures forall k: nat :: Walk(h, 24, 20, k).Some?
  {
    h := [0, 0, 0, 0, 0, 0, 0, 0, 0, 0, 0, 0, 0x60, 0, 0, 0, 0, 0, 0, 0, 5, 0, 0, 0];
    assert Scan(h, 24, 20).Stuck?;
    forall k: nat ensures Walk(h, 24, 20, k).Some? {
      HaltsExactly(h, 24, 20, k);
    }
  }

  /** The header length is a multiple of four, so an MSS option that starts on an odd byte always has
      the byte after it that the checksum update reads. */
  lemma OddRoom(h: seq<u8>, i: nat)
    requires |h| > 12 && i + 4 <= DataOffset(h)
    ensures i % 2 == 1 ==> i + 5 <= DataOffset(h)
  {
  }

  /** Changing bytes the scan does not read leaves its answer alone. */
  lemma {:induction false} ScanSame(h: seq<u8>, g: seq<u8>, n: nat, i: nat)
    requires n <= |h| == |g| && Scan(h, n, i).At?
    requires forall j :: i <= j < Scan(h, n, i).i + 2 ==> g[j] == h[j]
    ensures Scan(g, n, i) == Scan(h, n, i)
    decreases n - i
  {
    if h[i] == NOP {
      ScanSame(h, g, n, i + 1);
    } else if h[i] != MSS {
      ScanSame(h, g, n, i + h[i + 1]);
    }
  }

  // The edit

  datatype MssError = InvalidMss(mss: int) | InvalidPacket

  /** The option found at i set to the low 16 bits of v, with the two updates the code uses. */
  function Edited(h: seq<u8>, i: nat, v: u16): (r: seq<u8>)
    requires 20 <= i && i + 4 <= |h| && (i % 2 == 1 ==> i + 5 <= |h|)
    ensures |r| == |h|
  {
    var g := PutWord(h, i + 2, v);
    PutWord(g, SUM_AT, Flip(Combine(Combine(Flip(Word(h, SUM_AT)), Flip(Before(h, i))), Before(g, i))))
  }

  /** The word or, for an odd offset, the two words that hold the value. */
  function Before(h: seq<u8>, i: nat): u16
    requires i + 4 <= |h| && (i % 2 == 1 ==> i + 5 <= |h|)
  {
    if i % 2 == 0 then Word(h, i + 2) else Checksum(h[i + 1..i + 5], 0)
  }

  predicate Accepts(h: seq<u8>) { |h| > 12 && DataOffset(h) <= |h| }

  predicate Skipped(h: seq<u8>, delta: int)
    requires Accepts(h)
  {
    DataOffset(h) <= 20 || delta == 0
  }

  function Updated(h: seq<u8>, delta: int): (r: (seq<u8>, Option<MssError>))
    requires Accepts(h)
    ensures |r.0| == |h|
  {
    if Skipped(h, delta) then (h, None)
    else match Scan(h, DataOffset(h), 20)
      case Malformed => (h, Some(InvalidPacket))
      case At(i) =>
        if Word(h, i + 2) + delta <= 0 then (h, Some(InvalidMss(Word(h, i + 2) + delta)))
        else (Edited(h, i, (Word(h, i + 2) + delta) % 0x1_0000), None)
      case _ => (h, None)
  }

  /** Whether an MSS option is found and changed. */
  predicate Changes(h: seq<u8>, delta: int) {
    && Accepts(h) && !Skipped(h, delta) && Scan(h, DataOffset(h), 20).At?
    && Word(h, Scan(h, DataOffset(h), 20).i + 2) + delta > 0
  }

  // What the edit does to the sum

  lemma Window(h: seq<u8>, i: nat, v: u16)
    requires i + 5 <= |h| && i % 2 == 1
    ensures PutWord(h, i + 2, v)[i + 1..i + 5] == PutWord(h[i + 1..i + 5], 1, v)
    ensures Word(h[i + 1..i + 5], 1) == Word(h, i + 2)
    ensures forall w :: Share(i + 2, w) == Share(1, w)
  {
  }

  lemma OddBeforeSum(h: seq<u8>, i: nat, v: u16) returns (k: int)
    requires i + 5 <= |h| && i % 2 == 1
    ensures Before(PutWord(h, i + 2, v), i) - Before(h, i)
            == Share(i + 2, v) - Share(i + 2, Word(h, i + 2)) + 0xFFFF * k
  {
    hide Sum, Checksum, Fold, PutWord, Word, Pair, Share;
    var w, x := h[i + 1..i + 5], PutWord(h, i + 2, v)[i + 1..i + 5];
    Window(h, i, v);
    SumPutWord(w, 1, v);
    ChecksumFold(w, 0);
    ChecksumFold(x, 0);
    var p: int := FoldSteps(Sum(w));
    var q: int := FoldSteps(Sum(x));
    k := p - q;
  }

  lemma BeforeSum(h: seq<u8>, i: nat, v: u16) returns (k: int)
    requires i + 4 <= |h| && (i % 2 == 1 ==> i + 5 <= |h|)
    ensures Before(PutWord(h, i + 2, v), i) - Before(h, i)
            == Share(i + 2, v) - Share(i + 2, Word(h, i + 2)) + 0xFFFF * k
  {
    hide Sum, Checksum, Fold, PutWord, Word, Pair;
    k := 0;
    if i % 2 == 1 {
      k := OddBeforeSum(h, i, v);
    }
  }

  function Sums(h: seq<u8>, i: nat, v: u16): (u16, u16)
    requires i + 4 <= |h| && (i % 2 == 1 ==> i + 5 <= |h|)
  {
    (Before(h, i), Before(PutWord(h, i + 2, v), i))
  }

  /** The checksum stored by the edit, as one fold. */
  lemma NewSum(h: seq<u8>, i: nat, v: u16)
    requires 20 <= i && i + 4 <= |h| && (i % 2 == 1 ==> i + 5 <= |h|)
    ensures var (a, b) := Sums(h, i, v);
            && Word(Edited(h, i, v), SUM_AT) == Flip(Fold(Flip(Word(h, SUM_AT)) + Flip(a) + b))
            && Edited(h, i, v) == PutWord(PutWord(h, i + 2, v), SUM_AT, Word(Edited(h, i, v), SUM_AT))
  {
    hide Fold, Combine, PutWord, Word, Before;
    var (a, b) := Sums(h, i, v);
    var c := Flip(Word(h, SUM_AT));
    CombineFold(c, Flip(a));
    CombineFold(Combine(c, Flip(a)), b);
    FoldFold(c + Flip(a), b);
  }

  lemma EditedSum(h: seq<u8>, i: nat, v: u16) returns (k: int)
    requires 20 <= i && i + 4 <= |h| && (i % 2 == 1 ==> i + 5 <= |h|)
    ensures Sum(Edited(h, i, v)) == Sum(h) + 0xFFFF * k
  {
    hide Sum, Fold, PutWord, Word, Edited, Before, Share;
    var (a, b) := Sums(h, i, v);
    var g := PutWord(h, i + 2, v);
    NewSum(h, i, v);
    SumPutWord(h, i + 2, v);
    PutWordSwap(h, i + 2, v, SUM_AT, 0);
    SumPutWord(g, SUM_AT, Word(Edited(h, i, v), SUM_AT));
    ShareEven(Word(h, SUM_AT));
    ShareEven(Word(Edited(h, i, v), SUM_AT));
    var m := BeforeSum(h, i, v);
    var q := FoldSteps(Flip(Word(h, SUM_AT)) + Flip(a) + b);
    k := q - m - 1;
  }

  lemma ShareEven(w: u16)
    ensures Share(SUM_AT, w) == w
  {
  }

  /** A byte that is not zero makes the sum positive. */
  lemma SumPositive(h: seq<u8>, i: nat)
    requires i < |h| && h[i] != 0
    ensures Sum(h) > 0
  {
    SumUpdate(h, i, 0);
  }

  /** The edit keeps every valid checksum valid and every invalid one invalid, at even and odd offsets
      and even when the new value is cut to 16 bits, whatever the pseudo-header sum is. */
  lemma UpdateKeepsValidity(h: seq<u8>, delta: int, psum: u16)
    requires Accepts(h)
    ensures Verifies(Updated(h, delta).0, psum) <==> Verifies(h, psum)
  {
    hide Sum, Fold, PutWord, Word, Checksum, Edited, Verifies;
    if Changes(h, delta) {
      var i := Scan(h, DataOffset(h), 20).i;
      var v := (Word(h, i + 2) + delta) % 0x1_0000;
      var k := EditedSum(h, i, v);
      EditedElsewhere(h, i, v);
      SumPositive(h, i);
      SumPositive(Edited(h, i, v), i);
      VerifiesSum(h, psum);
      VerifiesSum(Edited(h, i, v), psum);
      Shift(Sum(h) + psum, k);
    }
  }

  lemma EditedElsewhere(h: seq<u8>, i: nat, v: u16)
    requires 20 <= i && i + 4 <= |h| && (i % 2 == 1 ==> i + 5 <= |h|)
    ensures Word(Edited(h, i, v), i + 2) == v
    ensures forall j :: 0 <= j < |h| && j != i + 2 && j != i + 3 && j != SUM_AT && j != SUM_AT + 1 ==>
              Edited(h, i, v)[j] == h[j]
  {
  }

  /** After a change the same scan finds the same option, holding the new value, and only that value
      and the checksum differ. */
  lemma UpdateReadsBack(h: seq<u8>, delta: int)
    requires Changes(h, delta)
    ensures var (g, err) := Updated(h, delta);
            var i := Scan(h, DataOffset(h), 20).i;
            && err.None? && Accepts(g) && DataOffset(g) == DataOffset(h)
            && Scan(g, DataOffset(g), 20) == At(i)
            && Word(g, i + 2) == (Word(h, i + 2) + delta) % 0x1_0000
            && (forall j :: 0 <= j < |h| && j != i + 2 && j != i + 3 && j != SUM_AT && j != SUM_AT + 1 ==> g[j] == h[j])
  {
    hide Edited, Word;
    var i := Scan(h, DataOffset(h), 20).i;
    EditedElsewhere(h, i, (Word(h, i + 2) + delta) % 0x1_0000);
    ScanSame(h, Updated(h, delta).0, DataOffset(h), 20);
  }

  /** Nothing changes unless an MSS option is found whose new value is positive. */
  lemma OtherwiseUntouched(h: seq<u8>, delta: int)
    requires Accepts(h) && !Changes(h, delta)
    ensures Updated(h, delta).0 == h
    ensures Updated(h, delta).1.None? <==> Skipped(h, delta) || Scan(h, DataOffset(h), 20) in {Absent, Stuck}
  {
  }

  /** The field holds what a full computation stores: RFC 1071's sum, never the other zero. */
  predicate Exact(h: seq<u8>, psum: u16)
    requires |h| >= 18
  {
    Sealed(h, SUM_AT, psum) == h
  }

  lemma ExactField(h: seq<u8>, i: nat, psum: u16)
    requires 20 <= i < |h| && h[i] != 0 && SUM_AT + 2 <= |h|
    ensures Exact(h, psum) <==> Verifies(h, psum) && Word(h, SUM_AT) != 0xFFFF
  {
    hide Sum, Checksum, Fold, PutWord, Word, Pair;
    var zero, cs := PutWord(h, SUM_AT, 0), Word(h, SUM_AT);
    SumPutWord(h, SUM_AT, 0);
    ShareEven(cs);
    ShareEven(0);
    PutWordTwice(h, SUM_AT, 0, cs);
    SumPositive(h, i);
    SumPositive(zero, i);
    ChecksumFold(zero, psum);
    VerifiesSum(h, psum);
    var q := FoldSteps(Sum(zero) + psum);
    FoldMeaning(Sum(zero) + psum);
    Shift(cs + Fold(Sum(zero) + psum), q);
  }

  /** An exact checksum stays exact, as if the whole segment had been summed again. */
  lemma UpdateKeepsExact(h: seq<u8>, delta: int, psum: u16)
    requires Accepts(h) && Changes(h, delta) && Exact(h, psum)
    ensures Exact(Updated(h, delta).0, psum)
  {
    hide Sum, Checksum, Fold, PutWord, Word, Pair, Edited, Exact, Verifies;
    var i := Scan(h, DataOffset(h), 20).i;
    var v := (Word(h, i + 2) + delta) % 0x1_0000;
    EditedElsewhere(h, i, v);
    ExactField(h, i, psum);
    ExactField(Edited(h, i, v), i, psum);
    UpdateKeepsValidity(h, delta, psum);
    NewSum(h, i, v);
    FoldMeaning(Flip(Word(h, SUM_AT)) + Flip(Before(h, i)) + Before(PutWord(h, i + 2, v), i));
  }

  lemma SealedIsExact(h: seq<u8>, psum: u16)
    requires |h| >= 18
    ensures Exact(Sealed(h, SUM_AT, psum), psum)
  {
    hide Checksum, PutWord;
    PutWordTwice(h, SUM_AT, Flip(Checksum(PutWord(h, SUM_AT, 0), psum)), 0);
    PutWordTwice(h, SUM_AT, 0, 0);
    PutWordTwice(h, SUM_AT, 0, Flip(Checksum(PutWord(h, SUM_AT, 0), psum)));
    PutWordTwice(h, SUM_AT, Flip(Checksum(PutWord(h, SUM_AT, 0), psum)), Flip(Checksum(PutWord(h, SUM_AT, 0), psum)));
  }

  /** A header with an exact checksum whose MSS of 1460 can be lowered. */
  lemma ExactHeader(psum: u16) returns (h: seq<u8>)
    ensures Accepts(h) && Changes(h, -40) && Exact(h, psum)
  {
    hide Sealed, Exact;
    var blank := [0, 0, 0, 0, 0, 0, 0, 0, 0, 0, 0, 0, 0x60, 0, 0, 0, 0, 0, 0, 0, MSS, 4, 5, 180];
    h := Sealed(blank, SUM_AT, psum);
    SealedIsExact(blank, psum);
    SealedElsewhere(blank, SUM_AT, psum);
    Lowers(h);
  }

  lemma Lowers(h: seq<u8>)
    requires |h| == 24 && h[12] == 0x60 && h[20] == MSS && h[21] == 4 && h[22] == 5 && h[23] == 180
    ensures Accepts(h) && Changes(h, -40)
  {
    assert DataOffset(h) == 24 && Scan(h, 24, 20) == At(20) && Word(h, 22) == 1460;
  }

  /** Undoing a change restores every byte, unless the checksum was the zero a full computation never
      stores or the option held zero, which the way back rejects. */
  lemma UndoExactly(h: seq<u8>, delta: int)
    requires Changes(h, delta) && Word(h, Scan(h, DataOffset(h), 20).i + 2) + delta < 0x1_0000
    ensures Updated(Updated(h, delta).0, -delta).0 == h
            <==> Word(h, SUM_AT) != 0xFFFF && Word(h, Scan(h, DataOffset(h), 20).i + 2) != 0
  {
    hide Sum, Checksum, Fold, PutWord, Word, Pair, Edited, Before;
    var i := Scan(h, DataOffset(h), 20).i;
    var old', v := Word(h, i + 2), Word(h, i + 2) + delta;
    var g := Edited(h, i, v);
    UpdateReadsBack(h, delta);
    if old' != 0 {
      EditUndone(h, i, v);
    } else {
      assert Word(g, i + 2) != Word(h, i + 2);
    }
  }

  lemma EditUndone(h: seq<u8>, i: nat, v: u16)
    requires 20 <= i && i + 4 <= |h| && (i % 2 == 1 ==> i + 5 <= |h|)
    ensures Edited(Edited(h, i, v), i, Word(h, i + 2)) == h <==> Word(h, SUM_AT) != 0xFFFF
  {
    hide Fold, PutWord, Word, Edited, Before;
    var was, cs := Word(h, i + 2), Word(h, SUM_AT);
    var (a, b) := Sums(h, i, v);
    var g := Edited(h, i, v);
    var sum, back := Word(g, SUM_AT), Word(Edited(g, i, was), SUM_AT);
    NewSum(h, i, v);
    NewSum(g, i, was);
    PutWordSwap(h, i + 2, v, SUM_AT, sum);
    PutWordTwice(PutWord(h, SUM_AT, sum), i + 2, v, was);
    PutWordSwap(h, i + 2, was, SUM_AT, sum);
    PutWordTwice(h, i + 2, 0, 0);
    PutWordTwice(h, SUM_AT, sum, back);
    BeforeIgnoresSum(PutWord(h, i + 2, v), i, sum);
    BeforeIgnoresSum(h, i, sum);
    FoldFold(Flip(cs) + Flip(a) + b, Flip(b) + a);
    FoldTwice(Flip(cs));
  }

  lemma BeforeIgnoresSum(h: seq<u8>, i: nat, w: u16)
    requires 20 <= i && i + 4 <= |h| && (i % 2 == 1 ==> i + 5 <= |h|)
    ensures Before(PutWord(h, SUM_AT, w), i) == Before(h, i)
  {
    hide Checksum;
    assert i + 5 <= |h| ==> PutWord(h, SUM_AT, w)[i + 1..i + 5] == h[i + 1..i + 5];
  }

  lemma FoldTwice(a: u16)
    ensures Fold(a + 0x1_FFFE) == a <==> a != 0
  {
    FoldMeaning(a + 0x1_FFFE);
  }

  // What is found, by the chain of options

  /** The option at i is followed by one at j: a no-operation takes one byte, any other but the end and the
      maximum segment size as many as its second byte says. */
  predicate Follows(h: seq<u8>, n: nat, i: nat, j: nat) {
    && i < n <= |h| && h[i] != 0 && h[i] != 2
    && if h[i] == 1 then j == i + 1 else i + 1 < n && j == i + h[i + 1] as int
  }

  /** The offsets of options, one after the other, from the end of the fixed header. */
  predicate Chain(h: seq<u8>, n: nat, s: seq<nat>) {
    s != [] && s[0] == 20 && forall k :: 0 <= k < |s| - 1 ==> Follows(h, n, s[k], s[k + 1])
  }

  ghost predicate ChainTo(h: seq<u8>, n: nat, m: nat) {
    exists s :: Chain(h, n, s) && s[|s| - 1] == m
  }

  /** A well-formed maximum segment size at m. */
  predicate Holds(h: seq<u8>, n: nat, m: nat) { n <= |h| && m + 4 <= n && h[m] == 2 && h[m + 1] == 4 }

  /** An option at m that the header ends within, or a maximum segment size of another length. */
  predicate Broken(h: seq<u8>, n: nat, m: nat) {
    && m < n <= |h|
    && ((h[m] == 2 && !(m + 4 <= n && h[m + 1] == 4)) || (h[m] != 0 && h[m] != 1 && h[m] != 2 && m + 1 == n))
  }

  predicate Ends(h: seq<u8>, n: nat, m: nat) { n <= |h| && (m < n ==> h[m] == 0) }

  /** An option of length zero, which follows itself. */
  predicate Loops(h: seq<u8>, n: nat, m: nat) {
    m + 1 < n <= |h| && h[m] != 0 && h[m] != 1 && h[m] != 2 && h[m + 1] == 0
  }

  lemma {:induction false} ChainScan(h: seq<u8>, n: nat, s: seq<nat>)
    requires n <= |h| && Chain(h, n, s)
    ensures Scan(h, n, 20) == Scan(h, n, s[|s| - 1])
  {
    if |s| > 1 {
      assert Chain(h, n, s[..|s| - 1]) && Follows(h, n, s[|s| - 2], s[|s| - 1]);
      ChainScan(h, n, s[..|s| - 1]);
    }
  }

  /** Every scan follows the chain to where it is decided. */
  lemma {:induction false} ScanChain(h: seq<u8>, n: nat, s: seq<nat>)
    requires n <= |h| && Chain(h, n, s)
    ensures exists m :: ChainTo(h, n, m) && (Holds(h, n, m) || Broken(h, n, m) || Ends(h, n, m) || Loops(h, n, m))
    decreases n - s[|s| - 1]
  {
    var i := s[|s| - 1];
    assert ChainTo(h, n, i);
    if !(Holds(h, n, i) || Broken(h, n, i) || Ends(h, n, i) || Loops(h, n, i)) {
      var j := if h[i] == 1 then i + 1 else i + h[i + 1] as int;
      assert Follows(h, n, i, j);
      ScanChain(h, n, s + [j]);
    }
  }

  /** What the scan answers, by where the chain of options leads. */
  lemma ScanExact(h: seq<u8>, n: nat)
    requires n <= |h|
    ensures forall m :: Scan(h, n, 20) == At(m) <==> ChainTo(h, n, m) && Holds(h, n, m)
    ensures Scan(h, n, 20).Malformed? <==> exists m :: ChainTo(h, n, m) && Broken(h, n, m)
    ensures Scan(h, n, 20).Absent? <==> exists m :: ChainTo(h, n, m) && Ends(h, n, m)
    ensures Scan(h, n, 20).Stuck? <==> exists m :: ChainTo(h, n, m) && Loops(h, n, m)
  {
    hide Scan;
    assert Chain(h, n, [20]);
    ScanChain(h, n, [20]);
    forall m | ChainTo(h, n, m)
      ensures Holds(h, n, m) ==> Scan(h, n, 20) == At(m)
      ensures Broken(h, n, m) ==> Scan(h, n, 20) == Malformed
      ensures Ends(h, n, m) ==> Scan(h, n, 20) == Absent
      ensures Loops(h, n, m) ==> Scan(h, n, 20) == Stuck
    {
      var s :| Chain(h, n, s) && s[|s| - 1] == m;
      ChainScan(h, n, s);
      ScanHere(h, n, m);
    }
  }

  lemma ScanHere(h: seq<u8>, n: nat, m: nat)
    requires n <= |h|
    ensures Holds(h, n, m) ==> Scan(h, n, m) == At(m)
    ensures Broken(h, n, m) ==> Scan(h, n, m) == Malformed
    ensures Ends(h, n, m) ==> Scan(h, n, m) == Absent
    ensures Loops(h, n, m) ==> Scan(h, n, m) == Stuck
  {
  }

  /** The whole method on any header: an option that is there is found and changed, bytes 16 and 17 and the
      option's value are all that changes, and each error is returned exactly when the chain leads to it. */
  lemma ClampExact(h: seq<u8>, delta: int, n: nat)
    requires |h| > 12 && n == 4 * (h[12] as int / 16) && n <= |h|
    ensures Accepts(h)
    ensures forall m :: n > 20 && delta != 0 && ChainTo(h, n, m) && Holds(h, n, m) ==>
              Clamped(h, m, 256 * h[m + 2] as int + h[m + 3] as int + delta, Updated(h, delta))
    ensures Updated(h, delta).1 == Some(InvalidPacket)
            <==> n > 20 && delta != 0 && exists m :: ChainTo(h, n, m) && Broken(h, n, m)
    ensures Updated(h, delta).1.Some? && Updated(h, delta).1.value.InvalidMss?
            <==> n > 20 && delta != 0 && exists m :: ChainTo(h, n, m) && Holds(h, n, m)
                                                     && 256 * h[m + 2] as int + h[m + 3] as int + delta <= 0
    ensures Updated(h, delta).0 != h ==> n > 20 && delta != 0 && exists m :: ChainTo(h, n, m) && Holds(h, n, m)
  {
    hide ChainTo, Scan, Edited;
    ScanExact(h, n);
    forall m: nat | n > 20 && delta != 0 && ChainTo(h, n, m) && Holds(h, n, m)
      ensures Clamped(h, m, 256 * h[m + 2] as int + h[m + 3] as int + delta, Updated(h, delta))
    {
      if Word(h, m + 2) + delta > 0 {
        EditedElsewhere(h, m, (Word(h, m + 2) + delta) % 0x1_0000);
      }
    }
  }

  /** The value at m became v, or was refused. */
  predicate Clamped(h: seq<u8>, m: nat, v: int, r: (seq<u8>, Option<MssError>))
    requires m + 4 <= |h|
  {
    if v <= 0 then r == (h, Some(InvalidMss(v)))
    else
      && r.1 == None && |r.0| == |h| && 256 * r.0[m + 2] as int + r.0[m + 3] as int == v % 0x1_0000
      && forall j :: 0 <= j < |h| && j != m + 2 && j != m + 3 && j != 16 && j != 17 ==> r.0[j] == h[j]
  }

  /** The two ways the code stores the new value, for an even and for an odd offset. */
  method Edit(h: array<u8>, n: nat, i: nat, mss: u16, v: u16, oldSum: u16)
    requires 20 <= i && i + 4 <= n <= h.Length && (i % 2 == 1 ==> i + 5 <= n)
    requires mss == Word(h[..], i + 2) && oldSum == Flip(Word(h[..], SUM_AT))
    modifies h
    ensures h[..] == Edited(old(h[..]), i, v)
  {
    hide PutWord, Checksum, Combine, Word;
    assert (i + 2) % 2 == i % 2;
    if (i + 2) % 2 == 0 {
      PutU16(h, i + 2, v);
      PutU16(h, SUM_AT, Flip(Combine(Combine(oldSum, Flip(mss)), v)));
    } else if i + 5 <= n {
      var sum := Combine(oldSum, Flip(Checksum(h[..][i + 1..i + 5], 0)));
      PutU16(h, i + 2, v);
      PutU16(h, SUM_AT, Flip(Combine(sum, Checksum(h[..][i + 1..i + 5], 0))));
    }
  }

  /** `UpdateTcpMssOption`. It ends because no option before the MSS option has length zero. */
  method UpdateTcpMssOption(h: array<u8>, delta: int) returns (err: Option<MssError>)
    requires Accepts(h[..])
    requires !Skipped(h[..], delta) ==> !Scan(h[..], DataOffset(h[..]), 20).Stuck?
    modifies h
    ensures (h[..], err) == Updated(old(h[..]), delta)
  {
    hide PutWord, Checksum, Combine, Edited, Pair;
    var n: nat := h[12] as int / 16 * 4;
    if n > 20 && delta != 0 {
      ghost var was := h[..];
      var oldSum := Flip(Pair(h[SUM_AT], h[SUM_AT + 1]));
      var i: nat := 20;
      while i < n
        invariant 20 <= i && h[..] == was
        invariant Scan(was, n, i) == Scan(was, n, 20)
        decreases n - i
      {
        var kind := h[i];
        if kind == MSS {
          if i + 4 > n || h[i + 1] != 4 {
            return Some(InvalidPacket);
          }
          var mss := Pair(h[i + 2], h[i + 3]);
          if mss + delta <= 0 {
            return Some(InvalidMss(mss + delta));
          }
          OddRoom(was, i);
          Edit(h, n, i, mss, (mss + delta) % 0x1_0000, oldSum);
          return None;
        } else if kind == NOP {
          i := i + 1;
        } else if kind == EOL {
          return None;
        } else if i + 1 < n {
          i := i + h[i + 1];
        } else {
          return Some(InvalidPacket);
        }
      }
    }
    return None;
  }
}
