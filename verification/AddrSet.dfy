/** `ports.AddrSet`: a sorted slice of remote addresses used as a set. */
module AddrSets {
  import opened Net

  ghost predicate StrictlySorted(s: seq<AddrPort>) {
    forall i, j :: 0 <= i < j < |s| ==> Less(s[i], s[j])
  }

  ghost predicate Sorted(s: seq<AddrPort>) {
    forall i, j :: 0 <= i < j < |s| ==> !Less(s[j], s[i])
  }

  /** Stands for `sort.Sort`; SortedUnique shows that no other sorting algorithm could differ. */
  function Sort(s: seq<AddrPort>): (r: seq<AddrPort>)
    ensures Sorted(r) && multiset(r) == multiset(s)
  {
    if s == [] then []
    else
      assert s == s[..|s| - 1] + [s[|s| - 1]];
      Insert(Sort(s[..|s| - 1]), s[|s| - 1])
  }

  /** Position of the first entry above a. */
  function Position(s: seq<AddrPort>, a: AddrPort): (k: nat)
    ensures k <= |s|
    ensures forall j :: 0 <= j < k ==> !Less(a, s[j])
    ensures k < |s| ==> Less(a, s[k])
  {
    if s == [] || Less(a, s[0]) then 0 else Position(s[1..], a) + 1
  }

  function Insert(s: seq<AddrPort>, a: AddrPort): (r: seq<AddrPort>)
    requires Sorted(s)
    ensures Sorted(r) && multiset(r) == multiset(s) + multiset{a}
  {
    var k := Position(s, a);
    InsertSorted(s, a, k);
    assert s == s[..k] + s[k..];
    s[..k] + [a] + s[k..]
  }

  lemma InsertSorted(s: seq<AddrPort>, a: AddrPort, k: nat)
    requires Sorted(s) && k <= |s|
    requires forall j :: 0 <= j < k ==> !Less(a, s[j])
    requires k < |s| ==> Less(a, s[k])
    ensures Sorted(s[..k] + [a] + s[k..])
  {
    forall j | k <= j < |s| ensures !Less(s[j], a) {
      LessTotal(a, s[j]);
      LessTotal(s[j], s[k]);
      if Less(s[j], a) {
        LessTransitive(s[j], a, s[k]);
      }
    }
  }

  lemma HeadLeast(r: seq<AddrPort>, x: AddrPort)
    requires Sorted(r) && x in r
    ensures x == r[0] || Less(r[0], x)
  {
    LessTotal(x, r[0]);
  }

  lemma HeadsEqual(r: seq<AddrPort>, s: seq<AddrPort>)
    requires Sorted(r) && Sorted(s) && multiset(r) == multiset(s) && r != []
    ensures s != [] && r[0] == s[0]
  {
    assert r[0] in multiset(s);
    assert s[0] in multiset(r);
    HeadLeast(r, s[0]);
    HeadLeast(s, r[0]);
    LessTotal(r[0], s[0]);
  }

  lemma TailCount(r: seq<AddrPort>)
    requires r != []
    ensures multiset(r[1..]) == multiset(r) - multiset{r[0]}
  {
    assert r == [r[0]] + r[1..];
  }

  /** Two sorted lists with the same elements are the same list. */
  lemma {:induction false} SortedUnique(r: seq<AddrPort>, s: seq<AddrPort>)
    requires Sorted(r) && Sorted(s) && multiset(r) == multiset(s)
    ensures r == s
  {
    if r == [] {
      assert |multiset(s)| == |multiset(r)|;
    } else {
      HeadsEqual(r, s);
      TailCount(r);
      TailCount(s);
      SortedUnique(r[1..], s[1..]);
      assert r == [r[0]] + r[1..] && s == [s[0]] + s[1..];
    }
  }

  lemma StrictIsSortedAndDistinct(s: seq<AddrPort>)
    ensures StrictlySorted(s) ==> Sorted(s)
    ensures StrictlySorted(s) ==> forall i, j :: 0 <= i < j < |s| ==> s[i] != s[j]
  {
    if StrictlySorted(s) {
      forall i, j | 0 <= i < j < |s| ensures !Less(s[j], s[i]) && s[i] != s[j] {
        LessTotal(s[i], s[j]);
      }
    }
  }

  lemma {:induction false} DistinctCount(s: seq<AddrPort>, x: AddrPort)
    requires forall i, j :: 0 <= i < j < |s| ==> s[i] != s[j]
    ensures multiset(s)[x] == if x in s then 1 else 0
  {
    if s != [] {
      assert s == [s[0]] + s[1..];
      DistinctCount(s[1..], x);
    }
  }

  lemma TwiceCount(s: seq<AddrPort>, i: nat, j: nat)
    requires i < j < |s| && s[i] == s[j]
    ensures multiset(s)[s[i]] >= 2
  {
    assert s == s[..i] + [s[i]] + s[i + 1..j] + [s[j]] + s[j + 1..];
  }

  /** Appending a new address and sorting keeps the list strictly sorted. */
  lemma AddStrict(s: seq<AddrPort>, a: AddrPort)
    requires StrictlySorted(s) && a !in s
    ensures StrictlySorted(Sort(s + [a]))
    ensures forall x :: x in Sort(s + [a]) <==> x in s || x == a
  {
    var r := Sort(s + [a]);
    StrictIsSortedAndDistinct(s);
    forall x ensures x in r <==> x in s || x == a {
      assert x in r <==> x in multiset(r);
      assert x in s + [a] <==> x in multiset(s + [a]);
    }
    forall i, j | 0 <= i < j < |r| ensures Less(r[i], r[j]) {
      LessTotal(r[i], r[j]);
      if r[i] == r[j] {
        TwiceCount(r, i, j);
        DistinctCount(s + [a], r[i]);
      }
    }
  }

  class AddrSet {
    var addrs: seq<AddrPort>

    ghost predicate Valid()
      reads this
    {
      StrictlySorted(addrs)
    }

    ghost function Elems(): set<AddrPort>
      reads this
    {
      set a | a in addrs
    }

    constructor ()
      ensures Valid() && Elems() == {}
    {
      addrs := [];
    }

    /** `sort.Search` for the first entry not below addr, then an equality test. */
    method Find(addr: AddrPort) returns (idx: int)
      requires Valid()
      ensures -1 <= idx < |addrs|
      ensures 0 <= idx ==> addrs[idx] == addr
      ensures idx < 0 <==> addr !in Elems()
    {
      var i, j := 0, |addrs|;
      while i < j
        invariant 0 <= i <= j <= |addrs|
        invariant forall k :: 0 <= k < i ==> Less(addrs[k], addr)
        invariant forall k :: j <= k < |addrs| ==> !Less(addrs[k], addr)
      {
        var h := (i + j) / 2;
        if Less(addrs[h], addr) {
          forall k | 0 <= k < h ensures Less(addrs[k], addr) {
            LessTransitive(addrs[k], addrs[h], addr);
          }
          i := h + 1;
        } else {
          forall k | h < k < |addrs| ensures !Less(addrs[k], addr) {
            if Less(addrs[k], addr) {
              LessTransitive(addrs[h], addrs[k], addr);
            }
          }
          j := h;
        }
      }
      LessTotal(addr, addr);
      if i < |addrs| && addrs[i] == addr {
        return i;
      }
      assert forall k :: i < k < |addrs| ==> Less(addrs[i], addrs[k]);
      return -1;
    }

    method Has(addr: AddrPort) returns (has: bool)
      requires Valid()
      ensures has <==> addr in Elems()
    {
      var i := Find(addr);
      return i >= 0;
    }

    method Add(addr: AddrPort)
      requires Valid()
      modifies this
      ensures Valid() && Elems() == old(Elems()) + {addr}
    {
      var has := Has(addr);
      if !has {
        AddStrict(addrs, addr);
        addrs := Sort(addrs + [addr]);
      }
    }

    method Del(addr: AddrPort)
      requires Valid()
      modifies this
      ensures Valid() && Elems() == old(Elems()) - {addr}
    {
      var i := Find(addr);
      if i < 0 {
        return;
      }
      StrictIsSortedAndDistinct(addrs);
      addrs := addrs[..i] + addrs[i + 1..];
    }

    method Len() returns (n: nat)
      requires Valid()
      ensures n == |Elems()|
    {
      StrictIsSortedAndDistinct(addrs);
      DistinctCard(addrs);
      return |addrs|;
    }
  }

  lemma {:induction false} DistinctCard(s: seq<AddrPort>)
    requires forall i, j :: 0 <= i < j < |s| ==> s[i] != s[j]
    ensures |set a | a in s| == |s|
  {
    if s != [] {
      DistinctCard(s[1..]);
      assert (set a | a in s) == (set a | a in s[1..]) + {s[0]};
    }
  }
}
