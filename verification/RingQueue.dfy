/** `links.Heap`: a growing ring buffer that behaves as a first-in first-out queue. */
module RingQueue {
  class Heap<T> {
    var vals: array<T>
    var start: nat
    var size: nat
    const zero: T  // the zero value `*new(T)` handed out by Pop and Peek when empty

    ghost var contents: seq<T>  // the queued elements, oldest first

    ghost predicate Valid()
      reads this, vals
    {
      && size <= vals.Length && (start < vals.Length || (start == 0 && vals.Length == 0))
      && |contents| == size
      && forall k :: 0 <= k < size ==> contents[k] == vals[Slot(k)]
    }

    /** Physical slot of the k-th queued element. */
    ghost function Slot(k: nat): int
      reads this
    {
      if start + k < vals.Length then start + k else start + k - vals.Length
    }

    constructor (initCap: nat, zero: T)
      ensures Valid() && fresh(vals) && vals.Length == initCap
      ensures contents == [] && this.zero == zero
    {
      this.zero := zero;
      vals := new T[initCap](_ => zero);
      start, size, contents := 0, 0, [];
    }

    method Grow()
      requires Valid() && size == vals.Length && 0 < vals.Length
      modifies this
      ensures Valid() && fresh(vals) && size < vals.Length
      ensures contents == old(contents)
    {
      var tmp := new T[vals.Length * 2](_ => zero);
      var n1 := vals.Length - start;
      forall k | 0 <= k < n1 { tmp[k] := vals[start + k]; }
      forall k | 0 <= k < size - n1 { tmp[n1 + k] := vals[k]; }
      vals := tmp;
      start := 0;
    }

    method Put(t: T)
      requires Valid() && 0 < vals.Length
      modifies this, vals
      ensures Valid() && 0 < vals.Length && fresh({vals} - {old(vals)})
      ensures contents == old(contents) + [t]
    {
      if vals.Length == size {
        Grow();
      }
      var i := start + size;
      if i >= vals.Length {
        i := i - vals.Length;
      }
      vals[i] := t;
      size := size + 1;
      contents := contents + [t];
    }

    method Pop() returns (val: T)
      requires Valid()
      modifies this
      ensures Valid() && vals == old(vals)
      ensures old(contents) == [] ==> val == zero && contents == []
      ensures old(contents) != [] ==> old(contents) == [val] + contents
    {
      if size == 0 {
        return zero;
      }
      val := vals[start];
      size := size - 1;
      contents := contents[1..];
      start := start + 1;
      if start >= vals.Length {
        start := start - vals.Length;
      }
    }

    method Peek() returns (val: T)
      requires Valid()
      ensures val == if contents == [] then zero else contents[0]
    {
      if size == 0 {
        return zero;
      }
      val := vals[start];
    }

    method Size() returns (n: nat)
      requires Valid()
      ensures n == |contents|
    {
      n := size;
    }
  }
}
