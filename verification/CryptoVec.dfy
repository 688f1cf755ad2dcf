/**
 `CryptoVec` (cryptovec/src/cryptovec.rs): a growable byte buffer whose unused
 part is always zero, so growing within capacity appends zeros and no block is
 ever freed with data in it.
 */
module CryptoVec {
  import opened Common
  import opened Wire

  const MAX_CAPACITY: nat := 0x4000_0000_0000_0000

  predicate PowerOfTwo(n: nat) {
    n == 1 || (n > 1 && n % 2 == 0 && PowerOfTwo(n / 2))
  }

  /** `usize::next_power_of_two`: double until large enough. */
  function NextPowerOfTwo(len: nat, from: nat): (r: nat)
    requires PowerOfTwo(from)
    ensures PowerOfTwo(r) && r >= len && r >= from
    ensures from < len ==> r < 2 * len
    decreases len - from
  {
    if from >= len then from else NextPowerOfTwo(len, 2 * from)
  }

  predicate AllZero(b: Bytes) {
    forall i :: 0 <= i < |b| ==> b[i] == 0
  }

  function Zeros(n: nat): (r: Bytes)
    ensures |r| == n && AllZero(r)
  {
    seq(n, _ => 0)
  }

  datatype ReadResult = Got(n: nat) | Failed

  class Vec {
    var p: array<Byte>
    var size: nat

    /** The capacity is zero or a power of two, and everything beyond the size is zero. */
    ghost predicate Valid()
      reads this, p
    {
      && size <= p.Length
      && (p.Length == 0 || PowerOfTwo(p.Length))
      && (forall i :: size <= i < p.Length ==> p[i] == 0)
    }

    ghost function Contents(): Bytes
      requires Valid()
      reads this, p
    {
      p[..size]
    }

    constructor ()
      ensures Valid() && fresh(p) && Contents() == []
    {
      p, size := new Byte[0], 0;
    }

    /** `zeroize`. */
    static method Zeroize(block: array<Byte>, from: nat, len: nat)
      requires from + len <= block.Length
      modifies block
      ensures forall i :: from <= i < from + len ==> block[i] == 0
      ensures forall i :: 0 <= i < block.Length && !(from <= i < from + len) ==> block[i] == old(block[i])
    {
      var i := from;
      while i < from + len
        invariant from <= i <= from + len
        invariant forall k :: from <= k < i ==> block[k] == 0
        invariant forall k :: 0 <= k < block.Length && !(from <= k < i) ==> block[k] == old(block[k])
      {
        block[i] := 0;
        i := i + 1;
      }
    }

    /** Giving a block back to the allocator: nothing readable may be left in it. */
    static method Dealloc(block: array<Byte>)
      requires AllZero(block[..])
    {
    }

    /** `resize`: truncation erases, growth appends zeros, reallocation erases the old block first. */
    method Resize(n: nat)
      requires Valid() && n <= MAX_CAPACITY
      modifies this, p
      ensures Valid() && (if n <= old(p.Length) then p == old(p) else fresh(p))
      ensures size == n
      ensures Contents() == if n <= old(size) then old(Contents())[..n] else old(Contents()) + Zeros(n - old(size))
    {
      if size < n <= p.Length {
        size := n;
      } else if n <= size {
        Zeroize(p, n, size - n);
        size := n;
      } else {
        var next := Grown(n);
        if p.Length > 0 {
          Zeroize(p, 0, size);
          Dealloc(p);
        }
        p, size := next, n;
      }
    }

    /** The new block of a reallocation: zeroed, of the next power of two, with the contents copied over. */
    method Grown(n: nat) returns (next: array<Byte>)
      requires Valid() && size < n
      ensures fresh(next) && next.Length >= n && PowerOfTwo(next.Length)
      ensures next[..size] == Contents()
      ensures forall i :: size <= i < next.Length ==> next[i] == 0
    {
      next := new Byte[NextPowerOfTwo(n, 1)](_ => 0);
      var i := 0;
      while i < size
        invariant i <= size
        invariant forall k :: 0 <= k < i ==> next[k] == p[k]
        invariant forall k :: i <= k < next.Length ==> next[k] == 0
      {
        next[i] := p[i];
        i := i + 1;
      }
    }

    /** `clear`. */
    method Clear()
      requires Valid()
      modifies this, p
      ensures Valid() && p == old(p) && Contents() == []
    {
      Resize(0);
    }

    /** `push`. */
    method Push(b: Byte)
      requires Valid() && size < MAX_CAPACITY
      modifies this, p
      ensures Valid() && (p == old(p) || fresh(p))
      ensures Contents() == old(Contents()) + [b]
    {
      var at := size;
      Resize(at + 1);
      p[at] := b;
    }

    /** `extend`. */
    method Extend(s: Bytes)
      requires Valid() && size + |s| <= MAX_CAPACITY
      modifies this, p
      ensures Valid() && (p == old(p) || fresh(p))
      ensures Contents() == old(Contents()) + s
    {
      var at := size;
      ghost var before := Contents();
      Resize(at + |s|);
      Fill(at, s);
      assert Contents() == before + s;
    }

    /** Overwrite the tail from `at` on. */
    method Fill(at: nat, s: Bytes)
      requires Valid() && at + |s| == size
      modifies p
      ensures Valid() && Contents() == old(Contents())[..at] + s
    {
      forall k | 0 <= k < |s| {
        p[at + k] := s[k];
      }
    }

    /** `read`: whatever the source scribbles into the space it was offered, only the bytes it reports stay. */
    method Read(count: nat, scribble: Bytes, result: ReadResult)
      requires Valid() && size + count <= MAX_CAPACITY && |scribble| == count
      requires result.Got? ==> result.n <= count
      modifies this, p
      ensures Valid() && (p == old(p) || fresh(p))
      ensures Contents() == old(Contents()) + if result.Got? then scribble[..result.n] else []
    {
      var cur := size;
      ghost var before := Contents();
      Resize(cur + count);
      Fill(cur, scribble);
      assert Contents() == before + scribble;
      Resize(cur + if result.Got? then result.n else 0);
    }

    /** `drop`: the last block is erased before it is freed. */
    method Drop()
      requires Valid()
      modifies this, p
      ensures p.Length == 0 && size == 0
    {
      if p.Length > 0 {
        Zeroize(p, 0, size);
        Dealloc(p);
      }
      p, size := new Byte[0], 0;
    }
  }
}
