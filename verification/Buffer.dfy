/**
The automatically growing buffer (`vtm_buf`): a byte sequence with a read cursor.
*/
module Buffer {
  import opened Bytes

  /** `size_t` is 64 bits wide. */
  const SIZE: nat := 0x1_0000_0000_0000_0000

  const HALF: nat := 0x8000_0000_0000_0000

  /** Up to this size a buffer never overflows: it is only made larger when it is full, and then at most four times what it
      has to hold. */
  const QUARTER: nat := 0x4000_0000_0000_0000

  /** Size of the memory inside the struct. */
  const STATIC: nat := 1024

  datatype Error = Ok | Overflow

  function Wrap(n: nat): nat { n % SIZE }

  /** A size the buffer can have: the initial one, doubled any number of times; a power of two. */
  predicate Capacity(n: nat) {
    n == STATIC || (n > STATIC && n % 2 == 0 && Capacity(n / 2))
  }

  lemma Doubled(n: nat)
    requires Capacity(n)
    ensures Capacity(2 * n)
  {}

  lemma Times256(n: nat)
    requires Capacity(n)
    ensures Capacity(256 * n)
  {
    Doubled(n); Doubled(2 * n); Doubled(4 * n); Doubled(8 * n);
    Doubled(16 * n); Doubled(32 * n); Doubled(64 * n); Doubled(128 * n);
  }

  /** The largest capacity is 2 to the 63. */
  lemma LargestCapacity()
    ensures Capacity(HALF)
  {
    var a, b, c := 0x4_0000, 0x400_0000, 0x4_0000_0000;
    Times256(STATIC); Times256(a); Times256(b); Times256(c);
    Times256(0x400_0000_0000); Times256(0x4_0000_0000_0000);
    var d := 0x400_0000_0000_0000;
    Doubled(d); Doubled(2 * d); Doubled(4 * d); Doubled(8 * d); Doubled(16 * d);
  }

  /** Between a capacity and its double there is no other. */
  lemma {:induction false} CapacityGap(n: nat, m: nat)
    requires Capacity(n) && Capacity(m) && n < m
    ensures 2 * n <= m
    decreases m
  {
    if n > STATIC { CapacityGap(n / 2, m / 2); }
  }

  lemma AtMostHalf(n: nat)
    requires Capacity(n) && n < SIZE
    ensures n <= HALF
  {
    LargestCapacity();
    if n > HALF { CapacityGap(HALF, n); }
  }

  lemma WrapDouble(n: nat)
    requires n <= HALF
    ensures Wrap(2 * n) == if n == HALF then 0 else 2 * n
  {}

  /** Doubling a capacity in 64 bits gives the next one, or zero after the largest. */
  lemma DoubleWraps(n: nat)
    requires Capacity(n) && n <= HALF
    ensures if n == HALF then Wrap(2 * n) == 0 else Wrap(2 * n) == 2 * n <= HALF && Capacity(2 * n)
  {
    WrapDouble(n);
    if n < HALF {
      LargestCapacity();
      CapacityGap(n, HALF);
      Doubled(n);
    }
  }

  class Buf {
    const order: Order
    var data: array<byte>
    var len: nat
    var used: nat
    var read: nat
    var err: Error

    ghost predicate Valid()
      reads this
    {
      len == data.Length && Capacity(len) && used <= len && read <= used
    }

    /** Everything that was put into the buffer and not discarded. */
    ghost function Contents(): (s: seq<byte>)
      requires Valid()
      reads this, data
    {
      data[..used]
    }

    /** What was not processed yet. */
    ghost function Unread(): (s: seq<byte>)
      requires Valid()
      reads this, data
    {
      data[read..used]
    }

    constructor (order: Order)
      ensures Valid() && fresh(data)
      ensures this.order == order && len == STATIC && Contents() == [] && read == 0 && err == Ok
    {
      this.order := order;
      data := new byte[STATIC];
      len := STATIC;
      used := 0;
      read := 0;
      err := Ok;
    }

    /** `n` more bytes fit, in the present memory or after growing it. */
    predicate Fits(n: nat)
      reads this
    {
      used + n <= len || len + n <= HALF
    }

    /** VTM_BUF_PUT_AVAIL: the test is written so that a wrap of the sum is noticed. */
    method PutAvail(n: nat) returns (avail: bool)
      requires Valid() && n < SIZE && len < SIZE
      ensures avail <==> used + n <= len
    {
      avail := Wrap(used + n) <= len && Wrap(used + n) >= used;
    }

    /** VTM_BUF_GET_AVAIL. */
    method GetAvail(n: nat) returns (avail: bool)
      requires Valid() && n < SIZE && len < SIZE
      ensures avail <==> n <= |Unread()|
    {
      avail := Wrap(read + n) <= used && Wrap(read + n) >= read;
    }

    /** The doubling loop of `vtm_buf_grow`. It ends even when the size wraps to zero, and that happens exactly when no
        capacity is large enough. */
    static method NextSize(before: nat, target: nat) returns (size: nat)
      requires Capacity(before) && before < SIZE && target < SIZE
      ensures before <= HALF && (size < before <==> target > HALF)
      ensures size >= before ==> Capacity(size) && size >= target && size < SIZE
                                 && (forall c: nat | Capacity(c) && c >= before && c >= target :: c >= size)
    {
      AtMostHalf(before);
      size := before;
      while size < target
        invariant before <= size <= HALF && Capacity(size)
        invariant forall c: nat | Capacity(c) && c >= before && c >= target :: c >= size
        decreases SIZE - size
      {
        forall c: nat | Capacity(c) && c >= before && c >= target ensures c >= 2 * size { CapacityGap(size, c); }
        DoubleWraps(size);
        size := Wrap(2 * size);
        if size < before {
          return;
        }
      }
    }

    /** `malloc` or `realloc`; running out of memory is left out. */
    method Reallocate(size: nat)
      requires Valid() && Capacity(size) && len <= size
      modifies this`data, this`len
      ensures Valid() && fresh(data) && len == size && Contents() == old(Contents())
    {
      var mem := new byte[size];
      forall i | 0 <= i < len {
        mem[i] := data[i];
      }
      data := mem;
      len := size;
    }

    /** `vtm_buf_grow`: doubles the memory until the bytes fit. The only failure is that no capacity is large enough; it
        is recorded, and nothing changes. */
    method Grow(add: nat)
      requires Valid() && add < SIZE && len < SIZE
      modifies this
      ensures Valid() && len < SIZE && (data == old(data) || fresh(data))
      ensures Contents() == old(Contents()) && read == old(read)
      ensures err == if old(err) == Ok && old(len) + add > HALF then Overflow else old(err)
      ensures err != Ok ==> data == old(data)
      ensures err == Ok ==> len >= old(len) + add
    {
      if err != Ok {
        return;
      }
      var target := Wrap(len + add);
      if target < len {
        AtMostHalf(len);
        err := Overflow;
        return;
      }
      var size := NextSize(len, target);
      if size < len {
        err := Overflow;
        return;
      }
      Reallocate(size);
    }

    /** `vtm_buf_ensure`. */
    method Ensure(space: nat) returns (rc: Error)
      requires Valid() && space < SIZE && len < SIZE
      modifies this
      ensures Valid() && len < SIZE && (data == old(data) || fresh(data))
      ensures Contents() == old(Contents()) && read == old(read)
      ensures rc == err
      ensures err == if old(err) == Ok && !old(Fits(space)) then Overflow else old(err)
      ensures err == Ok ==> used + space <= len
    {
      var avail := PutAvail(space);
      if !avail {
        Grow(space);
      }
      rc := err;
    }

    /** `vtm_buf_puto`: appends bytes that lie in memory in the given order. */
    method PutO(src: seq<byte>, srcOrder: Order) returns (rc: Error)
      requires Valid() && |src| < SIZE && len < SIZE
      modifies this, data
      ensures Valid() && len < SIZE && (data == old(data) || fresh(data)) && read == old(read)
      ensures rc == err
      ensures err == if old(err) == Ok && !old(Fits(|src|)) then Overflow else old(err)
      ensures Contents() == old(Contents()) + if err == Ok then Reordered(src, srcOrder, order) else []
    {
      rc := Ensure(|src|);
      if rc != Ok {
        return;
      }
      if order == srcOrder {
        forall i | 0 <= i < |src| {
          data[used + i] := src[i];
        }
        used := used + |src|;
      } else {
        PutReversed(src);
      }
    }

    /** The byte-reversing loop of `vtm_buf_puto`. */
    method PutReversed(src: seq<byte>)
      requires Valid() && used + |src| <= len
      modifies this`used, data
      ensures Valid() && Contents() == old(Contents()) + Reversed(src)
    {
      ghost var was := data[..used];
      var i := |src|;
      while i > 0
        invariant 0 <= i <= |src| && Valid() && used == old(used) + |src| - i
        invariant data[..old(used)] == was
        invariant forall k | i <= k < |src| :: data[used - 1 - (k - i)] == src[k]
      {
        data[used] := src[i - 1];
        used := used + 1;
        i := i - 1;
      }
      assert data[..used] == was + Reversed(src);
    }

    /** `vtm_buf_putm` and `vtm_buf_puts`: appends bytes as they are. */
    method PutM(src: seq<byte>) returns (rc: Error)
      requires Valid() && |src| < SIZE && len < SIZE
      modifies this, data
      ensures Valid() && len < SIZE && (data == old(data) || fresh(data)) && read == old(read)
      ensures rc == err
      ensures err == if old(err) == Ok && !old(Fits(|src|)) then Overflow else old(err)
      ensures Contents() == old(Contents()) + if err == Ok then src else []
    {
      rc := PutO(src, order);
    }

    /** `vtm_buf_putc`. */
    method PutC(c: byte) returns (rc: Error)
      requires Valid() && len < SIZE
      modifies this, data
      ensures Valid() && len < SIZE && (data == old(data) || fresh(data)) && read == old(read)
      ensures rc == err
      ensures err == if old(err) == Ok && !old(Fits(1)) then Overflow else old(err)
      ensures Contents() == old(Contents()) + if err == Ok then [c] else []
    {
      rc := Ensure(1);
      if rc != Ok {
        return;
      }
      data[used] := c;
      used := used + 1;
    }

    /** VTM_BUF_GETC. */
    method GetC() returns (c: byte)
      requires Valid() && Unread() != []
      modifies this`read
      ensures Valid() && [c] + Unread() == old(Unread()) && Contents() == old(Contents())
    {
      c := data[read];
      read := read + 1;
    }

    /** `vtm_buf_geto`: takes `n` bytes and stores them in memory in the given order. */
    method GetO(n: nat, dstOrder: Order) returns (dst: seq<byte>)
      requires Valid() && n <= |Unread()|
      modifies this`read
      ensures Valid() && Contents() == old(Contents())
      ensures dst == Reordered(old(Unread())[..n], order, dstOrder) && Unread() == old(Unread())[n..]
    {
      if order == dstOrder {
        dst := data[read..read + n];
        assert dst == Unread()[..n];
      } else {
        dst := GetReversed(n);
      }
      read := read + n;
    }

    /** The byte-reversing loop of `vtm_buf_geto`. */
    method GetReversed(n: nat) returns (dst: seq<byte>)
      requires Valid() && n <= |Unread()|
      ensures dst == Reversed(Unread()[..n])
    {
      var mem := new byte[n];
      var i := 0;
      while i < n
        invariant 0 <= i <= n
        invariant forall k | n - i <= k < n :: mem[k] == data[read + n - 1 - k]
      {
        mem[n - i - 1] := data[read + i];
        i := i + 1;
      }
      dst := mem[..];
      forall k | 0 <= k < n ensures dst[k] == Reversed(Unread()[..n])[k] {
        assert Unread()[..n][n - 1 - k] == data[read + n - 1 - k];
      }
    }

    /** `vtm_buf_mark_processed`: only a wrap of the cursor is refused, not one past the used bytes. */
    method MarkProcessed(num: nat) returns (rc: Error)
      requires read < SIZE && num < SIZE
      modifies this`read
      ensures rc == if old(read) + num < SIZE then Ok else Overflow
      ensures read == if rc == Ok then old(read) + num else old(read)
      ensures old(Valid()) ==> (Valid() <==> rc == Overflow || num <= old(used - read))
    {
      if read + num >= SIZE {
        return Overflow;
      }
      read := read + num;
      rc := Ok;
    }

    /** `vtm_buf_discard_processed`. */
    method DiscardProcessed()
      requires Valid()
      modifies this`used, this`read, data
      ensures Valid() && read == 0
      ensures Contents() == Unread() == old(Unread())
    {
      if read == 0 {
        return;
      }
      ghost var unread := data[read..used];
      var n := used - read;
      forall i | 0 <= i < n {
        data[i] := data[read + i];
      }
      used := n;
      read := 0;
      assert data[..used] == unread;
    }

    /** `vtm_buf_clear`. */
    method Clear()
      requires Valid()
      modifies this`used, this`read, this`err
      ensures Valid() && Contents() == [] && read == 0 && err == Ok
    {
      used := 0;
      read := 0;
      err := Ok;
    }
  }
}
