/**
 * vector_downward: one buffer that holds two stacks of bytes. Data grows from its end towards lower
 * addresses and the scratch area from its start towards higher ones. A pointer is an index into buf.
 */
module VectorDownward {
  import opened Bytes

  const SIZE_LIMIT := 0x1_0000_0000

  /** (n + m - 1) & ~(m - 1): the smallest multiple of an alignment that is not below n. */
  function RoundUp(n: nat, m: nat): (r: nat)
    requires IsAlignment(m)
    ensures n <= r < n + m && Aligned(r, m)
  {
    (n + m - 1) - LowBits(n + m - 1, m)
  }

  function Max(x: nat, y: nat): nat {
    if x > y then x else y
  }

  /** The size of a block that replaces one of this size: half as much again, or more if more is asked for. */
  function Grown(reserved: nat, len: nat, initialSize: nat, align: nat): (r: nat)
    requires IsAlignment(align)
    ensures var least := reserved + Max(len, if reserved > 0 then reserved / 2 else initialSize);
      least <= r < least + align && r % align == 0
  {
    var r := RoundUp(reserved + Max(len, if reserved > 0 then reserved / 2 else initialSize), align);
    AlignedIsMultiple(r, align);
    r
  }

  /** Allocator::memcpy_downward: both ends of the old block move to the same ends of the new one. */
  method MemcpyDownward(oldP: array<byte>, newP: array<byte>, inUseBack: nat, inUseFront: nat)
    requires oldP != newP && inUseBack + inUseFront <= oldP.Length < newP.Length
    modifies newP
    ensures newP[newP.Length - inUseBack..] == oldP[oldP.Length - inUseBack..]
    ensures newP[..inUseFront] == oldP[..inUseFront]
  {
    var grown := newP.Length - oldP.Length;
    forall i | oldP.Length - inUseBack <= i < oldP.Length {
      newP[i + grown] := oldP[i];
    }
    ghost var back := newP[newP.Length - inUseBack..];
    assert back == oldP[oldP.Length - inUseBack..] by {
      forall i | 0 <= i < inUseBack
        ensures back[i] == oldP[oldP.Length - inUseBack + i]
      {
        var j := oldP.Length - inUseBack + i;
        assert newP[j + grown] == oldP[j];
      }
    }
    forall i | 0 <= i < inUseFront {
      newP[i] := oldP[i];
    }
    assert newP[newP.Length - inUseBack..] == back;
  }

  /** after is before with n bytes at one place overwritten. */
  ghost predicate Overwritten(before: seq<byte>, after: seq<byte>, at: nat, bytes: seq<byte>) {
    && |before| == |after| && at + |bytes| <= |before|
    && forall j :: 0 <= j < |after| ==> after[j] == if at <= j < at + |bytes| then bytes[j - at] else before[j]
  }

  lemma OverwrittenOutside(before: seq<byte>, after: seq<byte>, at: nat, bytes: seq<byte>, lo: nat, hi: nat)
    requires Overwritten(before, after, at, bytes) && lo <= at && at + |bytes| <= hi <= |before|
    ensures after[..lo] == before[..lo] && after[hi..] == before[hi..]
  {}

  lemma OverwrittenTop(before: seq<byte>, after: seq<byte>, at: nat, bytes: seq<byte>)
    requires Overwritten(before, after, at, bytes)
    ensures after[at..] == bytes + before[at..][|bytes|..]
    ensures after[..at + |bytes|] == before[..at] + bytes
  {}

  lemma OverwrittenInside(before: seq<byte>, after: seq<byte>, base: nat, i: nat, bytes: seq<byte>)
    requires Overwritten(before, after, base + i, bytes)
    ensures after[base..] == before[base..][..i] + bytes + before[base..][i + |bytes|..]
  {}

  /** memcpy of bytes to p + at. */
  method Store(p: array<byte>, at: nat, bytes: seq<byte>)
    requires at + |bytes| <= p.Length
    modifies p
    ensures Overwritten(old(p[..]), p[..], at, bytes)
  {
    forall i | at <= i < at + |bytes| {
      p[i] := bytes[i - at];
    }
  }

  /** The loop of fill. */
  method ZeroOut(p: array<byte>, at: nat, n: nat)
    requires at + n <= p.Length
    modifies p
    ensures Overwritten(old(p[..]), p[..], at, Zeros(n))
  {
    for i := 0 to n
      invariant forall j :: 0 <= j < at || at + n <= j < p.Length ==> p[j] == old(p[j])
      invariant forall j :: at <= j < at + i ==> p[j] == 0
    {
      p[at + i] := 0;
    }
  }

  class VectorDownward {
    const initialSize: nat
    const maxSize: nat
    const bufferMinalign: nat
    var reserved: nat
    var size: nat
    var buf: array?<byte>
    var cur: nat
    var scratch: nat

    ghost predicate Valid()
      reads this, buf
    {
      && IsAlignment(bufferMinalign)
      && maxSize < SIZE_LIMIT
      && scratch <= cur <= reserved
      && size == reserved - cur < SIZE_LIMIT && scratch < SIZE_LIMIT
      && (if buf == null then reserved == 0 else buf.Length == reserved)
    }

    /** The data stack, lowest address first: its top is its first byte. */
    ghost function Data(): (s: seq<byte>)
      requires Valid()
      reads this, buf
      ensures |s| == size
    {
      if buf == null then [] else buf[cur..]
    }

    /** The scratch stack, bottom first. */
    ghost function Scratch(): (s: seq<byte>)
      requires Valid()
      reads this, buf
      ensures |s| == scratch
    {
      if buf == null then [] else buf[..scratch]
    }

    /** The byte at data_at(off): off bytes before the end of the block, wherever the block is. */
    ghost function ByteAt(off: nat): (b: byte)
      requires Valid() && 0 < off <= size
      reads this, buf
      ensures b == Data()[size - off]
    {
      buf[reserved - off]
    }

    constructor (initialSize: nat, bufferMinalign: nat, maxSize: nat)
      requires IsAlignment(bufferMinalign) && maxSize < SIZE_LIMIT
      ensures Valid() && Data() == [] && Scratch() == [] && buf == null
      ensures this.initialSize == initialSize && this.maxSize == maxSize && this.bufferMinalign == bufferMinalign
    {
      this.initialSize := initialSize;
      this.bufferMinalign := bufferMinalign;
      this.maxSize := maxSize;
      reserved, size, buf, cur, scratch := 0, 0, null, 0, 0;
    }

    /** The bytes between the two stacks, in the 32 bits of the result type. */
    function UnusedBufferSize(): nat
      requires scratch <= cur
      reads this
    {
      (cur - scratch) % SIZE_LIMIT
    }

    method Reallocate(len: nat)
      requires Valid() && len > 0
      modifies this
      ensures Valid() && fresh(buf) && buf != null
      ensures cur - scratch >= old(cur - scratch) + len
      ensures Data() == old(Data()) && Scratch() == old(Scratch())
      ensures forall off :: 0 < off <= size ==> ByteAt(off) == old(ByteAt(off))
      ensures size == old(size) && scratch == old(scratch)
      ensures reserved == Grown(old(reserved), len, initialSize, bufferMinalign)
    {
      var oldReserved, oldSize, oldScratchSize := reserved, size, scratch;
      var newReserved := Grown(oldReserved, len, initialSize, bufferMinalign);
      hide Grown, IsAlignment;
      var newP := new byte[newReserved];
      if buf != null {
        MemcpyDownward(buf, newP, oldSize, oldScratchSize);
      }
      reserved := newReserved;
      buf := newP;
      cur := reserved - oldSize;
      scratch := oldScratchSize;
    }

    /** Room for len more bytes on either stack. */
    method EnsureSpace(len: nat)
      requires Valid() && size < maxSize
      modifies this
      ensures Valid() && cur - scratch >= len
      ensures buf == old(buf) || fresh(buf)
      ensures len > 0 ==> buf != null
      ensures Data() == old(Data()) && Scratch() == old(Scratch())
      ensures buf == old(buf) <==> len <= old(UnusedBufferSize())
    {
      if len > UnusedBufferSize() {
        Reallocate(len);
      }
    }

    /** Grows the data stack by len bytes, whose contents are whatever the block holds there. */
    method MakeSpace(len: nat)
      requires Valid() && size < maxSize && size + len < SIZE_LIMIT
      modifies this
      ensures Valid() && size == old(size) + len && scratch == old(scratch)
      ensures buf == old(buf) || fresh(buf)
      ensures len > 0 ==> buf != null
      ensures Data()[len..] == old(Data()) && Scratch() == old(Scratch())
    {
      if len > 0 {
        EnsureSpace(len);
        cur := cur - len;
        size := size + len;
      }
    }

    /** push and push_small: the bytes end up at the top of the data stack, which is its front. */
    method Push(bytes: seq<byte>)
      requires Valid() && size < maxSize && size + |bytes| < SIZE_LIMIT
      modifies this, buf
      ensures Valid() && Data() == bytes + old(Data()) && Scratch() == old(Scratch())
      ensures buf == old(buf) || fresh(buf)
    {
      if |bytes| > 0 {
        MakeSpace(|bytes|);
        ghost var before := buf[..];
        Store(buf, cur, bytes);
        OverwrittenOutside(before, buf[..], cur, bytes, scratch, cur + |bytes|);
        OverwrittenTop(before, buf[..], cur, bytes);
      }
    }

    /** scratch_push_small. */
    method ScratchPush(bytes: seq<byte>)
      requires Valid() && size < maxSize && scratch + |bytes| < SIZE_LIMIT
      modifies this, buf
      ensures Valid() && Data() == old(Data()) && Scratch() == old(Scratch()) + bytes
      ensures buf == old(buf) || fresh(buf)
    {
      EnsureSpace(|bytes|);
      if |bytes| > 0 {
        ghost var before := buf[..];
        Store(buf, scratch, bytes);
        OverwrittenOutside(before, buf[..], scratch, bytes, 0, cur);
        OverwrittenTop(before, buf[..], scratch, bytes);
        scratch := scratch + |bytes|;
      }
    }

    /** fill and fill_big: zero bytes on the data stack. */
    method Fill(n: nat)
      requires Valid() && size < maxSize && size + n < SIZE_LIMIT
      modifies this, buf
      ensures Valid() && Data() == Zeros(n) + old(Data()) && Scratch() == old(Scratch())
      ensures buf == old(buf) || fresh(buf)
    {
      MakeSpace(n);
      if n > 0 {
        ghost var before := buf[..];
        ZeroOut(buf, cur, n);
        OverwrittenOutside(before, buf[..], cur, Zeros(n), scratch, cur + n);
        OverwrittenTop(before, buf[..], cur, Zeros(n));
      }
    }

    method Pop(n: nat)
      requires Valid() && n <= size
      modifies this
      ensures Valid() && Data() == old(Data())[n..] && Scratch() == old(Scratch())
      ensures buf == old(buf)
    {
      cur := cur + n;
      size := size - n;
    }

    method ScratchPop(n: nat)
      requires Valid() && n <= scratch
      modifies this
      ensures Valid() && Data() == old(Data()) && Scratch() == old(Scratch()[..scratch - n])
      ensures scratch == old(scratch) - n && buf == old(buf)
    {
      scratch := scratch - n;
    }

    method ClearScratch()
      requires Valid()
      modifies this
      ensures Valid() && Data() == old(Data()) && Scratch() == [] && buf == old(buf)
    {
      scratch := 0;
    }

    method Clear()
      requires Valid()
      modifies this
      ensures Valid() && Data() == [] && Scratch() == [] && buf == old(buf)
    {
      if buf != null {
        cur := reserved;
      } else {
        reserved := 0;
        cur := 0;
      }
      size := 0;
      ClearScratch();
    }

    /** WriteScalar at data() + i: overwrites bytes that are already on the data stack. */
    method Write(i: nat, bytes: seq<byte>)
      requires Valid() && i + |bytes| <= size && buf != null
      modifies buf
      ensures Valid() && Data() == old(Data())[..i] + bytes + old(Data())[i + |bytes|..] && Scratch() == old(Scratch())
    {
      ghost var before := buf[..];
      Store(buf, cur + i, bytes);
      OverwrittenOutside(before, buf[..], cur + i, bytes, scratch, cur + i + |bytes|);
      OverwrittenInside(before, buf[..], cur, i, bytes);
    }

    /** Reads n bytes at data_at(off): off bytes before the end of the buffer. */
    method ReadAt(off: nat, n: nat) returns (bytes: seq<byte>)
      requires Valid() && n <= off <= size && buf != null
      ensures bytes == Data()[size - off..size - off + n]
    {
      bytes := buf[reserved - off..reserved - off + n];
      assert bytes == Data()[size - off..size - off + n];
    }
  }
}
