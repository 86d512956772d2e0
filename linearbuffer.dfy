/** The linear buffer: a caller-supplied byte array with a read position `bp`
    and a write position `sp`. The struct's four pointers become offsets into
    the one backing array: `region` is offset 0 and `top` is the offset one past
    the last usable byte. The unread payload is the slice `[bp, sp)`. */
module LinearBuffer {
  import opened Mem

  function Min(a: int, b: int): (r: int) { if a <= b then a else b }

  /** `linearbuffer_t` */
  class Buffer {
    var region: array<byte>
    var top: nat
    var bp: nat
    var sp: nat

    /** The pointer ordering `region <= bp <= sp <= top`, with `[region, top)`
        inside the backing array and every byte count fitting the `int` results. */
    ghost predicate Valid()
      reads this
    {
      top <= region.Length && top <= INT_MAX && bp <= sp <= top
    }

    /** The unread bytes, in the order they were pushed. */
    ghost function Payload(): (p: seq<byte>)
      reads this, region
      requires Valid()
    {
      region[bp..sp]
    }

    /** A zero-initialised handle, before `linearbuffer_init` binds it: a
        buffer of capacity 0. */
    constructor ()
      ensures Valid() && top == 0 && Payload() == []
    {
      region := new byte[0];
      top, bp, sp := 0, 0, 0;
    }

    /** `linearbuffer_init`: binds the buffer to the first `size` bytes of
        `buffer`, or fails with -1 and changes nothing. */
    method Init(buffer: array?<byte>, size: u32) returns (rc: int)
      requires buffer != null ==> size <= buffer.Length
      requires size <= INT_MAX
      modifies this
      ensures buffer == null || size == 0 ==> rc == -1 && unchanged(this)
      ensures buffer != null && size != 0 ==>
                rc == 0 && region == buffer && top == size && bp == 0 && sp == 0
      ensures rc == 0 ==>
                Valid() && Payload() == [] && Size(this) == size && DataLen(this) == 0 && SpaceLen(this) == size
    {
      if buffer == null || size == 0 {
        return -1;
      }
      region := buffer;
      bp, sp := 0, 0;
      top := size;
      rc := 0;
    }

    /** The compaction step of `linearbuffer_push`: slides the unread bytes
        down to the start of the region, over their own old position. */
    method Compact()
      requires Valid()
      modifies this`bp, this`sp, region
      ensures Valid()
      ensures bp == 0 && sp == old(sp - bp)
      ensures Payload() == old(Payload())
      ensures forall k :: top <= k < region.Length ==> region[k] == old(region[k])
    {
      var dataLen := sp - bp;
      Memmove(region, 0, bp, dataLen);
      bp := 0;
      sp := dataLen;
    }

    /** The copy step of `linearbuffer_push`: writes the first `m` bytes of
        `data` at `sp`, where they fit, and advances `sp` past them. */
    method Append(data: array<byte>, m: nat)
      requires Valid()
      requires m <= data.Length && data != region && sp + m <= top
      modifies this`sp, region
      ensures Valid()
      ensures sp == old(sp) + m
      ensures Payload() == old(Payload()) + data[..m]
      ensures forall k :: top <= k < region.Length ==> region[k] == old(region[k])
    {
      ghost var bytes := region[..];
      Memcpy(region, sp, data, 0, m);
      WriteAtEnd(bytes, region[..], bp, sp, data[..m]);
      sp := sp + m;
    }

    /** `linearbuffer_push`: appends as many of the first `size` bytes of
        `data` as fit, compacting first when the room after `sp` is too small,
        and returns how many it wrote (-1 when `data` is NULL). */
    method Push(data: array?<byte>, size: u32) returns (n: int)
      requires Valid()
      requires data != null ==> Min(size, SpaceLen(this)) <= data.Length && data != region
      modifies this`bp, this`sp, region
      ensures Valid()
      ensures data == null ==> n == -1 && unchanged(this, region)
      ensures data != null ==> n == Min(size, old(SpaceLen(this)))
      ensures data != null ==> Payload() == old(Payload()) + data[..n]
      ensures data != null && old(top - sp) >= size ==> bp == old(bp) && sp == old(sp) + size
      ensures data != null && old(top - sp) < size ==> bp == 0
      ensures data != null && n < size ==> bp == 0 && sp == top && SpaceLen(this) == 0
      ensures forall k :: top <= k < region.Length ==> region[k] == old(region[k])
    {
      if data == null {
        return -1;
      }
      if top - sp >= size {
        Append(data, size);
        return size;
      }
      if bp != 0 {
        Compact();
      }
      var wr2end := top - sp;
      var m := if size > wr2end then wr2end else size;
      Append(data, m);
      n := m;
    }

    /** `linearbuffer_pop`: consumes up to `size` unread bytes, copying them
        into `data` unless it is NULL, and returns how many it consumed. */
    method Pop(data: array?<byte>, size: u32) returns (n: int)
      requires Valid()
      requires data != null ==> data != region && Min(size, DataLen(this)) <= data.Length
      modifies this`bp, data
      ensures Valid()
      ensures n == Min(size, old(DataLen(this)))
      ensures bp == old(bp) + n
      ensures Payload() == old(Payload())[n..]
      ensures data != null ==> data[..n] == old(Payload())[..n] && data[n..] == old(data[n..])
    {
      var end := bp + size;
      if end > sp {
        end := sp;
      }
      var popSize := end - bp;
      if data != null {
        Memcpy(data, 0, region, bp, popSize);
        assert data[..popSize] == region[bp..bp + popSize] == region[bp..sp][..popSize];
        assert data[popSize..] == old(data[popSize..]);
      }
      bp := end;
      n := popSize;
    }

    /** `linearbuffer_peek`: a view of the whole unread payload, as its
        offset and length, without changing anything. */
    method Peek() returns (rc: int, ptr: nat, len: u32)
      requires Valid()
      ensures rc == 0 && ptr == bp && len == DataLen(this)
      ensures ptr + len <= region.Length && region[ptr..ptr + len] == Payload()
    {
      ptr := bp;
      len := DataLen(this);
      rc := 0;
    }
  }

  /** Bytes written at `sp`, with nothing in `[bp, sp)` disturbed, extend the
      slice `[bp, sp)` by exactly those bytes. */
  lemma WriteAtEnd(before: seq<byte>, after: seq<byte>, bp: nat, sp: nat, d: seq<byte>)
    requires bp <= sp <= |before| && sp + |d| <= |after|
    requires after[sp..sp + |d|] == d
    requires forall k :: bp <= k < sp ==> after[k] == before[k]
    ensures after[bp..sp + |d|] == before[bp..sp] + d
  {
  }

  /** `linearbuffer_size`: the capacity fixed by `linearbuffer_init`. */
  function Size(lb: Buffer?): (r: u32)
    reads lb
    requires lb != null ==> lb.Valid()
    ensures lb == null ==> r == 0
    ensures lb != null ==> r == lb.top && r <= lb.region.Length
  {
    if lb == null then 0 else lb.top
  }

  /** `linearbuffer_data_len`: the number of unread bytes. */
  function DataLen(lb: Buffer?): (r: u32)
    reads if lb == null then {} else {lb, lb.region}
    requires lb != null ==> lb.Valid()
    ensures lb == null ==> r == 0
    ensures lb != null ==> r == |lb.Payload()| && r <= Size(lb)
  {
    if lb == null then 0 else lb.sp - lb.bp
  }

  /** `linearbuffer_space_len`: the bytes a push can still take, counting the
      room before `bp` that compaction reclaims as well as the room after `sp`. */
  function SpaceLen(lb: Buffer?): (r: u32)
    reads if lb == null then {} else {lb, lb.region}
    requires lb != null ==> lb.Valid()
    ensures lb == null ==> r == 0
    ensures lb != null ==> DataLen(lb) + r == Size(lb)
    ensures lb != null ==> r == lb.bp + (lb.top - lb.sp)
  {
    if lb == null then 0 else Size(lb) - DataLen(lb)
  }
}
