/** Client programs over a freshly bound buffer, each proving, for every input,
    what the repository's tests assert about a sequence of calls, or the
    reclaiming of consumed room that the compaction step of push performs.
    Each uses only the contracts of the `LinearBuffer` operations. */
module Scenarios {
  import opened Mem
  import LB = LinearBuffer

  /** A buffer of `capacity` bytes bound to a fresh backing array. */
  method NewBuffer(capacity: u32) returns (lb: LB.Buffer)
    requires 0 < capacity <= INT_MAX
    ensures fresh(lb) && fresh(lb.region)
    ensures lb.Valid() && lb.Payload() == [] && LB.Size(lb) == capacity
  {
    var store := new byte[capacity];
    lb := new LB.Buffer();
    var rc := lb.Init(store, capacity);
  }

  /** A fresh buffer holds nothing: its data length and peeked length are 0,
      its free space is its capacity, and a pop of any size returns 0. */
  method EmptyBuffer(capacity: u32, size: u32) returns (dataLen: u32, space: u32, peeked: u32, popped: int)
    requires 0 < capacity <= INT_MAX
    ensures dataLen == 0 && space == capacity && peeked == 0 && popped == 0
  {
    var lb := NewBuffer(capacity);
    dataLen, space := LB.DataLen(lb), LB.SpaceLen(lb);
    var rc, ptr;
    rc, ptr, peeked := lb.Peek();
    popped := lb.Pop(null, size);
  }

  /** Pushing bytes that fit and popping as many gives back exactly those
      bytes and leaves the buffer empty again. */
  method RoundTrip(data: array<byte>, capacity: u32) returns (pushed: int, popped: int, out: array<byte>, left: u32)
    requires 0 < capacity <= INT_MAX && data.Length <= capacity
    ensures pushed == popped == data.Length
    ensures out[..] == data[..]
    ensures left == 0
  {
    var lb := NewBuffer(capacity);
    pushed := lb.Push(data, data.Length);
    out := new byte[data.Length];
    popped := lb.Pop(out, data.Length);
    assert out[..] == out[..popped];
    left := LB.DataLen(lb);
  }

  /** Two pushes followed by two pops return the two items in the order they
      were pushed. */
  method FifoOrder(first: array<byte>, second: array<byte>, capacity: u32)
    returns (out1: array<byte>, out2: array<byte>, left: u32)
    requires 0 < capacity <= INT_MAX && first.Length + second.Length <= capacity
    ensures out1[..] == first[..] && out2[..] == second[..]
    ensures left == 0
  {
    var lb := PushedTwice(first, second, capacity);
    ghost var a, b := first[..], second[..];
    out1 := new byte[first.Length];
    var m1 := lb.Pop(out1, first.Length);
    assert out1[..] == out1[..m1] == (a + b)[..m1] == a;
    assert lb.Payload() == (a + b)[m1..] == b;
    out2 := new byte[second.Length];
    var m2 := lb.Pop(out2, second.Length);
    assert out2[..] == out2[..m2];
    left := LB.DataLen(lb);
  }

  /** A fresh buffer after `first` and then `second` were pushed into it. */
  method PushedTwice(first: array<byte>, second: array<byte>, capacity: u32) returns (lb: LB.Buffer)
    requires 0 < capacity <= INT_MAX && first.Length + second.Length <= capacity
    ensures fresh(lb) && fresh(lb.region)
    ensures lb.Valid() && lb.Payload() == first[..] + second[..]
  {
    lb := NewBuffer(capacity);
    var n1 := lb.Push(first, first.Length);
    assert n1 == first.Length && lb.Payload() == first[..];
    var n2 := lb.Push(second, second.Length);
    assert n2 == second.Length;
  }

  /** With `held` bytes already in a buffer of `capacity`, a push of one byte
      more than the free space writes exactly the free space and leaves the
      buffer full. */
  method ShortWrite(held: array<byte>, more: array<byte>, capacity: u32)
    returns (written: int, dataLen: u32, space: u32)
    requires 0 < capacity <= INT_MAX && held.Length <= capacity
    requires more.Length == capacity - held.Length + 1
    ensures written == capacity - held.Length
    ensures dataLen == capacity && space == 0
  {
    var lb := NewBuffer(capacity);
    var n := lb.Push(held, held.Length);
    written := lb.Push(more, more.Length);
    dataLen, space := LB.DataLen(lb), LB.SpaceLen(lb);
  }

  /** After an item is pushed and then discarded, a second item of any size up
      to the capacity is taken in full, although the room left after the write
      position alone may be too small: compaction reclaims the consumed bytes. */
  method CompactionReclaims(first: array<byte>, second: array<byte>, capacity: u32)
    returns (discarded: int, written: int, view: seq<byte>)
    requires 0 < capacity <= INT_MAX && first.Length <= capacity && second.Length <= capacity
    ensures discarded == first.Length
    ensures written == second.Length
    ensures view == second[..]
  {
    var lb := NewBuffer(capacity);
    var n := lb.Push(first, first.Length);
    discarded := lb.Pop(null, first.Length);
    written := lb.Push(second, second.Length);
    var rc, ptr, len := lb.Peek();
    view := lb.region[ptr..ptr + len];
  }

  /** Filling a buffer to its exact capacity succeeds in full, a further
      one-byte push writes nothing, and popping the capacity returns the
      filling bytes and empties the buffer. */
  method BoundaryConditions(full: array<byte>, extra: array<byte>, capacity: u32)
    returns (filled: int, spaceWhenFull: u32, rejected: int, popped: int, out: array<byte>, left: u32)
    requires 0 < capacity <= INT_MAX && full.Length == capacity && extra.Length == 1
    ensures filled == capacity && spaceWhenFull == 0
    ensures rejected == 0
    ensures popped == capacity && out[..] == full[..] && left == 0
  {
    var lb := NewBuffer(capacity);
    filled := lb.Push(full, full.Length);
    spaceWhenFull := LB.SpaceLen(lb);
    rejected := lb.Push(extra, 1);
    out := new byte[capacity];
    popped := lb.Pop(out, capacity);
    assert out[..] == out[..popped];
    left := LB.DataLen(lb);
  }
}
