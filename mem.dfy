/** The C types the buffer is written in terms of, and the two C library copy
    routines it relies on: `memcpy` for copies between distinct arrays and
    `memmove` for the overlapping move that compaction performs inside one array. */
module Mem {

  /** `uint8_t` */
  type byte = x: int | 0 <= x < 0x100

  /** `uint32_t` */
  type u32 = x: int | 0 <= x < 0x1_0000_0000

  /** The largest value of the `int` that every operation returns. */
  const INT_MAX: int := 0x7FFF_FFFF

  /** The array contents after the first `i` steps of a forward byte-by-byte
      copy from offset `src` to offset `dst` of the same array: step `j` reads
      position `src + j` of the array as it stands after the earlier steps. */
  function ForwardCopy(s: seq<byte>, dst: nat, src: nat, i: nat): (r: seq<byte>)
    requires dst + i <= |s| && src + i <= |s|
    ensures |r| == |s|
    decreases i
  {
    if i == 0 then s
    else
      var t := ForwardCopy(s, dst, src, i - 1);
      t[dst + i - 1 := t[src + i - 1]]
  }

  /** A forward copy whose destination lies at or below its source moves the
      source bytes intact, even when the two ranges overlap, and touches nothing
      outside the destination range. */
  lemma {:induction false} ForwardCopyMoves(s: seq<byte>, dst: nat, src: nat, i: nat)
    requires dst <= src && src + i <= |s|
    ensures forall k :: dst <= k < dst + i ==> ForwardCopy(s, dst, src, i)[k] == s[src + (k - dst)]
    ensures forall k :: 0 <= k < |s| && !(dst <= k < dst + i) ==> ForwardCopy(s, dst, src, i)[k] == s[k]
  {
    if i > 0 {
      ForwardCopyMoves(s, dst, src, i - 1);
      var t := ForwardCopy(s, dst, src, i - 1);
      // the byte read by the last step lies at or above every byte written before it
      assert !(dst <= src + i - 1 < dst + (i - 1));
      assert t[src + i - 1] == s[src + i - 1];
      assert ForwardCopy(s, dst, src, i) == t[dst + i - 1 := s[src + i - 1]];
    }
  }

  /** The slice form of `ForwardCopyMoves`. */
  lemma MovedSlice(s: seq<byte>, r: seq<byte>, dst: nat, src: nat, n: nat)
    requires dst <= src && src + n <= |s| == |r|
    requires forall k :: dst <= k < dst + n ==> r[k] == s[src + (k - dst)]
    ensures r[dst..dst + n] == s[src..src + n]
  {
  }

  /** `memcpy(dst + dstOff, src + srcOff, n)`: the two arrays are distinct. */
  method Memcpy(dst: array<byte>, dstOff: nat, src: array<byte>, srcOff: nat, n: nat)
    requires dst != src
    requires dstOff + n <= dst.Length && srcOff + n <= src.Length
    modifies dst
    ensures dst[dstOff..dstOff + n] == src[srcOff..srcOff + n]
    ensures forall k :: 0 <= k < dst.Length && !(dstOff <= k < dstOff + n) ==> dst[k] == old(dst[k])
  {
    var i := 0;
    while i < n
      invariant 0 <= i <= n
      invariant forall k :: dstOff <= k < dstOff + i ==> dst[k] == src[srcOff + (k - dstOff)]
      invariant forall k :: 0 <= k < dst.Length && !(dstOff <= k < dstOff + i) ==> dst[k] == old(dst[k])
    {
      dst[dstOff + i] := src[srcOff + i];
      i := i + 1;
    }
  }

  /** `memmove(a + dst, a + src, n)` in the direction compaction uses it
      (destination at or below the source), carried out as a forward copy. */
  method Memmove(a: array<byte>, dst: nat, src: nat, n: nat)
    requires dst <= src && src + n <= a.Length
    modifies a
    ensures a[dst..dst + n] == old(a[src..src + n])
    ensures forall k :: 0 <= k < a.Length && !(dst <= k < dst + n) ==> a[k] == old(a[k])
  {
    ghost var s := a[..];
    var i := 0;
    while i < n
      invariant 0 <= i <= n
      invariant a[..] == ForwardCopy(s, dst, src, i)
    {
      a[dst + i] := a[src + i];
      i := i + 1;
    }
    ForwardCopyMoves(s, dst, src, n);
    MovedSlice(s, a[..], dst, src, n);
  }
}
