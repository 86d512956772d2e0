/** The same buffer under the names the audio code uses: `audio_stack_t` is
    `LinearBuffer.Buffer`, and each `audio_stack_*` entry point performs the
    linear buffer's operation on that state, with the same contract. */
module AudioStack {
  import opened Mem
  import LB = LinearBuffer

  /** `audio_stack_init` */
  method Init(stack: LB.Buffer, buffer: array?<byte>, size: u32) returns (rc: int)
    requires buffer != null ==> size <= buffer.Length
    requires size <= INT_MAX
    modifies stack
    ensures buffer == null || size == 0 ==> rc == -1 && unchanged(stack)
    ensures buffer != null && size != 0 ==>
              rc == 0 && stack.region == buffer && stack.top == size && stack.bp == 0 && stack.sp == 0
    ensures rc == 0 ==>
              stack.Valid() && stack.Payload() == [] && Size(stack) == size && DataLen(stack) == 0 && SpaceLen(stack) == size
  {
    rc := stack.Init(buffer, size);
  }

  /** `audio_stack_push` */
  method Push(stack: LB.Buffer, data: array?<byte>, size: u32) returns (n: int)
    requires stack.Valid()
    requires data != null ==> LB.Min(size, SpaceLen(stack)) <= data.Length && data != stack.region
    modifies stack`bp, stack`sp, stack.region
    ensures stack.Valid()
    ensures data == null ==> n == -1 && unchanged(stack, stack.region)
    ensures data != null ==> n == LB.Min(size, old(SpaceLen(stack)))
    ensures data != null ==> stack.Payload() == old(stack.Payload()) + data[..n]
    ensures data != null && old(stack.top - stack.sp) >= size ==> stack.bp == old(stack.bp) && stack.sp == old(stack.sp) + size
    ensures data != null && old(stack.top - stack.sp) < size ==> stack.bp == 0
    ensures data != null && n < size ==> stack.bp == 0 && stack.sp == stack.top && SpaceLen(stack) == 0
    ensures forall k :: stack.top <= k < stack.region.Length ==> stack.region[k] == old(stack.region[k])
  {
    n := stack.Push(data, size);
  }

  /** `audio_stack_pop` */
  method Pop(stack: LB.Buffer, data: array?<byte>, size: u32) returns (n: int)
    requires stack.Valid()
    requires data != null ==> data != stack.region && LB.Min(size, DataLen(stack)) <= data.Length
    modifies stack`bp, data
    ensures stack.Valid()
    ensures n == LB.Min(size, old(DataLen(stack)))
    ensures stack.bp == old(stack.bp) + n
    ensures stack.Payload() == old(stack.Payload())[n..]
    ensures data != null ==> data[..n] == old(stack.Payload())[..n] && data[n..] == old(data[n..])
  {
    n := stack.Pop(data, size);
  }

  /** `audio_stack_peek` */
  method Peek(stack: LB.Buffer) returns (rc: int, ptr: nat, len: u32)
    requires stack.Valid()
    ensures rc == 0 && ptr == stack.bp && len == DataLen(stack)
    ensures ptr + len <= stack.region.Length && stack.region[ptr..ptr + len] == stack.Payload()
  {
    rc, ptr, len := stack.Peek();
  }

  /** `audio_stack_size` */
  function Size(stack: LB.Buffer?): (r: u32)
    reads stack
    requires stack != null ==> stack.Valid()
    ensures stack == null ==> r == 0
    ensures stack != null ==> r == stack.top && r <= stack.region.Length
  {
    LB.Size(stack)
  }

  /** `audio_stack_data_len` */
  function DataLen(stack: LB.Buffer?): (r: u32)
    reads if stack == null then {} else {stack, stack.region}
    requires stack != null ==> stack.Valid()
    ensures stack == null ==> r == 0
    ensures stack != null ==> r == |stack.Payload()| && r <= Size(stack)
  {
    LB.DataLen(stack)
  }

  /** `audio_stack_space_len` */
  function SpaceLen(stack: LB.Buffer?): (r: u32)
    reads if stack == null then {} else {stack, stack.region}
    requires stack != null ==> stack.Valid()
    ensures stack == null ==> r == 0
    ensures stack != null ==> DataLen(stack) + r == Size(stack)
    ensures stack != null ==> r == stack.bp + (stack.top - stack.sp)
  {
    LB.SpaceLen(stack)
  }
}
