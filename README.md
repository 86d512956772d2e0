# Linear buffer, modelled in Dafny

The repository implements a fixed-capacity linear byte buffer over storage that
the caller supplies. A `linearbuffer_t` holds four pointers into the caller's
array:

- `region` is the start of the array;
- `top` is one past its last usable byte;
- `bp` is where reading starts;
- `sp` is where the next write goes.

The unread payload is `[bp, sp)`. `push` appends bytes. When the room after
`sp` is too small, it first compacts: it slides the unread bytes down to `region`
with an overlapping `memmove`. Then it writes as much as fits, so a write may be
short. `pop` consumes up to N bytes from `bp`, copying them out or discarding
them. `peek` exposes the unread span. Three inline queries derive the capacity,
the data length and the free space. The repository carries the same code a
second time under the `audio_stack_*` names (`linerbuffer.c`, `linerbuffer.h`).

The model has four modules:

- `Mem` (`mem.dfy`) holds the C types (`uint8_t`, `uint32_t`, `INT_MAX`) and the
  two C library copies. `Memcpy` is a loop over distinct arrays. `Memmove` is a
  forward byte-by-byte loop, specified by `ForwardCopy`. The lemma
  `ForwardCopyMoves` proves that such a loop moves the bytes intact whenever the
  destination lies at or below the source, which is the direction compaction
  uses.
- `LinearBuffer` (`linearbuffer.dfy`) holds the class `Buffer`. It has the backing
  `array<byte>` and the integer offsets `top`, `bp` and `sp`; `region` is
  offset 0. The ghost predicate `Valid()` states `region <= bp <= sp <= top`.
  The ghost function `Payload()` is the unread slice. The mutating operations
  are methods with `modifies` frames, and each ties its new state and its result
  to the old state. `Size`, `DataLen` and `SpaceLen` are functions over a
  possibly-null handle, as in the header.
- `AudioStack` (`audio_stack.dfy`) has the `audio_stack_*` entry points.
  `audio_stack_t` is the same class, and every entry point performs the linear
  buffer's operation with the same contract.
- `Scenarios` (`scenarios.dfy`) holds client programs. Each binds a fresh
  buffer and proves, for all inputs, what the repository's tests assert about
  a sequence of calls, except `CompactionReclaims`, which proves that the
  compaction step of push (src/linearbuffer.c:29-36) reclaims the consumed
  room. They rely only on the operations' contracts.

Init and push report a NULL argument, and init a zero size, as the result -1
(src/linearbuffer.c:5-6, 18-19).

## Model

| member | source | states |
|---|---|---|
| `Mem.ForwardCopy` | src/linearbuffer.c:33 | the array after the first i steps of a forward byte copy; each step reads the array as the earlier steps left it; the length never changes |
| `Mem.ForwardCopyMoves` | src/linearbuffer.c:33 | when the destination is at or below the source, a forward copy of i bytes leaves the destination range equal to the original source bytes and every other position untouched, even when the ranges overlap |
| `Mem.Memmove` | src/linearbuffer.c:33 | the overlapping move of compaction: afterwards `a[dst..dst+n]` equals the old `a[src..src+n]` and nothing outside the destination changes |
| `Mem.Memcpy` | src/linearbuffer.c:24 | the copy between distinct arrays: the destination range receives the source range and nothing else in the destination changes |
| `LinearBuffer.Buffer.constructor` | inc/linearbuffer.h:12-19 | a zero-initialised handle is a valid buffer of capacity 0 with an empty payload |
| `LinearBuffer.Buffer.Init` | src/linearbuffer.c:3-12 | a NULL buffer or size 0 returns -1 and changes nothing; otherwise it returns 0 and binds `region` to the buffer with `top == size` and `bp == sp == region`, so data_len is 0 and space_len equals size |
| `LinearBuffer.Buffer.Compact` | src/linearbuffer.c:29-36 | compaction sets `bp` to `region` and `sp` to `region + data_len`, keeps the ordering invariant, leaves the payload unchanged despite the overlapping move, and leaves the caller's bytes at or past `top` untouched |
| `LinearBuffer.Buffer.Append` | src/linearbuffer.c:38-42 | the copy step: m bytes that fit before `top` are written at `sp` and `sp` advances by m, so the payload becomes the old payload followed by the first m bytes of `data`; the caller's bytes at or past `top` are untouched |
| `LinearBuffer.Buffer.Push` | src/linearbuffer.c:14-45 | NULL data returns -1 and changes nothing. Otherwise the result is `min(size, space_len before)`, and the payload becomes the old payload followed by the first result bytes of `data`. When `top - sp >= size`, `bp` stays put and `sp` advances by size. Otherwise `bp` ends at `region`. A short write leaves `bp == region`, `sp == top` and space_len 0. The invariant is kept, `region` and `top` never change, and the caller's bytes at or past `top` are untouched |
| `LinearBuffer.Buffer.Pop` | src/linearbuffer.c:47-69 | the result is `min(size, data_len)`; `bp` advances by it while `sp`, `region`, `top` and the backing bytes stay; the payload loses exactly its first result bytes; a non-NULL `data` receives those bytes and is otherwise untouched; a NULL `data` discards them |
| `LinearBuffer.Buffer.Peek` | src/linearbuffer.c:71-80 | it returns 0, the offset `bp` and length data_len, and that span of the backing array is exactly the payload; nothing changes |
| `LinearBuffer.Size` | inc/linearbuffer.h:29-32 | a NULL handle gives 0; otherwise the result is `top - region`, the capacity set at init, which lies inside the backing array |
| `LinearBuffer.DataLen` | inc/linearbuffer.h:34-37 | a NULL handle gives 0; otherwise the result is the length of the unread payload, at most the capacity |
| `LinearBuffer.SpaceLen` | inc/linearbuffer.h:39-42 | a NULL handle gives 0; otherwise `data_len + space_len == size`, and the free space is the room before `bp` plus the room after `sp` |
| `AudioStack.Init` | linerbuffer.c:3-12 | as `LinearBuffer.Buffer.Init`, for `audio_stack_init` |
| `AudioStack.Push` | linerbuffer.c:14-45 | as `LinearBuffer.Buffer.Push`, for `audio_stack_push`: it returns `min(size, space_len before)`, keeps `bp` on the fast path, compacts otherwise, appends the written bytes to the payload, a short write leaves the stack full, and bytes at or past `top` are untouched |
| `AudioStack.Pop` | linerbuffer.c:47-69 | as `LinearBuffer.Buffer.Pop`, for `audio_stack_pop`: it returns `min(size, data_len)`, advances only `bp`, and copies the leading payload bytes out when `data` is non-NULL |
| `AudioStack.Peek` | linerbuffer.c:71-80 | as `LinearBuffer.Buffer.Peek`, for `audio_stack_peek`: `bp` and data_len, nothing changes |
| `AudioStack.Size` | linerbuffer.h:33-36 | `audio_stack_size`: 0 for a NULL handle, otherwise `top - region` |
| `AudioStack.DataLen` | linerbuffer.h:38-41 | `audio_stack_data_len`: 0 for a NULL handle, otherwise the payload length |
| `AudioStack.SpaceLen` | linerbuffer.h:43-46 | `audio_stack_space_len`: 0 for a NULL handle, otherwise `data_len + space_len == size` |
| `Scenarios.NewBuffer` | test/tc.cpp:7-11 | binding a fresh array of the capacity gives an empty valid buffer of that size |
| `Scenarios.EmptyBuffer` | test/tc.cpp:122-135 | on a fresh buffer data_len is 0, space_len is the capacity, peek gives length 0 and a pop of any size returns 0 |
| `Scenarios.RoundTrip` | test/tc.cpp:58-69 | pushing N bytes that fit and popping N returns N both times, gives back exactly the pushed bytes and leaves data_len 0 |
| `Scenarios.FifoOrder` | test/tc.cpp:71-97 | two pushes and two pops give back the two items in push order and leave data_len 0 |
| `Scenarios.PushedTwice` | test/tc.cpp:78-84 | after two pushes that fit, the payload is the first item followed by the second |
| `Scenarios.ShortWrite` | test/tc.cpp:99-107 | with D bytes held in capacity C, a push of `C - D + 1` bytes returns `C - D` and leaves data_len C and space_len 0 |
| `Scenarios.CompactionReclaims` | src/linearbuffer.c:29-44 | after an item is pushed and then popped with a NULL destination, any second item up to the capacity is taken in full and peeking shows exactly it, however little room was left after `sp` |
| `Scenarios.BoundaryConditions` | test/tc.cpp:137-156 | pushing exactly the capacity returns the capacity and leaves space_len 0; a further one-byte push returns 0; popping the capacity returns the filling bytes and leaves data_len 0 |

## Left out

- Pointers become offsets into the one backing array, and `region` is offset 0. Pointer identity and address arithmetic beyond those offsets are not modelled.
- The model has no NULL handle for init, push, pop and peek, because a Dafny object reference is never null there. Their -1 result for a NULL handle (src/linearbuffer.c:5-6, 18-19, 52-53, 73-74) is therefore not modelled. The three queries do take a nullable handle and model its 0 result.
- LinearBuffer.Buffer.Peek: the -1 result for a NULL output pointer is not modelled. The model returns the offset and length as results rather than through output pointers.
- LinearBuffer.Buffer.Init: capacities above `INT_MAX` are not accepted. Above that bound the C code's `int` results would wrap. The caller's promise that the array holds `size` bytes is a precondition.
- AudioStack.Init: the same capacity bound and precondition as `LinearBuffer.Buffer.Init`.
- LinearBuffer.Buffer.Push: the caller's `data` must not be the backing array at all. C only forbids overlapping ranges, so it also allows pushing from a separate span of the same array, such as a peeked span copied to `sp`; the model does not cover that case. `data` must hold the `min(size, space_len)` bytes the push reads.
- LinearBuffer.Buffer.Pop: the caller's `data` must not be the backing array at all, although C allows a destination span of the same array that does not overlap `[bp, bp + n)`.
- AudioStack.Push: the same restriction on `data` as `LinearBuffer.Buffer.Push`.
- AudioStack.Pop: the same restriction on `data` as `LinearBuffer.Buffer.Pop`.
- Mem.Memmove: only the downward direction (destination at or below the source) is modelled. That is the only direction the compaction step uses.
- Push and compaction do not say what the bytes of `[region, top)` outside `[bp, sp)` hold afterwards: those are consumed or free bytes, which the buffer never reads again. Bytes at or past `top` belong to the caller, and every operation leaves them untouched; pop leaves the whole backing array untouched.
- The `audio_malloc` and `audio_free` macros (linerbuffer.h:13-14) are unused aliases of the C allocator.
- example/main.c is not part of this model. It is a demonstration program that prints, and it treats a pop result of 0 as success. The code returns the byte count from pop, and the model follows the code.
- test/tc.cpp's fixture allocation and test macros are not modelled. Its assertions appear as the `Scenarios` methods, generalised to every capacity and every input.
- There is no concurrency in the core, and none is modelled.
