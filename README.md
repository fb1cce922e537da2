# stable-heap in Dafny

A model of stable-heap's raw memory primitives in `src/lib.rs`. It covers
`allocate(size, align)`, `deallocate(ptr, old_size, align)`, their typed
helpers `do_allocate` and `do_deallocate`, and the zero-size sentinel `EMPTY`.
The crate gets alignment indirectly. It picks an unsigned integer type whose
width equals `align` (`u8`, `u16`, `u32` or `u64`) and turns the byte count
into a unit count with `size >> log2(align)`. It then reserves a `Vec` of that
many units and leaks it. `deallocate` repeats the same dispatch and shift,
rebuilds a zero-length `Vec` over the pointer and drops it.

The project has three modules:

- `Bits` (`bits.dfy`): `usize` as a natural below 2^64. It defines logical
  right shift (`Shr`) and bitwise AND (`BitAnd`) bit by bit. Lemmas relate
  them to division, remainder and single-bit tests.
- `StableHeap` (`stable_heap.dfy`): the pure part of both entry points. It
  holds the unit types and their widths, and the argument check
  `(size & align) == 0`. `AllocatePlan` and `ReleasePlan` state what each call
  does before it reaches the heap: it panics, or it hands a `Layout` (unit
  type and capacity) to the typed helper. `EMPTY` is the constant address 1.
- `PlatformHeap` (`platform_heap.dfy`): class `Heap` is the platform heap. It
  keeps a map `live` from base address to `Layout`. `DoAllocate` adds an
  entry at a fresh, non-null address aligned to the unit width, or returns
  null. `DoDeallocate` removes the entry. `Allocate` and `Deallocate` combine
  the plans with these two methods. Panics are the `Panicked` outcome.

The argument check `size & align == 0` looks like a divisibility test, but it
tests a single bit. Rust's `&` binds tighter than `==`, so the check is
`(size & align) == 0`. For `align = 2^k` this checks only bit k of `size`. So
`allocate(4, 4)`, `allocate(8, 8)` and every odd size at alignment 1 panic.
`allocate(9, 4)` passes the check and reserves two 4-byte units, one byte
fewer than asked.

## Model

| member | source | states |
|---|---|---|
| Bits.BitAnd | src/lib.rs:18 | `size & align` never exceeds either operand, so it is again a `usize` |
| Bits.ShrIsDivision | src/lib.rs:22-24 | `x >> k` is `x / 2^k` rounded down |
| Bits.ShrRoundsDown | src/lib.rs:22-24 | `(x >> k) * 2^k` is at most x and misses it by `x % 2^k`, less than 2^k; it equals x iff x is a multiple of 2^k |
| Bits.BitAndSelf | src/lib.rs:18 | `a & a == a`, which is why `size == align` fails the check |
| Bits.BitAndPow2 | src/lib.rs:18 | `a & 2^k` is 2^k when bit k of a is set and 0 otherwise |
| StableHeap.Unit.Width | src/lib.rs:65-70 | the widths of u8, u16, u32, u64 are 1, 2, 4, 8, i.e. 2 to the unit's shift |
| StableHeap.AllocatePlan | src/lib.rs:17-27 | panics with InvalidArguments iff `size & align != 0`; otherwise panics with UnsupportedAlignment iff align is not 1, 2, 4 or 8; otherwise delegates with a unit whose width is align |
| StableHeap.ReleasePlan | src/lib.rs:46-54 | panics iff align is not 1, 2, 4 or 8, with no size check; otherwise delegates with a unit whose width is align |
| StableHeap.UnitOf | src/lib.rs:20-25 | each supported alignment has a unit type of exactly that width |
| StableHeap.AllocateCapacity | src/lib.rs:20-24 | the capacity passed down is `size / align`; its bytes are at most size, less than one unit short, and equal size iff `size % align == 0` |
| StableHeap.AllocateChecksOneBit | src/lib.rs:18 | for a supported align, allocate gets past its checks iff `size / align` is even |
| StableHeap.RejectsSizeEqualAlign | src/lib.rs:18 | `allocate(a, a)` fails the assertion for every non-zero a |
| StableHeap.RejectsOddByteSize | src/lib.rs:18 | at alignment 1 every odd size fails the assertion |
| StableHeap.AcceptsNonMultiple | src/lib.rs:18-23 | `allocate(9, 4)` passes the check and requests two u32 units (8 bytes) |
| StableHeap.AllocateRejectsUnsupported | src/lib.rs:18-25 | an unsupported align always panics; `allocate(16, 16)` fails at the assertion, `allocate(32, 16)` at the dispatch |
| StableHeap.ReleaseAcceptsAnySize | src/lib.rs:46-53 | for a supported align every old_size reaches the heap, as `old_size / align` units |
| StableHeap.ReleaseMatchesAllocate | src/lib.rs:20-51 | when allocate delegates, deallocate with the same size and align selects the same unit type and capacity |
| StableHeap.EmptyIsNonNull | src/lib.rs:7 | EMPTY is the non-null address 1 |
| PlatformHeap.FreshAlignedAddress | src/lib.rs:29-31 | whatever is live, a non-null address aligned to the unit width is still free for a new buffer |
| PlatformHeap.Heap.DoAllocate | src/lib.rs:29-36 | null (the documented failure return) iff the heap cannot serve the request; otherwise a fresh, unit-aligned address, recorded as live with the requested layout; nothing else changes |
| PlatformHeap.Heap.Allocate | src/lib.rs:17-27 | panics exactly as AllocatePlan says, leaving the heap unchanged; otherwise null with no change, or a fresh address that is a multiple of align, now live with the planned layout |
| PlatformHeap.Heap.DoDeallocate | src/lib.rs:56-58 | releasing a live block with its own layout removes exactly that block |
| PlatformHeap.Heap.Deallocate | src/lib.rs:46-54 | panics iff align is unsupported, leaving the heap unchanged; otherwise removes exactly the block at ptr, which was live and aligned to align |
| PlatformHeap.Heap.AllocateThenDeallocate | src/lib.rs:75 | allocating and then releasing with the same size and align leaves the live blocks as they were |
| PlatformHeap.AllocateDeallocate2048 | src/lib.rs:73-77 | `allocate(2048, 4)` on an empty heap gives a non-null address aligned to 4, and releasing it empties the heap again |

## Left out

- The platform heap is a ledger of live blocks. The internals of
  `Vec::with_capacity`, `mem::forget` and `Vec::from_raw_parts` are not
  modelled. Whether the heap can serve a request is the `available`
  parameter, and the address it picks is any fresh one with the right
  alignment.
- PlatformHeap.Heap.DoAllocate: the null outcome models the failure return
  documented at src/lib.rs:11. The `Vec`-backed code does not return null:
  `Vec::with_capacity` aborts when the heap fails and panics when the
  capacity overflows. A zero-capacity `Vec` gives a dangling pointer, which
  is not null.
- Block contents and writes through the returned pointer are not modelled.
  `do_deallocate` rebuilds its `Vec` with length 0, so it never reads or drops
  the contents. The model has no contents, so this holds trivially.
- Requests that round down to zero units (`allocate(3, 4)`) get a fresh ledger
  entry like any other request. The real `Vec` then does not touch the heap.
  Zero-size requests are undefined behaviour per the doc comment at
  src/lib.rs:13.
- PlatformHeap.Heap.Deallocate: the doc comment asks for `old_size` between
  the requested and the usable size. The model only requires what the code
  needs for a defined release: a non-null pointer to a live block whose
  layout the size and alignment reproduce. For an unsupported alignment it
  requires only a non-null pointer, because the call panics before it uses
  the pointer. Double release and mismatched layouts are undefined behaviour,
  so they are excluded by this precondition rather than modelled.
- Panic messages are left out. Only the fact of a panic and its cause
  (assertion or dispatch) are kept.
- Thread safety of the platform allocator is concurrency outside this code.
- `usize` is taken to be 64 bits wide. Nothing in the modelled arithmetic
  overflows: shifts and AND never exceed their operands. Addresses in the
  heap ledger are unbounded naturals, not `usize`. A fresh aligned address
  therefore always exists, and the end of a block may lie past 2^64.
- `Valid` is the heap-level form of "every returned pointer is aligned to its
  unit". `Deallocate` relies on it to promise that the block it releases was
  aligned to `align`.
- `test_empty_constant` compares `EMPTY` with the dangling pointer of a
  zero-capacity `Vec<()>`. That is a fact about the standard library. Only
  `EMPTY == 1` is kept.
