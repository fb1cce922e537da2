/**
 * The arithmetic and dispatch layer of stable-heap's `allocate` and
 * `deallocate`: the argument check, the choice of a unit type from the
 * alignment, and the conversion of a byte count into a count of units. What
 * is handed to the platform heap is a `Layout` (unit type and capacity); the
 * heap itself is modelled in module PlatformHeap.
 */
module StableHeap {
  import opened Bits

  /** The non-null address that stands for every zero-size allocation. */
  const EMPTY: nat := 1

  /** The unsigned integer types whose buffers carry the requested alignment. */
  datatype Unit = U8 | U16 | U32 | U64 {

    /** log2 of the unit's width: the shift that turns bytes into units. */
    function Shift(): nat {
      match this
      case U8 => 0
      case U16 => 1
      case U32 => 2
      case U64 => 3
    }

    /** The unit's size and alignment in bytes. */
    function Width(): (w: nat)
      ensures w == Pow2(Shift())
    {
      match this
      case U8 => 1
      case U16 => 2
      case U32 => 4
      case U64 => 8
    }
  }

  /** A typed buffer request: `capacity` elements of type `unit`. */
  datatype Layout = Layout(unit: Unit, capacity: nat) {

    /** The number of bytes the buffer occupies. */
    function Bytes(): nat {
      capacity * unit.Width()
    }
  }

  /** Why a call panics. */
  datatype Fault =
    | InvalidArguments      // the assertion on size and align failed
    | UnsupportedAlignment  // align is not 1, 2, 4 or 8

  /** What a call does: panic, or hand a layout down to the typed helper. */
  datatype Plan = Panic(fault: Fault) | Delegate(layout: Layout)

  /** The result of a call that may panic. */
  datatype Outcome<T> = Panicked(fault: Fault) | Returned(value: T)

  /** The alignments the dispatch has an arm for. */
  predicate Supported(align: nat) {
    align == 1 || align == 2 || align == 4 || align == 8
  }

  /**
   * `allocate(size, align)` up to the call into the heap: assert that
   * `size & align` is zero, then pick the unit type from `align` and shift
   * the size down to a unit count. Rust's `&` binds tighter than `==`, so
   * the check is `(size & align) == 0`.
   */
  function AllocatePlan(size: Usize, align: Usize): (r: Plan)
    ensures r == Panic(InvalidArguments) <==> BitAnd(size, align) != 0
    ensures r == Panic(UnsupportedAlignment) <==> BitAnd(size, align) == 0 && !Supported(align)
    ensures r.Delegate? ==> r.layout.unit.Width() == align
  {
    if BitAnd(size, align) != 0 then Panic(InvalidArguments)
    else match align
      case 1 => Delegate(Layout(U8, size))
      case 2 => Delegate(Layout(U16, Shr(size, 1)))
      case 4 => Delegate(Layout(U32, Shr(size, 2)))
      case 8 => Delegate(Layout(U64, Shr(size, 3)))
      case _ => Panic(UnsupportedAlignment)
  }

  /**
   * `deallocate(ptr, old_size, align)` up to the call into the heap: the
   * same dispatch and shift as allocate, with no check on the size.
   */
  function ReleasePlan(oldSize: Usize, align: Usize): (r: Plan)
    ensures r.Panic? <==> !Supported(align)
    ensures r.Panic? ==> r.fault == UnsupportedAlignment
    ensures r.Delegate? ==> r.layout.unit.Width() == align
  {
    match align
    case 1 => Delegate(Layout(U8, oldSize))
    case 2 => Delegate(Layout(U16, Shr(oldSize, 1)))
    case 4 => Delegate(Layout(U32, Shr(oldSize, 2)))
    case 8 => Delegate(Layout(U64, Shr(oldSize, 3)))
    case _ => Panic(UnsupportedAlignment)
  }

  /** The unit type the dispatch picks for a supported alignment. */
  function UnitOf(align: nat): (u: Unit)
    requires Supported(align)
    ensures u.Width() == align
  {
    if align == 1 then U8 else if align == 2 then U16 else if align == 4 then U32 else U64
  }

  /**
   * The capacity allocate requests is the size divided by the alignment,
   * rounded down: the bytes asked of the heap never exceed `size`, fall short
   * of it by less than one unit, and equal it exactly when `size` is a
   * multiple of `align`.
   */
  lemma AllocateCapacity(size: Usize, align: Usize)
    requires AllocatePlan(size, align).Delegate?
    ensures AllocatePlan(size, align).layout.capacity == size / align
    ensures AllocatePlan(size, align).layout.Bytes() <= size
    ensures size - AllocatePlan(size, align).layout.Bytes() < align
    ensures AllocatePlan(size, align).layout.Bytes() == size <==> size % align == 0
  {
    var u := AllocatePlan(size, align).layout.unit;
    ShrIsDivision(size, u.Shift());
    ShrRoundsDown(size, u.Shift());
  }

  /**
   * For a supported alignment 2^k the assertion tests one bit of the size,
   * bit k, and nothing else: allocate proceeds exactly when `size / align`
   * is even.
   */
  lemma AllocateChecksOneBit(size: Usize, align: Usize)
    requires Supported(align)
    ensures AllocatePlan(size, align).Delegate? <==> (size / align) % 2 == 0
  {
    var u := UnitOf(align);
    BitAndPow2(size, u.Shift());
    ShrIsDivision(size, u.Shift());
  }

  /** A size equal to its (non-zero) alignment fails the assertion. */
  lemma RejectsSizeEqualAlign(align: Usize)
    requires align > 0
    ensures AllocatePlan(align, align) == Panic(InvalidArguments)
  {
    BitAndSelf(align);
  }

  /** With byte alignment, every odd size fails the assertion. */
  lemma RejectsOddByteSize(size: Usize)
    requires size % 2 == 1
    ensures AllocatePlan(size, 1) == Panic(InvalidArguments)
  {
    BitAndPow2(size, 0);
  }

  /**
   * The assertion is not a divisibility test: 9 bytes at alignment 4 pass it
   * and are served by two 4-byte units, one byte short of the request.
   */
  lemma AcceptsNonMultiple()
    ensures 9 % 4 != 0
    ensures AllocatePlan(9, 4) == Delegate(Layout(U32, 2))
    ensures AllocatePlan(9, 4).layout.Bytes() == 8
  {
    BitAndPow2(9, 2);
  }

  /**
   * An unsupported alignment always panics, either at the assertion (as for
   * `allocate(16, 16)`) or at the dispatch (as for `allocate(32, 16)`).
   */
  lemma AllocateRejectsUnsupported(size: Usize, align: Usize)
    requires !Supported(align)
    ensures AllocatePlan(size, align).Panic?
    ensures AllocatePlan(16, 16) == Panic(InvalidArguments)
    ensures AllocatePlan(32, 16) == Panic(UnsupportedAlignment)
  {
    BitAndPow2(16, 4);
    BitAndPow2(32, 4);
  }

  /**
   * deallocate never validates the size: for a supported alignment every
   * `old_size` reaches the heap, as `old_size / align` units.
   */
  lemma ReleaseAcceptsAnySize(oldSize: Usize, align: Usize)
    requires Supported(align)
    ensures ReleasePlan(oldSize, align).Delegate?
    ensures ReleasePlan(oldSize, align).layout.capacity == oldSize / align
  {
    ShrIsDivision(oldSize, UnitOf(align).Shift());
  }

  /**
   * Whenever allocate gets past its checks, deallocate with the same size
   * and alignment selects the same unit type and capacity, so the block is
   * released with the layout it was allocated with.
   */
  lemma ReleaseMatchesAllocate(size: Usize, align: Usize)
    requires AllocatePlan(size, align).Delegate?
    ensures ReleasePlan(size, align) == AllocatePlan(size, align)
  {
  }

  /** The zero-size sentinel is a non-null address. */
  lemma EmptyIsNonNull()
    ensures EMPTY != 0 && EMPTY == 1
  {
  }
}
