/**
 * The effectful half of stable-heap: `allocate` and `deallocate` against the
 * platform heap. The heap is a ledger of live blocks, each base address
 * mapped to the typed layout it was allocated with. Reserving a buffer
 * (`Vec::with_capacity` followed by `mem::forget`) adds an entry at a fresh
 * address aligned to the unit's width, or yields null, the documented failure
 * return of `allocate`; dropping a rebuilt buffer (`Vec::from_raw_parts`)
 * removes the entry.
 */
module PlatformHeap {
  import opened Bits
  import opened StableHeap

  /** A finite set of addresses lies below some bound. */
  lemma UpperBound(used: set<nat>) returns (b: nat)
    ensures forall x :: x in used ==> x < b
    decreases used
  {
    if used == {} {
      b := 0;
    } else {
      var x :| x in used;
      var rest := UpperBound(used - {x});
      b := if rest > x then rest else x + 1;
      forall y | y in used
        ensures y < b
      {
        if y != x {
          assert y in used - {x};
        }
      }
    }
  }

  /**
   * However many blocks are live, the heap still has a non-null address
   * aligned to w that no live block starts at.
   */
  lemma FreshAlignedAddress(used: set<nat>, w: nat)
    requires w > 0
    ensures exists p: nat :: p != 0 && p !in used && p % w == 0
  {
    var b := UpperBound(used);
    var p: nat := w * (b + 1);
    MulAtLeast(b + 1, w);
    DivModUnique(p, w, b + 1, 0);
    assert p != 0 && p !in used && p % w == 0;
  }

  class Heap {
    /** The live blocks: base address to the layout they were reserved with. */
    var live: map<nat, Layout>

    /** Every live block starts at a non-null address aligned to its unit. */
    ghost predicate Valid()
      reads this
    {
      forall p :: p in live ==> p != 0 && p % live[p].unit.Width() == 0
    }

    /** A heap with no live blocks. */
    constructor ()
      ensures Valid() && live == map[]
    {
      live := map[];
    }

    /**
     * `do_allocate::<T>(capacity)`: reserve a buffer of `layout.capacity`
     * units and leak it to the caller. `available` is the platform heap's
     * answer to the request. When it cannot serve it the result is null: the
     * failure return `allocate` documents for itself.
     */
    method DoAllocate(layout: Layout, available: bool) returns (ptr: nat)
      requires Valid()
      modifies this
      ensures Valid()
      ensures ptr == 0 <==> !available
      ensures ptr == 0 ==> live == old(live)
      ensures ptr != 0 ==> ptr !in old(live) && ptr % layout.unit.Width() == 0
      ensures ptr != 0 ==> live == old(live)[ptr := layout]
    {
      if !available {
        return 0;
      }
      FreshAlignedAddress(live.Keys, layout.unit.Width());
      ptr :| ptr != 0 && ptr !in live && ptr % layout.unit.Width() == 0;
      live := live[ptr := layout];
    }

    /**
     * `allocate(size, align)`: panic on a failed argument check or an
     * unsupported alignment; otherwise return a fresh block aligned to
     * `align`, or null.
     */
    method Allocate(size: Usize, align: Usize, available: bool) returns (r: Outcome<nat>)
      requires Valid()
      modifies this
      ensures Valid()
      ensures r.Panicked? <==> AllocatePlan(size, align).Panic?
      ensures r.Panicked? ==> r.fault == AllocatePlan(size, align).fault && live == old(live)
      ensures r.Returned? ==> (r.value == 0 <==> !available)
      ensures r.Returned? && r.value == 0 ==> live == old(live)
      ensures r.Returned? && r.value != 0 ==>
                r.value % align == 0 && r.value !in old(live) &&
                live == old(live)[r.value := AllocatePlan(size, align).layout]
    {
      match AllocatePlan(size, align)
      case Panic(fault) =>
        r := Panicked(fault);
      case Delegate(layout) =>
        var ptr := DoAllocate(layout, available);
        r := Returned(ptr);
    }

    /**
     * `do_deallocate::<T>(ptr, capacity)`: rebuild a buffer of length zero
     * over the block and drop it, which returns the block's capacity to the
     * heap. The layout must be the one the block was reserved with.
     */
    method DoDeallocate(ptr: nat, layout: Layout)
      requires Valid()
      requires ptr in live && live[ptr] == layout
      modifies this
      ensures Valid()
      ensures live == old(live) - {ptr}
    {
      live := live - {ptr};
    }

    /**
     * `deallocate(ptr, old_size, align)`: panic on an unsupported alignment;
     * otherwise release the block. The pointer must be non-null and, when
     * the call gets to the heap, name a live block whose layout the size and
     * alignment reproduce.
     */
    method Deallocate(ptr: nat, oldSize: Usize, align: Usize) returns (r: Outcome<()>)
      requires Valid()
      requires ptr != 0
      requires ReleasePlan(oldSize, align).Delegate? ==>
                 ptr in live && live[ptr] == ReleasePlan(oldSize, align).layout
      modifies this
      ensures Valid()
      ensures r.Panicked? <==> !Supported(align)
      ensures r.Panicked? ==> r.fault == UnsupportedAlignment && live == old(live)
      ensures r.Returned? ==> ptr in old(live) && ptr % align == 0
      ensures r.Returned? ==> live == old(live) - {ptr}
    {
      match ReleasePlan(oldSize, align)
      case Panic(fault) =>
        r := Panicked(fault);
      case Delegate(layout) =>
        DoDeallocate(ptr, layout);
        r := Returned(());
    }

    /**
     * `deallocate(allocate(size, align), size, align)`: releasing a block
     * with the size and alignment it was allocated with leaves the heap's
     * live blocks exactly as they were.
     */
    method AllocateThenDeallocate(size: Usize, align: Usize, available: bool) returns (r: Outcome<nat>)
      requires Valid()
      modifies this
      ensures Valid() && live == old(live)
      ensures r.Panicked? <==> AllocatePlan(size, align).Panic?
      ensures r.Returned? ==> (r.value == 0 <==> !available) && r.value % align == 0
    {
      r := Allocate(size, align, available);
      if r.Returned? && r.value != 0 {
        ReleaseMatchesAllocate(size, align);
        var released := Deallocate(r.value, size, align);
        assert released.Returned?;
        assert live == old(live);
      }
    }
  }

  /**
   * The crate's own round trip: 2048 bytes at alignment 4 pass the check,
   * become 512 units of four bytes at an address aligned to 4, and releasing
   * them leaves a fresh heap empty again.
   */
  method AllocateDeallocate2048() returns (ptr: nat, after: map<nat, Layout>)
    ensures ptr != 0 && ptr % 4 == 0
    ensures after == map[]
  {
    var heap := new Heap();
    assert AllocatePlan(2048, 4) == Delegate(Layout(U32, 512)) by {
      BitAndPow2(2048, 2);
    }
    var r := heap.AllocateThenDeallocate(2048, 4, true);
    ptr := r.value;
    after := heap.live;
  }
}
