/**
 * The router's collaborators, which live outside the core: the per-heap budget tracker
 * (`heap.rs`), the per-type wrapper around the sub-allocation strategies
 * (`memory_type.rs`), the usage policy (`usage.rs`), the configuration and the
 * utilization records (`stats.rs`). Each is stated only as far as the router relies on it.
 */
module Collaborators {
  import opened Wrappers
  import Hal
  import opened Flavor

  /** Bytes used: what was charged (`used`) and what the blocks themselves span (`effective`). */
  datatype MemoryUtilization = MemoryUtilization(used: int, effective: int)

  datatype HeapUtilization = HeapUtilization(utilization: MemoryUtilization, size: nat)

  datatype TypeUtilization =
    TypeUtilization(utilization: MemoryUtilization, properties: Hal.Properties, heapIndex: nat)

  /** One snapshot entry per heap and per memory type, in registry order. */
  datatype TotalMemoryUtilization =
    TotalMemoryUtilization(heaps: seq<HeapUtilization>, types: seq<TypeUtilization>)

  /**
   * Budget tracker of one physical heap. `used` accumulates the bytes the strategies
   * charge, `effective` the sizes of the blocks handed out.
   */
  datatype MemoryHeap = MemoryHeap(size: nat, used: int, effective: int)
  {
    static function New(size: nat): (h: MemoryHeap)
      ensures h.Available() == size
    {
      MemoryHeap(size, 0, 0)
    }

    /** Bytes still free in the budget; never negative, even if charges overshot it. */
    function Available(): (r: nat)
      ensures used >= 0 ==> r <= size
      ensures used <= size ==> r + used == size
      ensures used >= size ==> r == 0
    {
      if used > size then 0 else size - used
    }

    /**
     * Records a block of `effective` bytes for which the strategy charged `charged` bytes:
     * the budget stays, and what is available shrinks by at most the charge.
     */
    function Allocated(charged: nat, effective: nat): (h: MemoryHeap)
      ensures h.size == size
      ensures h.Available() <= Available()
      ensures Available() - charged <= h.Available()
    {
      this.(used := used + charged, effective := this.effective + effective)
    }

    /**
     * Reverses the accounting of one block: the budget stays, and what is available grows
     * by at most the reclaimed count.
     */
    function Freed(freed: nat, effective: nat): (h: MemoryHeap)
      ensures h.size == size
      ensures Available() <= h.Available()
      ensures used >= 0 ==> h.Available() <= Available() + freed
    {
      this.(used := used - freed, effective := this.effective - effective)
    }

    function Utilization(): HeapUtilization {
      HeapUtilization(MemoryUtilization(used, effective), size)
    }
  }

  /** Freeing what was charged for a block restores the tracker exactly. */
  lemma FreedUndoesAllocated(h: MemoryHeap, charged: nat, effective: nat)
    ensures h.Allocated(charged, effective).Freed(charged, effective) == h
  {
  }

  /**
   * The usage policy: the properties a memory type must have, and a score of how well
   * a type with given properties suits the usage (higher is better).
   */
  datatype MemoryUsage = MemoryUsage(propertiesRequired: Hal.Properties, fitness: Hal.Properties -> nat)

  /** Which optional sub-allocators a memory type gets besides the dedicated one. */
  datatype HeapsConfig = HeapsConfig(linear: bool, general: bool)

  /**
   * One memory type and the sub-allocation strategies it owns. The strategies are
   * opaque: `Alloc` and `Free` are nondeterministic and promise only what the router
   * relies on.
   */
  class MemoryType {
    const id: nat
    const heapIndex: nat
    const properties: Hal.Properties
    const config: HeapsConfig
    const nonCoherentAtomSize: nat
    var utilization: MemoryUtilization
    /** Set once `Clear` has released everything the strategies hold. */
    ghost var torndown: bool

    constructor (id: nat, heapIndex: nat, properties: Hal.Properties, config: HeapsConfig, nonCoherentAtomSize: nat)
      ensures this.id == id && this.heapIndex == heapIndex && this.properties == properties
      ensures this.config == config && this.nonCoherentAtomSize == nonCoherentAtomSize
      ensures utilization == MemoryUtilization(0, 0) && !torndown
    {
      this.id := id;
      this.heapIndex := heapIndex;
      this.properties := properties;
      this.config := config;
      this.nonCoherentAtomSize := nonCoherentAtomSize;
      utilization := MemoryUtilization(0, 0);
      torndown := false;
    }

    /**
     * Asks a strategy for a block. It either fails with the device's error or returns
     * a block of this type's memory together with the bytes it charged for it.
     */
    method Alloc(usage: MemoryUsage, size: nat, align: nat) returns (r: Result<(BlockFlavor, nat), Hal.AllocationError>)
      modifies this
      ensures torndown == old(torndown)
      ensures r.Success? ==> r.value.0.Properties() == properties
    {
      if * {
        var e: Hal.AllocationError := *;
        r := Failure(e);
      } else {
        var flavor: BlockFlavor := *;
        var charged: nat := *;
        flavor := flavor.(block := flavor.block.(properties := properties));
        utilization := *;
        r := Success((flavor, charged));
      }
    }

    /** Returns a block to the strategy that produced it; yields the bytes to reclaim. */
    method Free(flavor: BlockFlavor) returns (freed: nat)
      modifies this
      ensures torndown == old(torndown)
    {
      freed := *;
      utilization := *;
    }

    /** Releases every native resource the strategies still hold. */
    method Clear()
      modifies this
      ensures torndown
    {
      torndown := true;
    }

    function Utilization(): (u: TypeUtilization)
      reads this
    {
      TypeUtilization(utilization, properties, heapIndex)
    }
  }
}
