/**
 * `Heaps`, the router: it owns the memory types and the heap trackers of one physical
 * device, picks the memory type for each request, charges and refunds the heap behind
 * it, and tears the types down.
 */
module Heaps {
  import opened Wrappers
  import opened Hal
  import opened Flavor
  import opened Collaborators
  import opened Selection

  /** A block handed to the caller: the strategy's block and the memory type it came from. */
  datatype MemoryBlock = MemoryBlock(flavor: BlockFlavor, memoryIndex: nat)
  {
    /** `MemoryBlock::memory_type`: the index of the memory type the block was allocated from. */
    function MemoryType(): (r: nat)
      ensures r == memoryIndex
    {
      memoryIndex
    }

    /** `Block::properties`, forwarded to whichever strategy produced the block. */
    function Properties(): (r: Properties)
      ensures r == flavor.block.properties
    {
      flavor.Properties()
    }
  }

  class Heaps {
    var types: seq<MemoryType>
    var heaps: seq<MemoryHeap>

    /**
     * Every type sits at the position of its own id, is backed by an existing heap and
     * is owned once; there are at most 32 of them.
     */
    ghost predicate Valid()
      reads this
    {
      && Registry(types, heaps)
      && (forall i :: 0 <= i < |types| ==> types[i].id == i)
      && (forall i, j :: 0 <= i < j < |types| ==> types[i] != types[j])
    }

    /** `Heaps::new`: one tracker per heap size, one fresh memory type per description. */
    constructor (typeDescs: seq<(Properties, nat, HeapsConfig)>, heapSizes: seq<nat>, nonCoherentAtomSize: nat)
      requires |typeDescs| <= 32
      requires forall i :: 0 <= i < |typeDescs| ==> typeDescs[i].1 < |heapSizes|
      ensures Valid()
      ensures |heaps| == |heapSizes|
      ensures forall h :: 0 <= h < |heaps| ==> heaps[h] == MemoryHeap.New(heapSizes[h])
      ensures |types| == |typeDescs|
      ensures forall i :: 0 <= i < |types| ==>
                && fresh(types[i]) && !types[i].torndown
                && types[i].properties == typeDescs[i].0
                && types[i].heapIndex == typeDescs[i].1
                && types[i].config == typeDescs[i].2
                && types[i].nonCoherentAtomSize == nonCoherentAtomSize
    {
      var ts: seq<MemoryType> := [];
      var i := 0;
      while i < |typeDescs|
        invariant 0 <= i <= |typeDescs| && |ts| == i
        invariant forall k :: 0 <= k < i ==>
                    && fresh(ts[k]) && !ts[k].torndown && ts[k].id == k
                    && ts[k].properties == typeDescs[k].0
                    && ts[k].heapIndex == typeDescs[k].1
                    && ts[k].config == typeDescs[k].2
                    && ts[k].nonCoherentAtomSize == nonCoherentAtomSize
        invariant forall k, l :: 0 <= k < l < i ==> ts[k] != ts[l]
      {
        var mt := new MemoryType(i, typeDescs[i].1, typeDescs[i].0, typeDescs[i].2, nonCoherentAtomSize);
        ts := ts + [mt];
        i := i + 1;
      }
      types := ts;
      heaps := seq(|heapSizes|, h requires 0 <= h < |heapSizes| => MemoryHeap.New(heapSizes[h]));
    }

    /**
     * `Heaps::allocate`: selects a memory type as `Select` does and allocates from it.
     * A selection error is returned as is and changes nothing; otherwise the outcome is
     * that of `AllocateFrom` on the selected type, whose re-check cannot fail here.
     */
    method Allocate(mask: bv32, usage: MemoryUsage, size: nat, align: nat)
      returns (r: Result<MemoryBlock, HeapsError>, ghost charged: nat)
      requires Valid()
      modifies this, types
      ensures Valid() && types == old(types) && |heaps| == |old(heaps)|
      ensures var sel := Select(types, old(heaps), mask, usage, size, align);
              sel.Failure? ==> r == Failure(sel.error) && heaps == old(heaps)
      ensures r.Failure? ==> heaps == old(heaps)
      ensures r.Failure? && r.error.NoSuitableMemory? ==>
                r.error == NoSuitableMemory(mask, usage.propertiesRequired)
                && forall j :: 0 <= j < |types| ==> !IsSuitable(types, mask, usage, j)
      ensures r.Success? ==> r.value.MemoryType() < |types|
      ensures r.Success? ==>
                var i := r.value.MemoryType();
                var h := types[i].heapIndex;
                && Select(types, old(heaps), mask, usage, size, align) == Success(i)
                && MaskAllows(mask, i)
                && usage.propertiesRequired <= r.value.Properties()
                && heaps == old(heaps)[h := old(heaps)[h].Allocated(charged, r.value.flavor.Size())]
      ensures forall j :: 0 <= j < |types| && Select(types, old(heaps), mask, usage, size, align) != Success(j) ==>
                unchanged(types[j])
    {
      var sel := Select(types, heaps, mask, usage, size, align);
      if sel.Failure? {
        SelectNoSuitableMemory(types, heaps, mask, usage, size, align);
        r, charged := Failure(sel.error), 0;
        return;
      }
      var i := sel.value;
      SelectPassesCommitGate(types, heaps, mask, usage, size, align);
      assert IsSuitable(types, mask, usage, i);
      r, charged := AllocateFrom(i, usage, size, align);
      assert forall j :: 0 <= j < |types| && j != i ==> types[j] != types[i];
    }

    /**
     * `Heaps::allocate_from`: re-checks that the type's heap has at least `size` bytes
     * available, asks the type for a block, and charges exactly that type's heap with
     * what the strategy reports. Every failure leaves the heaps as they were.
     */
    method AllocateFrom(memoryIndex: nat, usage: MemoryUsage, size: nat, align: nat)
      returns (r: Result<MemoryBlock, HeapsError>, ghost charged: nat)
      requires Valid() && memoryIndex < |types|
      modifies this, types[memoryIndex]
      ensures Valid() && types == old(types) && |heaps| == |old(heaps)|
      ensures var h := types[memoryIndex].heapIndex;
              old(heaps[h].Available()) < size ==>
                r == Failure(AllocationError(OutOfMemory(Device))) && unchanged(types[memoryIndex])
      ensures r.Failure? ==> heaps == old(heaps) && r.error.AllocationError?
      ensures r.Success? ==>
                var h := types[memoryIndex].heapIndex;
                && r.value.MemoryType() == memoryIndex
                && r.value.Properties() == types[memoryIndex].properties
                && heaps == old(heaps)[h := old(heaps)[h].Allocated(charged, r.value.flavor.Size())]
    {
      var memoryType := types[memoryIndex];
      var h := memoryType.heapIndex;
      if heaps[h].Available() < size {
        r, charged := Failure(AllocationError(OutOfMemory(Device))), 0;
        return;
      }
      var outcome := memoryType.Alloc(usage, size, align);
      if outcome.Failure? {
        r, charged := Failure(AllocationError(outcome.error)), 0;
        return;
      }
      var flavor, chargedBytes := outcome.value.0, outcome.value.1;
      heaps := heaps[h := heaps[h].Allocated(chargedBytes, flavor.Size())];
      r, charged := Success(MemoryBlock(flavor, memoryIndex)), chargedBytes;
    }

    /**
     * `Heaps::free`: hands the block back to its memory type and reverses the accounting
     * on that type's heap alone, by the count the type reports and the block's size.
     */
    method Free(block: MemoryBlock) returns (ghost freed: nat)
      requires Valid() && block.memoryIndex < |types|
      modifies this, types[block.memoryIndex]
      ensures Valid() && types == old(types)
      ensures var h := types[block.memoryIndex].heapIndex;
              heaps == old(heaps)[h := old(heaps)[h].Freed(freed, block.flavor.Size())]
    {
      var size := block.flavor.Size();
      var memoryType := types[block.memoryIndex];
      var h := memoryType.heapIndex;
      var reclaimed := memoryType.Free(block.flavor);
      heaps := heaps[h := heaps[h].Freed(reclaimed, size)];
      freed := reclaimed;
    }

    /**
     * `Heaps::clear`: drains the type list, then tears down every drained type once,
     * in order. The heaps are left alone.
     */
    method Clear()
      requires Valid()
      modifies this, types
      ensures Valid() && types == [] && heaps == old(heaps)
      ensures forall i :: 0 <= i < |old(types)| ==> old(types)[i].torndown
    {
      var drained := types;
      types := [];
      for i := 0 to |drained|
        invariant types == [] && heaps == old(heaps)
        invariant forall k :: 0 <= k < i ==> drained[k].torndown
      {
        drained[i].Clear();
      }
    }

    /** `Heaps::utilization`: a snapshot of every heap and every type, in registry order. */
    function Utilization(): (u: TotalMemoryUtilization)
      reads this, types
      ensures |u.heaps| == |heaps| && |u.types| == |types|
      ensures forall h :: 0 <= h < |heaps| ==> u.heaps[h] == heaps[h].Utilization()
      ensures forall i :: 0 <= i < |types| ==> u.types[i] == types[i].Utilization()
    {
      TotalMemoryUtilization(
        seq(|heaps|, h requires 0 <= h < |heaps| reads this => heaps[h].Utilization()),
        seq(|types|, i requires 0 <= i < |types| reads this, types => types[i].Utilization()))
    }

    /**
     * `Drop for Heaps`: the leak diagnostic. It reports the number of memory types still
     * registered, and reports nothing once `Clear` has run.
     */
    method Drop() returns (leak: Option<nat>)
      ensures leak.Some? <==> types != []
      ensures leak.Some? ==> leak.value == |types| && leak.value > 0
    {
      if types != [] {
        leak := Some(|types|);
      } else {
        leak := None;
      }
    }
  }
}
