# gfx-memory `Heaps`: a Dafny model of the memory-type router

`Heaps` is the front end of gfx-memory's device-memory allocator. It owns the list of
memory types a physical device reports and one budget tracker per physical heap. For a
request (a `u32` mask of eligible memory types, a usage, a size and an alignment) it
keeps the types whose mask bit is set and whose properties contain what the usage
requires, fails with `NoSuitableMemory` if there are none, keeps those whose heap has
more than `size + align` bytes available, fails with the device out-of-memory error if
there are none, and picks the one the usage rates fittest. It then re-checks the budget,
delegates to the memory type's sub-allocators and charges that type's heap with what
they report. `free` reverses the charge, `clear` drains and tears down the memory types,
and dropping the router with types still registered is reported as a leak.

Files:

- `wrappers.dfy`: `Option` and `Result`.
- `hal.dfy`: memory property flags (a set; `contains` is `<=`), `OutOfMemory`, `AllocationError`.
- `flavor.dfy`: `BlockFlavor`, the three-way tagged union over the strategies, with the
  `size` and `properties` forwarding.
- `collaborators.dfy`: what the router relies on from outside the core: the heap tracker
  `MemoryHeap` (`available`, `allocated`, `freed`), the usage policy `MemoryUsage`
  (required properties and a fitness function), `HeapsConfig`, the utilization records,
  and `MemoryType`, whose strategies are opaque (`Alloc` and `Free` are nondeterministic).
- `selection.dfy`: `HeapsError` and the pure selection pipeline of `allocate`
  (`SuitableTypes` = the mask and properties filters, `WithRoom` = the budget filter,
  `LastMaxPosition` = `max_by_key`, `Select` = the whole pipeline) with its lemmas.
- `heaps.dfy`: the `Heaps` class (`types` and `heaps` as sequence fields the methods
  reassign) and `MemoryBlock` with `MemoryType()` and `Properties()`.

Two points of the code's behaviour that the model keeps as written:

- Ties in fitness go to the type with the HIGHEST index: `max_by_key` at
  `gfx-memory/src/heaps/mod.rs:136` returns the last maximum (`Select`, `LastMaxPosition`).
- The selection filter is `available() > size + align` and the re-check in
  `allocate_from` fails on `available() < size`. The two are kept as written;
  as long as `size + align` does not overflow `u64`, `SelectPassesCommitGate` shows that
  the re-check can never fail after a selection, so through `allocate` it is then dead
  code. A heap with exactly `size` to `size + align` bytes available passes the re-check
  but is never selected.

## Model

| member | source | states |
|---|---|---|
| Selection.SuitableTypes | gfx-memory/src/heaps/mod.rs:113-125 | the list holds exactly the type indices whose mask bit is set and whose properties contain the usage's required properties, in increasing index order |
| Selection.WithRoom | gfx-memory/src/heaps/mod.rs:134-135 | the list keeps exactly those listed types whose heap has `available() > size + align`, in their original order |
| Selection.LastMaxPosition | gfx-memory/src/heaps/mod.rs:136 | `max_by_key` on fitness: none exactly for an empty list; otherwise a position of maximal fitness, with every later position strictly less fit (the last maximum wins) |
| Selection.Select | gfx-memory/src/heaps/mod.rs:112-141 | a selected index is a type whose mask bit is set, whose properties contain the required ones and whose heap has more than `size + align` available; no such type is fitter, and no higher-indexed one is as fit |
| Selection.ChosenIsBest | gfx-memory/src/heaps/mod.rs:134-140 | the element `max_by_key` picks from the filtered list is a candidate of maximal fitness among all candidates and the highest-indexed among equally fit ones |
| Selection.SelectNoSuitableMemory | gfx-memory/src/heaps/mod.rs:127-132 | selection fails with `NoSuitableMemory(mask, required)` if and only if no type passes both the mask and the properties filter |
| Selection.SelectOutOfMemory | gfx-memory/src/heaps/mod.rs:134-140 | selection fails with the device out-of-memory error if and only if some type passes both filters but none of those has a heap with room; so a capacity failure is never `NoSuitableMemory` |
| Selection.SelectSucceeds | gfx-memory/src/heaps/mod.rs:127-141 | selection succeeds if and only if some type passes all three filters |
| Selection.SelectPassesCommitGate | gfx-memory/src/heaps/mod.rs:170-172 | the type selection picks always has more than `size` bytes available on its heap, so, as long as `size + align` does not overflow `u64`, the re-check in `allocate_from` cannot fail after `allocate`'s selection |
| Heaps.Heaps.constructor | gfx-memory/src/heaps/mod.rs:72-97 | one tracker per heap size, one fresh memory type per description with its properties, heap index and config, stored at the position of its id; demands every heap index be in range |
| Heaps.Heaps.Allocate | gfx-memory/src/heaps/mod.rs:104-144 | a selection error is returned unchanged and modifies nothing; a success returns the selected type's index (its mask bit set, its properties containing the required ones) and charges only that type's heap; every failure leaves all heaps as they were; types other than the selected one are untouched |
| Heaps.Heaps.AllocateFrom | gfx-memory/src/heaps/mod.rs:151-181 | fails with device out-of-memory and changes nothing when the heap has less than `size` available; a failure of the memory type is passed up as `AllocationError` with the heaps unchanged; on success only the type's own heap changes, by `allocated(charged, flavor.size())`, and the block records the index |
| Heaps.Heaps.Free | gfx-memory/src/heaps/mod.rs:186-195 | only the heap behind the block's memory type changes, by `freed(reported count, flavor.size())`; the type list is unchanged |
| Heaps.Heaps.Clear | gfx-memory/src/heaps/mod.rs:199-203 | afterwards the type list is empty, every type that was registered has been torn down, and the heaps are unchanged |
| Heaps.Heaps.Utilization | gfx-memory/src/heaps/mod.rs:206-211 | one snapshot per heap and one per memory type, in registry order, each the item's own utilization |
| Heaps.Heaps.Drop | gfx-memory/src/heaps/mod.rs:214-219 | a leak is reported exactly when memory types remain registered, with their number |
| Collaborators.MemoryHeap.Available | gfx-memory/src/heaps/mod.rs:170 | the heap's unused budget, zero once charges reach the heap size |
| Collaborators.FreedUndoesAllocated | gfx-memory/src/heaps/mod.rs:175-194 | freeing the count a block was charged, with the block's size, restores the tracker exactly |
| Collaborators.MemoryType.Alloc | gfx-memory/src/heaps/mod.rs:174 | the strategy either fails with a device error or returns a block of this type's memory and the bytes charged for it |
| Heaps.MemoryBlock.MemoryType | gfx-memory/src/heaps/mod.rs:231-233 | the index recorded in the block when it was allocated; `Allocate` ties it to the selected type |
| Heaps.MemoryBlock.Properties | gfx-memory/src/heaps/mod.rs:253-260 | the properties of the wrapped strategy block, whichever strategy produced it |
| Flavor.BlockFlavor.Size | gfx-memory/src/heaps/mod.rs:244-250 | the size of the wrapped strategy block, the same forwarding for all three strategies |
| Collaborators.MemoryHeap.Allocated | gfx-memory/src/heaps/mod.rs:175 | charging a block keeps the heap's size, and shrinks what is available by at most the charged count (the tracker's internals are not part of this model) |
| Collaborators.MemoryHeap.Freed | gfx-memory/src/heaps/mod.rs:194 | reclaiming keeps the heap's size, and grows what is available by at most the reclaimed count |
| Collaborators.MemoryType.Free | gfx-memory/src/heaps/mod.rs:193 | the opaque strategy takes the block back; the reclaimed count it returns is left unconstrained, and the type is not torn down by it |
| Collaborators.MemoryType.Clear | gfx-memory/src/heaps/mod.rs:201 | afterwards the type is torn down; what it releases is left unconstrained |

## Left out

- The `Display`, `Error::source` and `From` impls of `HeapsError` (string formatting and error wrapping); the conversions appear only as the constructors they produce.
- The `memory`, `segment` and `map` forwarding of `Block for MemoryBlock`: they return native handles and mapped pointers of the graphics backend.
- `memory_type.rs`, `heap.rs`, `usage.rs`, `stats.rs` and the sub-allocators are not part of this model. `MemoryType.Alloc` and `MemoryType.Free` are nondeterministic: any block and charge, any reclaimed count. `MemoryHeap` is the smallest tracker consistent with how the router calls it. `MemoryUsage` is a set of required properties and an arbitrary fitness function.
- Heaps.Heaps.Free: does not promise that the reclaimed count equals the amount charged at allocation (the conservation of the budget across a run), because the strategies that guarantee it are opaque here; `FreedUndoesAllocated` states the tracker side of it.
- Heaps.Heaps.constructor: demands at most 32 memory types, which the source does not check; with more, `1u32 << index` at line 117 overflows (a panic in debug builds). Devices report at most 32.
- Selection.SelectPassesCommitGate: holds only because sizes are unbounded here; in the source `size + align` at line 135 is a `u64` addition, which panics in debug builds and wraps in release builds (size 2^64-1 with align 1 gives 0), and then the re-check at line 170 can fail after a selection.
- Sizes, alignments and counters are unbounded integers: the `u64` overflow of `size + align` and the underflow of the heap counters are not modelled.
- The `device` parameter, `log::error!`/`log::trace!` output and the serde derivation of `HeapsConfig` (I/O and backend plumbing). `HeapsConfig` only records which optional sub-allocators are configured.
- Thread safety: every operation takes `&mut self`, so there is no concurrency to model.
