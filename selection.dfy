/**
 * The pure part of `Heaps::allocate`: the iterator pipeline that turns a mask, a usage,
 * a size and an alignment into the index of the memory type to allocate from, or into
 * one of the two selection errors.
 */
module Selection {
  import opened Wrappers
  import opened Hal
  import opened Collaborators

  /** `HeapsError`: a failure passed up from the device, or no type can ever serve the request. */
  datatype HeapsError =
    | AllocationError(error: Hal.AllocationError)
    | NoSuitableMemory(mask: bv32, required: Properties)

  /**
   * The registry shape the router keeps: at most 32 types (one per bit of the mask)
   * and every type backed by an existing heap.
   */
  ghost predicate Registry(types: seq<MemoryType>, heaps: seq<MemoryHeap>) {
    && |types| <= 32
    && forall i :: 0 <= i < |types| ==> types[i].heapIndex < |heaps|
  }

  /** `mask & (1u32 << index) != 0`. */
  predicate MaskAllows(mask: bv32, index: nat)
    requires index < 32
  {
    mask & ((1 as bv32) << index) != 0
  }

  /** Type `i` passes both the mask filter and the required-properties filter. */
  predicate IsSuitable(types: seq<MemoryType>, mask: bv32, usage: MemoryUsage, i: nat)
    requires i < |types| <= 32
  {
    MaskAllows(mask, i) && usage.propertiesRequired <= types[i].properties
  }

  /** The heap behind type `i` reports strictly more than `size + align` bytes available. */
  predicate HasRoom(types: seq<MemoryType>, heaps: seq<MemoryHeap>, i: nat, size: nat, align: nat)
    requires Registry(types, heaps) && i < |types|
  {
    heaps[types[i].heapIndex].Available() > size + align
  }

  /** Type `i` survives every filter of the pipeline. */
  predicate IsCandidate(types: seq<MemoryType>, heaps: seq<MemoryHeap>, mask: bv32, usage: MemoryUsage,
                        size: nat, align: nat, i: nat)
    requires Registry(types, heaps) && i < |types|
  {
    IsSuitable(types, mask, usage, i) && HasRoom(types, heaps, i, size, align)
  }

  function Fitness(types: seq<MemoryType>, usage: MemoryUsage, i: nat): nat
    requires i < |types|
  {
    usage.fitness(types[i].properties)
  }

  ghost predicate Increasing(s: seq<nat>) {
    forall k, l :: 0 <= k < l < |s| ==> s[k] < s[l]
  }

  /** The indices among the first `n` types that pass the mask and properties filters, in order. */
  function SuitableTypes(types: seq<MemoryType>, mask: bv32, usage: MemoryUsage, n: nat): (r: seq<nat>)
    requires n <= |types| <= 32
    ensures forall k :: 0 <= k < |r| ==> r[k] < n && IsSuitable(types, mask, usage, r[k])
    ensures forall i :: 0 <= i < n && IsSuitable(types, mask, usage, i) ==> i in r
    ensures Increasing(r)
  {
    if n == 0 then []
    else
      var prefix := SuitableTypes(types, mask, usage, n - 1);
      if IsSuitable(types, mask, usage, n - 1) then prefix + [n - 1] else prefix
  }

  /** The candidates whose heap has room, in their original order. */
  function WithRoom(types: seq<MemoryType>, heaps: seq<MemoryHeap>, c: seq<nat>, size: nat, align: nat): (r: seq<nat>)
    requires Registry(types, heaps)
    requires forall k :: 0 <= k < |c| ==> c[k] < |types|
    ensures forall k :: 0 <= k < |r| ==> r[k] in c && r[k] < |types| && HasRoom(types, heaps, r[k], size, align)
    ensures forall k :: 0 <= k < |c| && HasRoom(types, heaps, c[k], size, align) ==> c[k] in r
    ensures Increasing(c) ==> Increasing(r)
  {
    if c == [] then []
    else
      var last := c[|c| - 1];
      var prefix := WithRoom(types, heaps, c[..|c| - 1], size, align);
      assert forall k :: 0 <= k < |prefix| ==> prefix[k] in c;
      if HasRoom(types, heaps, last, size, align) then prefix + [last] else prefix
  }

  /**
   * `max_by_key` on fitness: the position of a maximum, and when several tie, the
   * last of them.
   */
  function LastMaxPosition(types: seq<MemoryType>, usage: MemoryUsage, c: seq<nat>): (p: Option<nat>)
    requires forall k :: 0 <= k < |c| ==> c[k] < |types|
    ensures p.None? <==> c == []
    ensures p.Some? ==> p.value < |c|
    ensures p.Some? ==> forall k :: 0 <= k < |c| ==> Fitness(types, usage, c[k]) <= Fitness(types, usage, c[p.value])
    ensures p.Some? ==> forall k :: p.value < k < |c| ==> Fitness(types, usage, c[k]) < Fitness(types, usage, c[p.value])
  {
    if c == [] then None
    else
      var last := |c| - 1;
      match LastMaxPosition(types, usage, c[..last])
      case None => Some(last)
      case Some(q) =>
        if Fitness(types, usage, c[last]) >= Fitness(types, usage, c[q]) then Some(last) else Some(q)
  }

  /**
   * The selection of `Heaps::allocate`: the suitable types (mask bit set, required
   * properties present), `NoSuitableMemory` when there are none; among them those whose
   * heap has more than `size + align` bytes available, out-of-memory when there are none;
   * and among those the last one of highest fitness.
   */
  function Select(types: seq<MemoryType>, heaps: seq<MemoryHeap>, mask: bv32, usage: MemoryUsage,
                  size: nat, align: nat): (r: Result<nat, HeapsError>)
    requires Registry(types, heaps)
    ensures r.Success? ==> r.value < |types| && IsCandidate(types, heaps, mask, usage, size, align, r.value)
    ensures r.Success? ==> forall j :: 0 <= j < |types| && IsCandidate(types, heaps, mask, usage, size, align, j) ==>
                                       Fitness(types, usage, j) <= Fitness(types, usage, r.value)
    ensures r.Success? ==> forall j :: r.value < j < |types| && IsCandidate(types, heaps, mask, usage, size, align, j) ==>
                                       Fitness(types, usage, j) < Fitness(types, usage, r.value)
  {
    var suitable := SuitableTypes(types, mask, usage, |types|);
    if suitable == [] then
      Failure(NoSuitableMemory(mask, usage.propertiesRequired))
    else
      var roomy := WithRoom(types, heaps, suitable, size, align);
      match LastMaxPosition(types, usage, roomy)
      case None => Failure(AllocationError(OutOfMemory(Device)))
      case Some(p) =>
        ChosenIsBest(types, heaps, mask, usage, size, align, suitable, roomy, p);
        Success(roomy[p])
  }

  /** The type at the position `max_by_key` picked is a candidate, of maximal fitness, and the last such. */
  lemma ChosenIsBest(types: seq<MemoryType>, heaps: seq<MemoryHeap>, mask: bv32, usage: MemoryUsage,
                     size: nat, align: nat, suitable: seq<nat>, roomy: seq<nat>, p: nat)
    requires Registry(types, heaps)
    requires suitable == SuitableTypes(types, mask, usage, |types|)
    requires roomy == WithRoom(types, heaps, suitable, size, align)
    requires LastMaxPosition(types, usage, roomy) == Some(p)
    ensures p < |roomy| && roomy[p] < |types|
    ensures IsCandidate(types, heaps, mask, usage, size, align, roomy[p])
    ensures forall j :: 0 <= j < |types| && IsCandidate(types, heaps, mask, usage, size, align, j) ==>
                        Fitness(types, usage, j) <= Fitness(types, usage, roomy[p])
    ensures forall j :: roomy[p] < j < |types| && IsCandidate(types, heaps, mask, usage, size, align, j) ==>
                        Fitness(types, usage, j) < Fitness(types, usage, roomy[p])
  {
    var i := roomy[p];
    assert i in suitable;
    forall j | 0 <= j < |types| && IsCandidate(types, heaps, mask, usage, size, align, j)
      ensures exists k :: 0 <= k < |roomy| && roomy[k] == j
    {
      var m :| 0 <= m < |suitable| && suitable[m] == j;
      assert j in roomy;
    }
    forall j | 0 <= j < |types| && IsCandidate(types, heaps, mask, usage, size, align, j)
      ensures Fitness(types, usage, j) <= Fitness(types, usage, i)
      ensures i < j ==> Fitness(types, usage, j) < Fitness(types, usage, i)
    {
      var k :| 0 <= k < |roomy| && roomy[k] == j;
    }
  }

  /** `NoSuitableMemory` is reported exactly when no type passes the mask and properties filters. */
  lemma SelectNoSuitableMemory(types: seq<MemoryType>, heaps: seq<MemoryHeap>, mask: bv32, usage: MemoryUsage,
                               size: nat, align: nat)
    requires Registry(types, heaps)
    ensures Select(types, heaps, mask, usage, size, align) == Failure(NoSuitableMemory(mask, usage.propertiesRequired))
            <==> forall j :: 0 <= j < |types| ==> !IsSuitable(types, mask, usage, j)
  {
    var suitable := SuitableTypes(types, mask, usage, |types|);
    if exists j :: 0 <= j < |types| && IsSuitable(types, mask, usage, j) {
      var j :| 0 <= j < |types| && IsSuitable(types, mask, usage, j);
      assert j in suitable;
    }
  }

  /**
   * The device out-of-memory error is reported exactly when some type is suitable but
   * none of the suitable types' heaps has room; a capacity failure is never reported
   * as `NoSuitableMemory`.
   */
  lemma SelectOutOfMemory(types: seq<MemoryType>, heaps: seq<MemoryHeap>, mask: bv32, usage: MemoryUsage,
                          size: nat, align: nat)
    requires Registry(types, heaps)
    ensures Select(types, heaps, mask, usage, size, align) == Failure(AllocationError(OutOfMemory(Device)))
            <==> (exists j :: 0 <= j < |types| && IsSuitable(types, mask, usage, j))
                 && forall j :: 0 <= j < |types| ==> !IsCandidate(types, heaps, mask, usage, size, align, j)
  {
    var suitable := SuitableTypes(types, mask, usage, |types|);
    if suitable != [] {
      var roomy := WithRoom(types, heaps, suitable, size, align);
      assert suitable[0] < |types| && IsSuitable(types, mask, usage, suitable[0]);
      if exists j :: 0 <= j < |types| && IsCandidate(types, heaps, mask, usage, size, align, j) {
        var j :| 0 <= j < |types| && IsCandidate(types, heaps, mask, usage, size, align, j);
        assert j in suitable;
        var m :| 0 <= m < |suitable| && suitable[m] == j;
        assert j in roomy;
      } else if roomy != [] {
        assert IsCandidate(types, heaps, mask, usage, size, align, roomy[0]);
      }
    } else {
      SelectNoSuitableMemory(types, heaps, mask, usage, size, align);
    }
  }

  /** Selection succeeds exactly when some type survives every filter. */
  lemma SelectSucceeds(types: seq<MemoryType>, heaps: seq<MemoryHeap>, mask: bv32, usage: MemoryUsage,
                       size: nat, align: nat)
    requires Registry(types, heaps)
    ensures Select(types, heaps, mask, usage, size, align).Success?
            <==> exists j :: 0 <= j < |types| && IsCandidate(types, heaps, mask, usage, size, align, j)
  {
    SelectOutOfMemory(types, heaps, mask, usage, size, align);
    SelectNoSuitableMemory(types, heaps, mask, usage, size, align);
  }

  /**
   * A type chosen by selection always passes the re-check of `allocate_from`
   * (`available() < size` fails), because selection demanded more than `size + align`.
   */
  lemma SelectPassesCommitGate(types: seq<MemoryType>, heaps: seq<MemoryHeap>, mask: bv32, usage: MemoryUsage,
                               size: nat, align: nat)
    requires Registry(types, heaps)
    requires Select(types, heaps, mask, usage, size, align).Success?
    ensures var i := Select(types, heaps, mask, usage, size, align).value;
            i < |types| && heaps[types[i].heapIndex].Available() > size
  {
  }
}
