/**
 * The parts of the graphics abstraction layer (`hal`) that the router touches:
 * memory property flags and the device's allocation errors.
 */
module Hal {
  /** One capability flag of a memory type (`hal::memory::Properties`). */
  datatype Property = DeviceLocal | CpuVisible | Coherent | CpuCached | LazilyAllocated

  /** A combination of flags; `a.contains(b)` is `b <= a`. */
  type Properties = set<Property>

  /** `hal::device::OutOfMemory`: which memory ran out. */
  datatype OutOfMemory = Host | Device

  /** `hal::device::AllocationError`. */
  datatype AllocationError = OutOfMemory(kind: OutOfMemory) | TooManyObjects
}
