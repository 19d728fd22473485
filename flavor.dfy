/**
 * The tagged union that erases which sub-allocation strategy produced a block.
 * The strategies' own block types are not part of this model: each is reduced to the
 * two facts the router reads from it, its size and the properties of its memory.
 */
module Flavor {
  import Hal

  /** What a dedicated, general or linear block reports about itself. */
  datatype StrategyBlock = StrategyBlock(size: nat, properties: Hal.Properties)

  datatype BlockFlavor =
    | Dedicated(block: StrategyBlock)
    | General(block: StrategyBlock)
    | Linear(block: StrategyBlock)
  {
    /** `BlockFlavor::size`: the wrapped block's size, whichever strategy produced it. */
    function Size(): (r: nat)
      ensures r == block.size
    {
      match this
      case Dedicated(b) => b.size
      case General(b) => b.size
      case Linear(b) => b.size
    }

    /** The `properties` forwarding of `Block for MemoryBlock`: the wrapped block's, whatever its strategy. */
    function Properties(): (r: Hal.Properties)
      ensures r == block.properties
    {
      match this
      case Dedicated(b) => b.properties
      case General(b) => b.properties
      case Linear(b) => b.properties
    }
  }
}
