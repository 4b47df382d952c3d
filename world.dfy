/** The voxel world as the mod's terrain code sees it: a grid of block ids
    (0 is air) and a registry that gives each id its material and code path. */
module World {
  import opened Wrappers
  import opened Strings

  datatype Pos = Pos(x: int, y: int, z: int)

  /** Block ids by position; a position absent from the map holds air. */
  type Grid = map<Pos, int>

  function BlockAt(g: Grid, p: Pos): int {
    if p in g then g[p] else 0
  }

  /** The engine's block material classes that the mod tests for. */
  datatype Material = Air | Soil | Gravel | Sand | Stone | Ore | Liquid | Snow | Ice | Plant | Leaves | Wood | Other

  /** A block type: its material, the path of its code (`game:<path>`) and its
      "rock" variant (empty when it has none). */
  datatype BlockInfo = BlockInfo(material: Material, codePath: string, rockVariant: string)

  /** Block types by id. An id the registry does not know stands for a null block. */
  type Registry = map<int, BlockInfo>

  function GetBlock(reg: Registry, id: int): Option<BlockInfo> {
    if id in reg then Some(reg[id]) else None
  }

  /** IsCarvable: a non-null block of a stone, gravel, ore, soil, sand or liquid
      material. Air, snow, ice and vegetation are never carved. */
  predicate IsCarvable(b: Option<BlockInfo>): (r: bool)
    ensures r ==> b.Some?
    ensures b.Some? && b.value.material in {Air, Snow, Ice, Plant, Leaves, Wood, Other} ==> !r
  {
    b.Some? && b.value.material in {Stone, Gravel, Ore, Soil, Sand, Liquid}
  }

  predicate Carvable(reg: Registry, id: int) {
    IsCarvable(GetBlock(reg, id))
  }

  /** The engine registers air, which nothing carves, under id 0. */
  predicate ZeroIsAir(reg: Registry) {
    0 in reg && reg[0].material == Air
  }

  /** A non-null block other than air. */
  predicate Occupied(reg: Registry, id: int) {
    id in reg && id != 0
  }

  /** A code path naming a log or wood block. */
  predicate IsWoodCode(path: string) {
    Contains(path, "log") || Contains(path, "wood")
  }

  /** Offsets inside the disk of radius w that the carving and lowering loops visit. */
  predicate InDisk(dx: int, dz: int, w: int) {
    -w <= dx <= w && -w <= dz <= w && dx * dx + dz * dz <= w * w
  }

  /** The world's block accessor: the grid the mod reads and writes in place. */
  class BlockAccessor {
    var blocks: Grid
    const registry: Registry
    const mapSizeY: int
    const seaLevel: int

    constructor (blocks: Grid, registry: Registry, mapSizeY: int, seaLevel: int)
      ensures this.blocks == blocks && this.registry == registry
      ensures this.mapSizeY == mapSizeY && this.seaLevel == seaLevel
    {
      this.blocks := blocks;
      this.registry := registry;
      this.mapSizeY := mapSizeY;
      this.seaLevel := seaLevel;
    }

    function GetBlockId(p: Pos): int
      reads this
    {
      BlockAt(blocks, p)
    }

    /** SetBlock: position `p` now holds `id`; nothing else changes. */
    method SetBlock(id: int, p: Pos)
      modifies this`blocks
      ensures blocks == old(blocks)[p := id]
      ensures forall q :: BlockAt(blocks, q) == if q == p then id else BlockAt(old(blocks), q)
    {
      blocks := blocks[p := id];
    }
  }
}
