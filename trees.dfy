/** CollapseTreesInRadius: in every column of the square around the quake
    centre, the first tree standing on the terrain top is removed. */
module Trees {
  import opened Wrappers
  import opened GameMath
  import opened World

  /** A block tree felling removes: a log or wood code path, or a leaves material. */
  predicate IsTreePart(reg: Registry, id: int) {
    Occupied(reg, id) && (IsWoodCode(reg[id].codePath) || reg[id].material == Leaves)
  }

  /** The terrain top: the highest non-null, non-air block from y down to just
      above lo, or lo itself when there is none. */
  function TopSolid(reg: Registry, g: Grid, x: int, z: int, y: int, lo: int): (r: int)
    ensures r == lo || (lo < r <= y && Occupied(reg, BlockAt(g, Pos(x, r, z))))
    ensures y < lo ==> r == lo
    ensures y >= lo ==> lo <= r <= y
    ensures forall y' :: r < y' <= y && y' > lo ==> !Occupied(reg, BlockAt(g, Pos(x, y', z)))
    decreases y - lo
  {
    if y <= lo then lo
    else if Occupied(reg, BlockAt(g, Pos(x, y, z))) then y
    else TopSolid(reg, g, x, z, y - 1, lo)
  }

  /** The first log or wood block scanning up from s while below `limit`; the scan
      stops without one at the first null or air block. */
  function FirstWood(reg: Registry, g: Grid, x: int, z: int, s: int, limit: int): (w: Option<int>)
    ensures w.Some? ==> s <= w.value < limit && Occupied(reg, BlockAt(g, Pos(x, w.value, z))) &&
                        IsWoodCode(reg[BlockAt(g, Pos(x, w.value, z))].codePath)
    ensures w.Some? ==> forall y :: s <= y < w.value ==>
              Occupied(reg, BlockAt(g, Pos(x, y, z))) && !IsWoodCode(reg[BlockAt(g, Pos(x, y, z))].codePath)
    decreases limit - s
  {
    if s >= limit then None
    else
      var id := BlockAt(g, Pos(x, s, z));
      if !Occupied(reg, id) then None
      else if IsWoodCode(reg[id].codePath) then Some(s)
      else FirstWood(reg, g, x, z, s + 1, limit)
  }

  /** The height of the unbroken run of tree parts from h up, below `limit`. */
  function RunHeight(reg: Registry, g: Grid, x: int, z: int, h: int, limit: int): (n: nat)
    ensures h + n <= limit || n == 0
    ensures forall k :: h <= k < h + n ==> IsTreePart(reg, BlockAt(g, Pos(x, k, z)))
    ensures h < limit && IsTreePart(reg, BlockAt(g, Pos(x, h, z))) ==> n >= 1
    decreases limit - h
  {
    if h >= limit then 0
    else if !IsTreePart(reg, BlockAt(g, Pos(x, h, z))) then 0
    else 1 + RunHeight(reg, g, x, z, h + 1, limit)
  }

  /** The tree felled in column (x, z): from the first wood block found scanning up
      from the terrain top (below min(top + 30, mapSizeY - 1)), the run of tree
      parts below min(start + 40, mapSizeY - 1). */
  function TreeRun(reg: Registry, g: Grid, x: int, z: int, cy: int, mapSizeY: int): (run: Option<(int, int)>)
    ensures run.Some? ==>
              cy - 20 <= run.value.0 && run.value.1 >= 1 && run.value.0 + run.value.1 <= mapSizeY - 1 &&
              Occupied(reg, BlockAt(g, Pos(x, run.value.0, z))) &&
              IsWoodCode(reg[BlockAt(g, Pos(x, run.value.0, z))].codePath) &&
              forall k :: run.value.0 <= k < run.value.0 + run.value.1 ==> IsTreePart(reg, BlockAt(g, Pos(x, k, z)))
  {
    var top := TopSolid(reg, g, x, z, cy + 20, cy - 20);
    match FirstWood(reg, g, x, z, top, Min(top + 30, mapSizeY - 1))
    case None => None
    case Some(w) => Some((w, RunHeight(reg, g, x, z, w, Min(w + 40, mapSizeY - 1))))
  }

  predicate InRun(run: Option<(int, int)>, y: int) {
    run.Some? && run.value.0 <= y < run.value.0 + run.value.1
  }

  predicate InSquare(p: Pos, center: Pos, radius: int) {
    center.x - radius <= p.x <= center.x + radius && center.z - radius <= p.z <= center.z + radius
  }

  /** What a cell holds after the collapse. */
  function FelledCell(reg: Registry, g: Grid, center: Pos, radius: int, mapSizeY: int, p: Pos): (id: int)
    ensures id == 0 || id == BlockAt(g, p)
    ensures id != BlockAt(g, p) ==> InSquare(p, center, radius) && IsTreePart(reg, BlockAt(g, p))
  {
    if InSquare(p, center, radius) && InRun(TreeRun(reg, g, p.x, p.z, center.y, mapSizeY), p.y) then 0 else BlockAt(g, p)
  }

  /** The terrain-top scan of one column, down from cy + 20 to just above cy - 20. */
  method FindTopSolid(ba: BlockAccessor, ghost g0: Grid, x: int, z: int, cy: int) returns (y: int)
    requires forall y :: BlockAt(ba.blocks, Pos(x, y, z)) == BlockAt(g0, Pos(x, y, z))
    ensures y == TopSolid(ba.registry, g0, x, z, cy + 20, cy - 20)
  {
    y := cy + 20;
    while y > cy - 20
      invariant y >= cy - 20
      invariant TopSolid(ba.registry, g0, x, z, y, cy - 20) == TopSolid(ba.registry, g0, x, z, cy + 20, cy - 20)
    {
      var id := ba.GetBlockId(Pos(x, y, z));
      if id in ba.registry && id != 0 {
        return;
      }
      y := y - 1;
    }
  }

  /** The upward scan for a log or wood block, stopping at a null or air block. */
  method FindFirstWood(ba: BlockAccessor, ghost g0: Grid, x: int, z: int, y: int, limit: int) returns (w: Option<int>)
    requires forall y :: BlockAt(ba.blocks, Pos(x, y, z)) == BlockAt(g0, Pos(x, y, z))
    ensures w == FirstWood(ba.registry, g0, x, z, y, limit)
  {
    var scanY := y;
    while scanY < limit
      invariant FirstWood(ba.registry, g0, x, z, scanY, limit) == FirstWood(ba.registry, g0, x, z, y, limit)
    {
      var id := ba.GetBlockId(Pos(x, scanY, z));
      if !(id in ba.registry && id != 0) {
        return None;
      }
      if IsWoodCode(ba.registry[id].codePath) {
        return Some(scanY);
      }
      scanY := scanY + 1;
    }
    return None;
  }

  /** The height of the run of logs, wood and leaves from `start` up. */
  method MeasureRun(ba: BlockAccessor, ghost g0: Grid, x: int, z: int, start: int, runLimit: int) returns (height: nat)
    requires forall y :: BlockAt(ba.blocks, Pos(x, y, z)) == BlockAt(g0, Pos(x, y, z))
    ensures height == RunHeight(ba.registry, g0, x, z, start, runLimit)
  {
    height := 0;
    var h := start;
    while h < runLimit
      invariant h == start + height
      invariant height + RunHeight(ba.registry, g0, x, z, h, runLimit) == RunHeight(ba.registry, g0, x, z, start, runLimit)
    {
      var check := ba.GetBlockId(Pos(x, h, z));
      if !(check in ba.registry && check != 0) {
        return;
      }
      if !IsWoodCode(ba.registry[check].codePath) && ba.registry[check].material != Leaves {
        return;
      }
      height := height + 1;
      h := h + 1;
    }
  }

  /** One column: find the terrain top, scan up for wood, measure the run and
      clear it (the fall direction drawn for it has no effect). The column's
      blocks equal those of g0, the grid the scans describe. */
  method CollapseColumn(ba: BlockAccessor, ghost g0: Grid, x: int, z: int, cy: int)
    requires forall y :: BlockAt(ba.blocks, Pos(x, y, z)) == BlockAt(g0, Pos(x, y, z))
    modifies ba`blocks
    ensures forall p :: BlockAt(ba.blocks, p) ==
              if p.x == x && p.z == z && InRun(TreeRun(ba.registry, g0, x, z, cy, ba.mapSizeY), p.y)
              then 0 else BlockAt(old(ba.blocks), p)
  {
    var y := FindTopSolid(ba, g0, x, z, cy);
    var wood := FindFirstWood(ba, g0, x, z, y, Min(y + 30, ba.mapSizeY - 1));
    if wood.None? {
      return;
    }
    var scanY := wood.value;
    var height := MeasureRun(ba, g0, x, z, scanY, Min(scanY + 40, ba.mapSizeY - 1));
    if height > 0 {
      ghost var before := ba.blocks;
      for k := 0 to height
        invariant forall p :: BlockAt(ba.blocks, p) ==
                    if p.x == x && p.z == z && scanY <= p.y < scanY + k then 0 else BlockAt(before, p)
      {
        ba.SetBlock(0, Pos(x, scanY + k, z));
      }
    }
  }

  /** CollapseTreesInRadius over the square of half-width `radius`. */
  method CollapseTreesInRadius(ba: BlockAccessor, center: Pos, radius: int)
    modifies ba`blocks
    ensures forall p :: BlockAt(ba.blocks, p) == FelledCell(ba.registry, old(ba.blocks), center, radius, ba.mapSizeY, p)
  {
    ghost var g0 := ba.blocks;
    var x := center.x - radius;
    while x <= center.x + radius
      invariant center.x - radius <= x && (x <= center.x + radius + 1 || x == center.x - radius)
      invariant forall p :: BlockAt(ba.blocks, p) ==
                  if p.x < x && InSquare(p, center, radius) && InRun(TreeRun(ba.registry, g0, p.x, p.z, center.y, ba.mapSizeY), p.y)
                  then 0 else BlockAt(g0, p)
    {
      var z := center.z - radius;
      while z <= center.z + radius
        invariant center.z - radius <= z <= center.z + radius + 1
        invariant forall p :: BlockAt(ba.blocks, p) ==
                    if (p.x < x || (p.x == x && p.z < z)) && InSquare(p, center, radius) &&
                       InRun(TreeRun(ba.registry, g0, p.x, p.z, center.y, ba.mapSizeY), p.y)
                    then 0 else BlockAt(g0, p)
      {
        CollapseColumn(ba, g0, x, z, center.y);
        z := z + 1;
      }
      x := x + 1;
    }
  }
}
