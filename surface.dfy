/** Column scans: FindSurfaceY, IsLikelyInterior and NearbyRock, and the gravel
    halo that drops gravel onto the surface it finds. */
module Surface {
  import opened Wrappers
  import opened GameMath
  import opened World

  function Above(p: Pos, i: int): Pos {
    Pos(p.x, p.y + i, p.z)
  }

  /** Height y of column (x, z) is the surface: air there, a block below. */
  predicate IsSurface(g: Grid, x: int, z: int, y: int) {
    BlockAt(g, Pos(x, y, z)) == 0 && BlockAt(g, Pos(x, y - 1, z)) != 0
  }

  /** The scan from height y down to 2 for the highest surface, falling back to
      max(2, fromY). */
  function SurfaceScan(g: Grid, x: int, z: int, y: int, fromY: int): (r: int)
    ensures (1 < r <= y && IsSurface(g, x, z, r) && forall y' :: r < y' <= y ==> !IsSurface(g, x, z, y')) ||
            (r == Max(2, fromY) && forall y' :: 1 < y' <= y ==> !IsSurface(g, x, z, y'))
    decreases y
  {
    if y <= 1 then Max(2, fromY)
    else if IsSurface(g, x, z, y) then y
    else SurfaceScan(g, x, z, y - 1, fromY)
  }

  /** FindSurfaceY: the highest surface at or below min(fromY, mapSizeY - 2). */
  function SurfaceY(g: Grid, x: int, z: int, fromY: int, mapSizeY: int): int {
    SurfaceScan(g, x, z, Min(fromY, mapSizeY - 2), fromY)
  }

  /** FindSurfaceY as the loop the mod runs. */
  method FindSurfaceY(ba: BlockAccessor, x: int, z: int, fromY: int) returns (y: int)
    ensures y == SurfaceY(ba.blocks, x, z, fromY, ba.mapSizeY)
  {
    y := Min(fromY, ba.mapSizeY - 2);
    while y > 1
      invariant SurfaceScan(ba.blocks, x, z, y, fromY) == SurfaceY(ba.blocks, x, z, fromY, ba.mapSizeY)
    {
      var b := ba.GetBlockId(Pos(x, y, z));
      var below := ba.GetBlockId(Pos(x, y - 1, z));
      if b == 0 && below != 0 {
        return;
      }
      y := y - 1;
    }
    return Max(2, fromY);
  }

  /** IsLikelyInterior: a roof of non-air blocks over every one of the
      max(1, InteriorScanHeight) cells above the position. */
  method IsLikelyInterior(ba: BlockAccessor, pos: Pos, interiorScanHeight: int) returns (r: bool)
    ensures r <==> forall i :: 1 <= i <= Max(1, interiorScanHeight) ==> BlockAt(ba.blocks, Above(pos, i)) != 0
  {
    var i := 1;
    while i <= Max(1, interiorScanHeight)
      invariant 1 <= i <= Max(1, interiorScanHeight) + 1
      invariant forall k :: 1 <= k < i ==> BlockAt(ba.blocks, Above(pos, k)) != 0
    {
      if ba.GetBlockId(Above(pos, i)) == 0 {
        return false;
      }
      i := i + 1;
    }
    return true;
  }

  /** The rock variant of the block at p; empty for a null block or one without. */
  function RockAt(reg: Registry, g: Grid, p: Pos): string {
    var id := BlockAt(g, p);
    if id in reg then reg[id].rockVariant else ""
  }

  /** NearbyRock: the first non-empty rock variant from two blocks above the centre
      down to eight below it, or "granite". */
  method NearbyRock(ba: BlockAccessor, center: Pos) returns (rock: string)
    ensures rock != []
    ensures (exists dy :: -8 <= dy <= 2 && rock == RockAt(ba.registry, ba.blocks, Above(center, dy)) &&
               forall dy' :: dy < dy' <= 2 ==> RockAt(ba.registry, ba.blocks, Above(center, dy')) == []) ||
            (rock == "granite" && forall dy :: -8 <= dy <= 2 ==> RockAt(ba.registry, ba.blocks, Above(center, dy)) == [])
  {
    var dy := 2;
    while dy >= -8
      invariant -9 <= dy <= 2
      invariant forall dy' :: dy < dy' <= 2 ==> RockAt(ba.registry, ba.blocks, Above(center, dy')) == []
    {
      var r := RockAt(ba.registry, ba.blocks, Above(center, dy));
      if r != [] {
        return r;
      }
      dy := dy - 1;
    }
    return "granite";
  }

  /** One gravel drop: onto the surface found from cy + 12 in the column at the
      sample offset, if that cell is air. */
  function HaloDrop(g: Grid, gravel: int, center: Pos, mapSizeY: int, offset: (int, int)): Grid {
    var x := center.x + offset.0;
    var z := center.z + offset.1;
    var y := SurfaceY(g, x, z, center.y + 12, mapSizeY);
    if BlockAt(g, Pos(x, y, z)) == 0 then g[Pos(x, y, z) := gravel] else g
  }

  /** The drops in order, each on the grid the earlier ones left. */
  function HaloFold(g: Grid, gravel: int, center: Pos, mapSizeY: int, offsets: seq<(int, int)>): Grid
    decreases |offsets|
  {
    if |offsets| == 0 then g
    else HaloDrop(HaloFold(g, gravel, center, mapSizeY, offsets[..|offsets| - 1]), gravel, center, mapSizeY, offsets[|offsets| - 1])
  }

  /** The halo only turns air into gravel. */
  lemma {:induction false} HaloFillsOnlyAir(g: Grid, gravel: int, center: Pos, mapSizeY: int, offsets: seq<(int, int)>, p: Pos)
    ensures var h := BlockAt(HaloFold(g, gravel, center, mapSizeY, offsets), p);
            h == BlockAt(g, p) || (BlockAt(g, p) == 0 && h == gravel)
    decreases |offsets|
  {
    if |offsets| > 0 {
      HaloFillsOnlyAir(g, gravel, center, mapSizeY, offsets[..|offsets| - 1], p);
    }
  }

  /** GravelHaloBurst: max(20, radius) drops at the supplied sample offsets. With
      no gravel block type nothing happens; with a radius below 6 the first
      `rand.Next(max(6, radius/3), radius)` throws before any drop. */
  method GravelHaloBurst(ba: BlockAccessor, center: Pos, radius: int, gravel: Option<int>, offsets: seq<(int, int)>)
      returns (ok: bool)
    requires |offsets| == Max(20, radius)
    modifies ba`blocks
    ensures ok <==> gravel.None? || Max(6, TruncDiv(radius, 3)) <= radius
    ensures gravel.Some? && ok ==> ba.blocks == HaloFold(old(ba.blocks), gravel.value, center, ba.mapSizeY, offsets)
    ensures gravel.None? || !ok ==> ba.blocks == old(ba.blocks)
  {
    if gravel.None? {
      return true;
    }
    if Max(6, TruncDiv(radius, 3)) > radius {
      return false;
    }
    ghost var g0 := ba.blocks;
    var tries := Max(20, radius);
    for i := 0 to tries
      invariant ba.blocks == HaloFold(g0, gravel.value, center, ba.mapSizeY, offsets[..i])
    {
      var x := center.x + offsets[i].0;
      var z := center.z + offsets[i].1;
      var y := FindSurfaceY(ba, x, z, center.y + 12);
      if ba.GetBlockId(Pos(x, y, z)) == 0 {
        ba.SetBlock(gravel.value, Pos(x, y, z));
      }
      assert offsets[..i + 1][..i] == offsets[..i];
    }
    assert offsets[..tries] == offsets;
    return true;
  }
}
