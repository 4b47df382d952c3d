/** CleanupFloaters: removing unsupported vegetation, liquids and loose solid
    blocks in a box around the quake centre. */
module Floaters {
  import opened GameMath
  import opened Strings
  import opened World

  function Below(p: Pos): Pos {
    Pos(p.x, p.y - 1, p.z)
  }

  /** The vegetation test: a plant, leaves or liquid material, or a code path
      naming grass, a plant, a flower, a bush, a reed, wood or a log. */
  predicate IsVegetation(b: BlockInfo) {
    b.material in {Plant, Leaves, Liquid} ||
    Contains(b.codePath, "grass") || Contains(b.codePath, "plant") || Contains(b.codePath, "flower") ||
    Contains(b.codePath, "bush") || Contains(b.codePath, "reed") || Contains(b.codePath, "wood") ||
    Contains(b.codePath, "log")
  }

  /** The loose solids a floating island is made of. */
  predicate IsLooseSolid(b: BlockInfo) {
    b.material in {Stone, Soil, Sand, Gravel, Snow}
  }

  /** A block the cleanup removes: present, with air or a null block below it,
      and vegetation or a loose solid. */
  predicate IsFloater(reg: Registry, g: Grid, p: Pos) {
    var id := BlockAt(g, p);
    Occupied(reg, id) && !Occupied(reg, BlockAt(g, Below(p))) &&
    (IsVegetation(reg[id]) || IsLooseSolid(reg[id]))
  }

  /** The cleanup box: x and z within `radius` of the centre, y from
      max(2, cy - 32) to min(mapSizeY - 3, cy + 32). */
  predicate InCleanupBox(p: Pos, center: Pos, radius: int, mapSizeY: int) {
    center.x - radius <= p.x <= center.x + radius &&
    center.z - radius <= p.z <= center.z + radius &&
    Max(2, center.y - 32) <= p.y <= Min(mapSizeY - 3, center.y + 32)
  }

  /** What a cell holds after the cleanup: each column is scanned top down, so a
      block is tested against the block below it before that one is cleared, and
      the outcome depends on the grid before the cleanup alone. */
  function CleanedCell(reg: Registry, g: Grid, center: Pos, radius: int, mapSizeY: int, p: Pos): (id: int)
    ensures id == 0 || id == BlockAt(g, p)
    ensures id != BlockAt(g, p) ==> InCleanupBox(p, center, radius, mapSizeY) && !Occupied(reg, BlockAt(g, Below(p)))
  {
    if InCleanupBox(p, center, radius, mapSizeY) && IsFloater(reg, g, p) then 0 else BlockAt(g, p)
  }

  /** One column of the cleanup, from maxY down to minY. */
  method CleanupColumn(ba: BlockAccessor, x: int, z: int, maxY: int, minY: int)
    modifies ba`blocks
    ensures forall p :: BlockAt(ba.blocks, p) ==
              if p.x == x && p.z == z && minY <= p.y <= maxY && IsFloater(ba.registry, old(ba.blocks), p)
              then 0 else BlockAt(old(ba.blocks), p)
  {
    ghost var g0 := ba.blocks;
    var y := maxY;
    while y >= minY
      invariant y <= maxY
      invariant forall p :: BlockAt(ba.blocks, p) ==
                  if p.x == x && p.z == z && minY <= p.y <= maxY && y < p.y && IsFloater(ba.registry, g0, p)
                  then 0 else BlockAt(g0, p)
    {
      var pos := Pos(x, y, z);
      var id := ba.GetBlockId(pos);
      var belowId := ba.GetBlockId(Below(pos));
      assert IsFloater(ba.registry, g0, pos) <==> IsFloater(ba.registry, ba.blocks, pos);
      if id in ba.registry && id != 0 && !(belowId in ba.registry && belowId != 0) {
        var b := ba.registry[id];
        if IsVegetation(b) {
          ba.SetBlock(0, pos);
        } else if IsLooseSolid(b) {
          ba.SetBlock(0, pos);
        }
      }
      y := y - 1;
    }
  }

  /** CleanupFloaters over the whole box. */
  method CleanupFloaters(ba: BlockAccessor, center: Pos, radius: int)
    modifies ba`blocks
    ensures forall p :: BlockAt(ba.blocks, p) == CleanedCell(ba.registry, old(ba.blocks), center, radius, ba.mapSizeY, p)
  {
    ghost var g0 := ba.blocks;
    var minY := Max(2, center.y - 32);
    var maxY := Min(ba.mapSizeY - 3, center.y + 32);
    var x := center.x - radius;
    while x <= center.x + radius
      invariant center.x - radius <= x && (x <= center.x + radius + 1 || x == center.x - radius)
      invariant forall p :: BlockAt(ba.blocks, p) ==
                  if p.x < x && InCleanupBox(p, center, radius, ba.mapSizeY) && IsFloater(ba.registry, g0, p)
                  then 0 else BlockAt(g0, p)
    {
      var z := center.z - radius;
      while z <= center.z + radius
        invariant center.z - radius <= z <= center.z + radius + 1
        invariant forall p :: BlockAt(ba.blocks, p) ==
                    if (p.x < x || (p.x == x && p.z < z)) && InCleanupBox(p, center, radius, ba.mapSizeY) &&
                       IsFloater(ba.registry, g0, p)
                    then 0 else BlockAt(g0, p)
      {
        ghost var before := ba.blocks;
        assert forall p: Pos :: p.x == x && p.z == z ==> IsFloater(ba.registry, before, p) == IsFloater(ba.registry, g0, p) by {
          forall p: Pos | p.x == x && p.z == z
            ensures IsFloater(ba.registry, before, p) == IsFloater(ba.registry, g0, p)
          {
            assert BlockAt(before, p) == BlockAt(g0, p);
            assert BlockAt(before, Below(p)) == BlockAt(g0, Below(p));
          }
        }
        CleanupColumn(ba, x, z, maxY, minY);
        z := z + 1;
      }
      x := x + 1;
    }
  }

  /** Only the lowest block of a floating stack goes in one pass: with stone at
      heights 10 and 11 over air, the cleanup clears height 10 and keeps 11. */
  lemma OnlyBottomOfStackRemoved()
    ensures var reg: Registry := map[0 := BlockInfo(Air, "air", ""), 1 := BlockInfo(Stone, "rock-granite", "granite")];
            var g: Grid := map[Pos(0, 10, 0) := 1, Pos(0, 11, 0) := 1];
            CleanedCell(reg, g, Pos(0, 10, 0), 4, 256, Pos(0, 10, 0)) == 0 &&
            CleanedCell(reg, g, Pos(0, 10, 0), 4, 256, Pos(0, 11, 0)) == 1
  {
    var reg: Registry := map[0 := BlockInfo(Air, "air", ""), 1 := BlockInfo(Stone, "rock-granite", "granite")];
    var g: Grid := map[Pos(0, 10, 0) := 1, Pos(0, 11, 0) := 1];
    assert BlockAt(g, Below(Pos(0, 10, 0))) == 0;
    assert BlockAt(g, Below(Pos(0, 11, 0))) == 1;
  }
}
