/** LowerTerrainShards: disk-shaped patches of terrain, each lowered by a drawn
    number of blocks, column by column, from the bottom of the window up. */
module Shards {
  import opened GameMath
  import opened World
  import Rand

  /** One cell of a patch column moved down: the block at height y (if any)
      goes to max(2, y - drop) and leaves air behind. */
  function MoveDown(g: Grid, x: int, z: int, y: int, drop: int): Grid {
    var id := BlockAt(g, Pos(x, y, z));
    if id == 0 then g else g[Pos(x, y, z) := 0][Pos(x, Max(2, y - drop), z) := id]
  }

  /** The column at (x, z) lowered from height y up to topY. */
  function ColumnLower(g: Grid, x: int, z: int, y: int, topY: int, drop: int): Grid
    decreases topY - y
  {
    if y > topY then g else ColumnLower(MoveDown(g, x, z, y, drop), x, z, y + 1, topY, drop)
  }

  /** The columns (cx + dx, cz + dz'), dz' from dz to pr, that lie in the disk. */
  function RowLower(g: Grid, cx: int, cz: int, pr: int, dx: int, dz: int, bottomY: int, topY: int, drop: int): Grid
    decreases pr - dz
  {
    if dz > pr then g
    else
      var g' := if dx * dx + dz * dz > pr * pr then g else ColumnLower(g, cx + dx, cz + dz, bottomY, topY, drop);
      RowLower(g', cx, cz, pr, dx, dz + 1, bottomY, topY, drop)
  }

  /** The rows dx' from dx to pr of the patch disk around (cx, cz). */
  function PatchLower(g: Grid, cx: int, cz: int, pr: int, dx: int, bottomY: int, topY: int, drop: int): Grid
    decreases pr - dx
  {
    if dx > pr then g
    else PatchLower(RowLower(g, cx, cz, pr, dx, -pr, bottomY, topY, drop), cx, cz, pr, dx + 1, bottomY, topY, drop)
  }

  /** The non-air cells of column (x, z) from height lo to hi. */
  function NonAirCount(g: Grid, x: int, z: int, lo: int, hi: int): nat
    decreases hi - lo
  {
    if hi < lo then 0
    else (if BlockAt(g, Pos(x, hi, z)) != 0 then 1 else 0) + NonAirCount(g, x, z, lo, hi - 1)
  }

  lemma {:induction false} CountSame(g1: Grid, g2: Grid, x: int, z: int, lo: int, hi: int)
    requires forall y :: lo <= y <= hi ==> BlockAt(g1, Pos(x, y, z)) == BlockAt(g2, Pos(x, y, z))
    ensures NonAirCount(g1, x, z, lo, hi) == NonAirCount(g2, x, z, lo, hi)
    decreases hi - lo
  {
    if hi >= lo {
      CountSame(g1, g2, x, z, lo, hi - 1);
    }
  }

  /** Writing one cell of the counted range changes the count by that cell alone. */
  lemma {:induction false} CountUpdate(g: Grid, x: int, z: int, lo: int, hi: int, y: int, v: int)
    requires lo <= y <= hi
    ensures NonAirCount(g[Pos(x, y, z) := v], x, z, lo, hi) ==
            NonAirCount(g, x, z, lo, hi) - (if BlockAt(g, Pos(x, y, z)) != 0 then 1 else 0) + (if v != 0 then 1 else 0)
    decreases hi - lo
  {
    var g' := g[Pos(x, y, z) := v];
    if hi == y {
      CountSame(g', g, x, z, lo, hi - 1);
    } else {
      CountUpdate(g, x, z, lo, hi - 1, y, v);
    }
  }

  /** Moving one block down inside [2, topY] never adds a block to any column. */
  lemma MoveDownCount(g: Grid, x: int, z: int, y: int, drop: int, x': int, z': int, topY: int)
    requires drop >= 1 && 2 <= y <= topY
    ensures NonAirCount(MoveDown(g, x, z, y, drop), x', z', 2, topY) <= NonAirCount(g, x', z', 2, topY)
  {
    var id := BlockAt(g, Pos(x, y, z));
    if id != 0 {
      var to := Max(2, y - drop);
      var g1 := g[Pos(x, y, z) := 0];
      if x' == x && z' == z {
        CountUpdate(g, x, z, 2, topY, y, 0);
        CountUpdate(g1, x, z, 2, topY, to, id);
      } else {
        CountSame(MoveDown(g, x, z, y, drop), g, x', z', 2, topY);
      }
    }
  }

  lemma {:induction false} ColumnLowerCount(g: Grid, x: int, z: int, y: int, topY: int, drop: int, x': int, z': int)
    requires drop >= 1 && y >= 2
    ensures NonAirCount(ColumnLower(g, x, z, y, topY, drop), x', z', 2, topY) <= NonAirCount(g, x', z', 2, topY)
    decreases topY - y
  {
    if y <= topY {
      MoveDownCount(g, x, z, y, drop, x', z', topY);
      ColumnLowerCount(MoveDown(g, x, z, y, drop), x, z, y + 1, topY, drop, x', z');
    }
  }

  /** Lowering a column writes only that column, between heights 2 and topY. */
  lemma {:induction false} ColumnLowerFrame(g: Grid, x: int, z: int, y: int, topY: int, drop: int, p: Pos)
    requires drop >= 1 && y >= 2
    requires !(p.x == x && p.z == z && 2 <= p.y <= topY)
    ensures BlockAt(ColumnLower(g, x, z, y, topY, drop), p) == BlockAt(g, p)
    decreases topY - y
  {
    if y <= topY {
      ColumnLowerFrame(MoveDown(g, x, z, y, drop), x, z, y + 1, topY, drop, p);
    }
  }

  lemma {:induction false} RowLowerCount(g: Grid, cx: int, cz: int, pr: int, dx: int, dz: int, bottomY: int, topY: int,
                                         drop: int, x': int, z': int)
    requires drop >= 1 && bottomY >= 2
    ensures NonAirCount(RowLower(g, cx, cz, pr, dx, dz, bottomY, topY, drop), x', z', 2, topY) <= NonAirCount(g, x', z', 2, topY)
    decreases pr - dz
  {
    if dz <= pr {
      var g' := if dx * dx + dz * dz > pr * pr then g else ColumnLower(g, cx + dx, cz + dz, bottomY, topY, drop);
      if dx * dx + dz * dz <= pr * pr {
        ColumnLowerCount(g, cx + dx, cz + dz, bottomY, topY, drop, x', z');
      }
      RowLowerCount(g', cx, cz, pr, dx, dz + 1, bottomY, topY, drop, x', z');
    }
  }

  lemma {:induction false} RowLowerFrame(g: Grid, cx: int, cz: int, pr: int, dx: int, dz: int, bottomY: int, topY: int,
                                         drop: int, p: Pos)
    requires drop >= 1 && bottomY >= 2 && -pr <= dx <= pr && -pr <= dz
    requires !(p.x == cx + dx && InDisk(p.x - cx, p.z - cz, pr) && 2 <= p.y <= topY)
    ensures BlockAt(RowLower(g, cx, cz, pr, dx, dz, bottomY, topY, drop), p) == BlockAt(g, p)
    decreases pr - dz
  {
    if dz <= pr {
      var g' := if dx * dx + dz * dz > pr * pr then g else ColumnLower(g, cx + dx, cz + dz, bottomY, topY, drop);
      if dx * dx + dz * dz <= pr * pr {
        ColumnLowerFrame(g, cx + dx, cz + dz, bottomY, topY, drop, p);
      }
      RowLowerFrame(g', cx, cz, pr, dx, dz + 1, bottomY, topY, drop, p);
    }
  }

  lemma {:induction false} PatchLowerCount(g: Grid, cx: int, cz: int, pr: int, dx: int, bottomY: int, topY: int,
                                           drop: int, x': int, z': int)
    requires drop >= 1 && bottomY >= 2
    ensures NonAirCount(PatchLower(g, cx, cz, pr, dx, bottomY, topY, drop), x', z', 2, topY) <= NonAirCount(g, x', z', 2, topY)
    decreases pr - dx
  {
    if dx <= pr {
      RowLowerCount(g, cx, cz, pr, dx, -pr, bottomY, topY, drop, x', z');
      PatchLowerCount(RowLower(g, cx, cz, pr, dx, -pr, bottomY, topY, drop), cx, cz, pr, dx + 1, bottomY, topY, drop, x', z');
    }
  }

  lemma {:induction false} PatchLowerFrame(g: Grid, cx: int, cz: int, pr: int, dx: int, bottomY: int, topY: int,
                                           drop: int, p: Pos)
    requires drop >= 1 && bottomY >= 2 && -pr <= dx
    requires !(InDisk(p.x - cx, p.z - cz, pr) && 2 <= p.y <= topY)
    ensures BlockAt(PatchLower(g, cx, cz, pr, dx, bottomY, topY, drop), p) == BlockAt(g, p)
    decreases pr - dx
  {
    if dx <= pr {
      RowLowerFrame(g, cx, cz, pr, dx, -pr, bottomY, topY, drop, p);
      PatchLowerFrame(RowLower(g, cx, cz, pr, dx, -pr, bottomY, topY, drop), cx, cz, pr, dx + 1, bottomY, topY, drop, p);
    }
  }

  /** One patch column lowered in place, from bottomY up to topY. */
  method LowerColumn(ba: BlockAccessor, x: int, z: int, bottomY: int, topY: int, drop: int)
    modifies ba`blocks
    ensures ba.blocks == ColumnLower(old(ba.blocks), x, z, bottomY, topY, drop)
  {
    ghost var g0 := ba.blocks;
    var y := bottomY;
    while y <= topY
      invariant y <= topY + 1 || y == bottomY
      invariant ColumnLower(ba.blocks, x, z, y, topY, drop) == ColumnLower(g0, x, z, bottomY, topY, drop)
    {
      var from := Pos(x, y, z);
      var to := Pos(x, Max(2, y - drop), z);
      var id := ba.GetBlockId(from);
      if id != 0 {
        ba.SetBlock(0, from);
        ba.SetBlock(id, to);
      }
      y := y + 1;
    }
  }

  /** One patch: every column of the disk of radius pr around (cx, cz) lowered. */
  method LowerPatch(ba: BlockAccessor, cx: int, cz: int, pr: int, bottomY: int, topY: int, drop: int)
    modifies ba`blocks
    ensures ba.blocks == PatchLower(old(ba.blocks), cx, cz, pr, -pr, bottomY, topY, drop)
  {
    ghost var g0 := ba.blocks;
    var dx := -pr;
    while dx <= pr
      invariant -pr <= dx && (dx <= pr + 1 || dx == -pr)
      invariant PatchLower(ba.blocks, cx, cz, pr, dx, bottomY, topY, drop) == PatchLower(g0, cx, cz, pr, -pr, bottomY, topY, drop)
    {
      var dz := -pr;
      while dz <= pr
        invariant -pr <= dz <= pr + 1
        invariant PatchLower(RowLower(ba.blocks, cx, cz, pr, dx, dz, bottomY, topY, drop), cx, cz, pr, dx + 1, bottomY, topY, drop)
                  == PatchLower(g0, cx, cz, pr, -pr, bottomY, topY, drop)
      {
        if dx * dx + dz * dz <= pr * pr {
          LowerColumn(ba, cx + dx, cz + dz, bottomY, topY, drop);
        }
        dz := dz + 1;
      }
      dx := dx + 1;
    }
  }

  /** A lowered patch: its centre, radius and drop, and the draw `dist` that
      placed its centre. */
  datatype ShardPatch = ShardPatch(cx: int, cz: int, pr: int, drop: int, dist: int)

  function ApplyPatch(g: Grid, p: ShardPatch, bottomY: int, topY: int): Grid {
    PatchLower(g, p.cx, p.cz, p.pr, -p.pr, bottomY, topY, p.drop)
  }

  /** The patches applied in order, each to the grid the earlier ones left. */
  function ApplyPatches(g: Grid, ps: seq<ShardPatch>, bottomY: int, topY: int): Grid
    decreases |ps|
  {
    if |ps| == 0 then g else ApplyPatch(ApplyPatches(g, ps[..|ps| - 1], bottomY, topY), ps[|ps| - 1], bottomY, topY)
  }

  /** Patch count: max(2, ShardPatchCount * mag / 9), C#'s truncating division. */
  function ShardPatchTotal(shardPatchCount: int, mag: int): (n: int)
    ensures n >= 2
    ensures shardPatchCount * mag >= 9 * 2 ==> n == (shardPatchCount * mag) / 9
  {
    Max(2, TruncDiv(shardPatchCount * mag, 9))
  }

  /** The lowering window: min(cy + 8, mapSizeY - 3) down to max(cy - 10, 2). */
  function ShardTop(center: Pos, mapSizeY: int): (t: int)
    ensures t <= center.y + 8 && t < mapSizeY - 2
    ensures t == center.y + 8 || t == mapSizeY - 3
  {
    Min(center.y + 8, mapSizeY - 3)
  }

  function ShardBottom(center: Pos): (b: int)
    ensures b >= 2
  {
    Max(center.y - 10, 2)
  }

  /** What the draws of one patch guarantee: a radius in [min, max] of the two
      configured radii, a centre offset no longer than a distance drawn by
      `rand.Next(6, radius - pr - 2)`, and a drop drawn by
      `rand.Next(ShardLowerMin, ShardLowerMax + 1)`. */
  predicate PatchDrawn(p: ShardPatch, center: Pos, radius: int, radiusMin: int, radiusMax: int,
                       lowerMin: int, lowerMax: int) {
    Min(radiusMin, radiusMax) <= p.pr <= Max(radiusMin, radiusMax) &&
    6 <= p.dist && (p.dist < radius - p.pr - 2 || p.dist == 6) &&
    (p.cx - center.x) * (p.cx - center.x) + (p.cz - center.z) * (p.cz - center.z) <= p.dist * p.dist &&
    lowerMin <= lowerMax + 1 &&
    (lowerMin <= lowerMax ==> lowerMin <= p.drop <= lowerMax) &&
    (lowerMin == lowerMax + 1 ==> p.drop == lowerMin)
  }

  /** The truncated polar offset ((int)(cos a * r), (int)(sin a * r)) for an
      unknown angle: some point of the disk of radius r. */
  method PolarOffset(r: int) returns (ox: int, oz: int)
    requires r >= 0
    ensures ox * ox + oz * oz <= r * r
  {
    assert 0 * 0 + 0 * 0 <= r * r;
    ox, oz :| ox * ox + oz * oz <= r * r;
  }

  /** LowerTerrainShards. A draw that throws ends the call with `ok` false and the
      earlier patches applied: `rand.Next(6, radius - pr - 2)` throws when
      radius - pr - 2 < 6, and the drop draw throws when ShardLowerMin exceeds
      ShardLowerMax + 1. */
  method LowerTerrainShards(ba: BlockAccessor, center: Pos, radius: int, mag: int, shardPatchCount: int,
                            radiusMin: int, radiusMax: int, lowerMin: int, lowerMax: int)
      returns (ok: bool, ghost patches: seq<ShardPatch>)
    modifies ba`blocks
    ensures ba.blocks == ApplyPatches(old(ba.blocks), patches, ShardBottom(center), ShardTop(center, ba.mapSizeY))
    ensures ok ==> |patches| == ShardPatchTotal(shardPatchCount, mag)
    ensures !ok ==> |patches| < ShardPatchTotal(shardPatchCount, mag)
    ensures radius - Max(radiusMin, radiusMax) - 2 >= 6 && lowerMin <= lowerMax + 1 ==> ok
    ensures !ok ==> radius - Max(radiusMin, radiusMax) - 2 < 6 || lowerMin > lowerMax + 1
    ensures forall i :: 0 <= i < |patches| ==> PatchDrawn(patches[i], center, radius, radiusMin, radiusMax, lowerMin, lowerMax)
  {
    ghost var g0 := ba.blocks;
    var total := ShardPatchTotal(shardPatchCount, mag);
    var topY := ShardTop(center, ba.mapSizeY);
    var bottomY := ShardBottom(center);
    patches := [];
    for p := 0 to total
      invariant |patches| == p
      invariant ba.blocks == ApplyPatches(g0, patches, bottomY, topY)
      invariant forall i :: 0 <= i < p ==> PatchDrawn(patches[i], center, radius, radiusMin, radiusMax, lowerMin, lowerMax)
    {
      var minR := Min(radiusMin, radiusMax);
      var maxR := Max(radiusMin, radiusMax);
      var pr := Rand.Next(minR, maxR + 1);
      if radius - pr - 2 < 6 {
        return false, patches;
      }
      var r := Rand.Next(6, radius - pr - 2);
      var ox, oz := PolarOffset(r);
      var cx := center.x + ox;
      var cz := center.z + oz;
      if lowerMin > lowerMax + 1 {
        return false, patches;
      }
      var drop := Rand.Next(lowerMin, lowerMax + 1);
      LowerPatch(ba, cx, cz, pr, bottomY, topY, drop);
      ghost var patch := ShardPatch(cx, cz, pr, drop, r);
      assert (patches + [patch])[..p] == patches;
      patches := patches + [patch];
    }
    return true, patches;
  }

  /** Shard lowering never adds a block to a column's stretch from height 2 to
      the top of the window, when every drop is at least one block. */
  lemma {:induction false} ShardsNeverAddBlocks(g: Grid, ps: seq<ShardPatch>, center: Pos, mapSizeY: int, x: int, z: int)
    requires forall i :: 0 <= i < |ps| ==> ps[i].drop >= 1
    ensures NonAirCount(ApplyPatches(g, ps, ShardBottom(center), ShardTop(center, mapSizeY)), x, z, 2, ShardTop(center, mapSizeY))
            <= NonAirCount(g, x, z, 2, ShardTop(center, mapSizeY))
    decreases |ps|
  {
    if |ps| > 0 {
      var init := ps[..|ps| - 1];
      ShardsNeverAddBlocks(g, init, center, mapSizeY, x, z);
      var last := ps[|ps| - 1];
      PatchLowerCount(ApplyPatches(g, init, ShardBottom(center), ShardTop(center, mapSizeY)), last.cx, last.cz, last.pr,
                      -last.pr, ShardBottom(center), ShardTop(center, mapSizeY), last.drop, x, z);
    }
  }

  /** Shard lowering leaves alone every cell below height 2, above the window,
      or in a column outside every patch disk. */
  lemma {:induction false} ShardsFrame(g: Grid, ps: seq<ShardPatch>, center: Pos, mapSizeY: int, q: Pos)
    requires forall i :: 0 <= i < |ps| ==> ps[i].drop >= 1
    requires q.y < 2 || q.y > ShardTop(center, mapSizeY) ||
             forall i :: 0 <= i < |ps| ==> !InDisk(q.x - ps[i].cx, q.z - ps[i].cz, ps[i].pr)
    ensures BlockAt(ApplyPatches(g, ps, ShardBottom(center), ShardTop(center, mapSizeY)), q) == BlockAt(g, q)
    decreases |ps|
  {
    if |ps| > 0 {
      var init := ps[..|ps| - 1];
      ShardsFrame(g, init, center, mapSizeY, q);
      var last := ps[|ps| - 1];
      PatchLowerFrame(ApplyPatches(g, init, ShardBottom(center), ShardTop(center, mapSizeY)), last.cx, last.cz, last.pr,
                      -last.pr, ShardBottom(center), ShardTop(center, mapSizeY), last.drop, q);
    }
  }

  /** With ShardLowerMin of at least one every drawn patch lowers by at least one. */
  lemma DrawnDropsPositive(ps: seq<ShardPatch>, center: Pos, radius: int, radiusMin: int, radiusMax: int,
                           lowerMin: int, lowerMax: int)
    requires lowerMin >= 1
    requires forall i :: 0 <= i < |ps| ==> PatchDrawn(ps[i], center, radius, radiusMin, radiusMax, lowerMin, lowerMax)
    ensures forall i :: 0 <= i < |ps| ==> ps[i].drop >= 1
  {
  }
}
