/** CarveStep and ForeshockHintCut: clearing carvable blocks in vertical
    windows of columns. The floating-point sample positions along a fault or a
    hint ray are inputs, given as offsets from the quake centre. */
module Carving {
  import opened GameMath
  import opened World
  import opened QuakeParams
  import Rand

  /** The vertical window CarveStep clears: from min(cy + 10, mapSizeY - 3) down
      to clamp(bottomLimit, 2, topY - 2), where a quake below DepthClampBelowMag
      stops at SeaLevel - DepthClampToSeaOffset. */
  function CarveWindow(cy: int, depth: int, magnitude: int, mapSizeY: int, seaLevel: int,
                       depthClampBelowMag: int, depthClampToSeaOffset: int): (w: (int, int))
    ensures w.0 == Min(cy + 10, mapSizeY - 3)
    ensures w.0 >= 4 ==> 2 <= w.1 <= w.0 - 2
    ensures w.0 >= 4 && cy - depth <= w.0 - 2 && magnitude >= depthClampBelowMag ==> w.1 == Max(2, cy - depth)
    ensures w.0 >= 4 && magnitude < depthClampBelowMag ==> w.1 >= Min(seaLevel - depthClampToSeaOffset, w.0 - 2)
  {
    var topY := Min(cy + 10, mapSizeY - 3);
    var bottomLimit := if magnitude >= depthClampBelowMag then Max(2, cy - depth)
                       else Max(seaLevel - depthClampToSeaOffset, cy - depth);
    (topY, Clamp(bottomLimit, 2, topY - 2))
  }

  /** One column cleared: every carvable block at y in [bottomY, topY] becomes air. */
  method ClearCarvableColumn(ba: BlockAccessor, x: int, z: int, topY: int, bottomY: int)
    requires ZeroIsAir(ba.registry)
    modifies ba`blocks
    ensures forall p :: BlockAt(ba.blocks, p) ==
              if p.x == x && p.z == z && bottomY <= p.y <= topY && Carvable(ba.registry, BlockAt(old(ba.blocks), p))
              then 0 else BlockAt(old(ba.blocks), p)
  {
    ghost var g0 := ba.blocks;
    var y := topY;
    while y >= bottomY
      invariant y <= topY
      invariant forall p :: BlockAt(ba.blocks, p) ==
                  if p.x == x && p.z == z && bottomY <= p.y <= topY && y < p.y && Carvable(ba.registry, BlockAt(g0, p))
                  then 0 else BlockAt(g0, p)
    {
      var pos := Pos(x, y, z);
      var b := GetBlock(ba.registry, ba.GetBlockId(pos));
      if IsCarvable(b) {
        ba.SetBlock(0, pos);
      }
      y := y - 1;
    }
  }

  /** The disk of columns within `w` of (x, z) cleared in the same window. */
  method ClearCarvableDisk(ba: BlockAccessor, x: int, z: int, w: int, topY: int, bottomY: int)
    requires ZeroIsAir(ba.registry)
    modifies ba`blocks
    ensures forall p :: BlockAt(ba.blocks, p) ==
              if InDisk(p.x - x, p.z - z, w) && bottomY <= p.y <= topY && Carvable(ba.registry, BlockAt(old(ba.blocks), p))
              then 0 else BlockAt(old(ba.blocks), p)
  {
    ghost var g0 := ba.blocks;
    var dx := -w;
    while dx <= w
      invariant -w <= dx && (dx <= w + 1 || dx == -w)
      invariant forall p :: BlockAt(ba.blocks, p) ==
                  if p.x - x < dx && InDisk(p.x - x, p.z - z, w) && bottomY <= p.y <= topY && Carvable(ba.registry, BlockAt(g0, p))
                  then 0 else BlockAt(g0, p)
    {
      var dz := -w;
      while dz <= w
        invariant -w <= dz <= w + 1
        invariant forall p :: BlockAt(ba.blocks, p) ==
                    if (p.x - x < dx || (p.x - x == dx && p.z - z < dz)) && InDisk(p.x - x, p.z - z, w) &&
                       bottomY <= p.y <= topY && Carvable(ba.registry, BlockAt(g0, p))
                    then 0 else BlockAt(g0, p)
      {
        if dx * dx + dz * dz <= w * w {
          ClearCarvableColumn(ba, x + dx, z + dz, topY, bottomY);
        }
        dz := dz + 1;
      }
      dx := dx + 1;
    }
  }

  /** The cells of one carving step: within the plan's width of one of the
      step's sample columns, inside the window. */
  ghost predicate InCarvedRegion(p: Pos, center: Pos, width: int, samples: seq<(int, int)>, topY: int, bottomY: int) {
    bottomY <= p.y <= topY &&
    exists k :: 0 <= k < |samples| && InDisk(p.x - (center.x + samples[k].0), p.z - (center.z + samples[k].1), width)
  }

  /** CarveStep: for each radius in the step's range [r0, r1), the disk of
      the plan's width around that radius's sample column is cleared of carvable
      blocks in the carving window; nothing else changes. */
  method CarveStep(ba: BlockAccessor, plan: FaultPlan, step: nat, totalSteps: nat, samples: seq<(int, int)>,
                   depthClampBelowMag: int, depthClampToSeaOffset: int)
    requires ZeroIsAir(ba.registry)
    requires totalSteps >= 1 && plan.radius >= 0
    requires |samples| == CarveRange(plan.radius, step, totalSteps).1 - CarveRange(plan.radius, step, totalSteps).0
    modifies ba`blocks
    ensures var w := CarveWindow(plan.center.y, plan.depth, plan.magnitude, ba.mapSizeY, ba.seaLevel,
                                 depthClampBelowMag, depthClampToSeaOffset);
            forall p :: BlockAt(ba.blocks, p) ==
              if InCarvedRegion(p, plan.center, plan.width, samples, w.0, w.1) && Carvable(ba.registry, BlockAt(old(ba.blocks), p))
              then 0 else BlockAt(old(ba.blocks), p)
  {
    ghost var g0 := ba.blocks;
    var range := CarveRange(plan.radius, step, totalSteps);
    var window := CarveWindow(plan.center.y, plan.depth, plan.magnitude, ba.mapSizeY, ba.seaLevel,
                              depthClampBelowMag, depthClampToSeaOffset);
    var r := range.0;
    while r < range.1
      invariant range.0 <= r <= range.1
      invariant forall p :: BlockAt(ba.blocks, p) ==
                  if InCarvedRegion(p, plan.center, plan.width, samples[..r - range.0], window.0, window.1) &&
                     Carvable(ba.registry, BlockAt(g0, p))
                  then 0 else BlockAt(g0, p)
    {
      var sample := samples[r - range.0];
      ghost var done := samples[..r - range.0];
      ClearCarvableDisk(ba, plan.center.x + sample.0, plan.center.z + sample.1, plan.width, window.0, window.1);
      assert samples[..r + 1 - range.0] == done + [sample];
      r := r + 1;
    }
    assert samples[..range.1 - range.0] == samples;
  }

  /** The cells one hint ray cuts: its first `len` sample columns, from the
      centre's level down `depth` blocks. */
  ghost predicate InRay(p: Pos, center: Pos, ray: seq<(int, int)>, len: int, depth: int) {
    center.y - depth < p.y <= center.y &&
    exists t :: 0 <= t < len && t < |ray| && p.x == center.x + ray[t].0 && p.z == center.z + ray[t].1
  }

  /** The cells the first `n` hint rays cut. */
  ghost predicate InHintRegion(p: Pos, center: Pos, rays: seq<seq<(int, int)>>, lens: seq<int>, depths: seq<int>, n: int)
    requires n <= |rays| && n <= |lens| && n <= |depths|
  {
    exists i :: 0 <= i < n && InRay(p, center, rays[i], lens[i], depths[i])
  }

  /** ForeshockHintCut: clamp(2 + m/3, 2, 6) rays, each of a length drawn from
      [12, 17] and a depth drawn from [1, 2], clear the carvable blocks they
      cross. Each ray is given as its 17 possible sample offsets; the lengths and
      depths drawn are returned. */
  method ForeshockHintCut(ba: BlockAccessor, center: Pos, magnitude: int, rays: seq<seq<(int, int)>>)
      returns (ghost lens: seq<int>, ghost depths: seq<int>)
    requires ZeroIsAir(ba.registry)
    requires |rays| == ForeshockRays(magnitude)
    requires forall i :: 0 <= i < |rays| ==> |rays[i]| >= 17
    modifies ba`blocks
    ensures |lens| == |rays| && |depths| == |rays|
    ensures forall i :: 0 <= i < |rays| ==> 12 <= lens[i] <= 17 && 1 <= depths[i] <= 2
    ensures forall p :: BlockAt(ba.blocks, p) ==
              if InHintRegion(p, center, rays, lens, depths, |rays|) && Carvable(ba.registry, BlockAt(old(ba.blocks), p))
              then 0 else BlockAt(old(ba.blocks), p)
  {
    ghost var g0 := ba.blocks;
    lens := [];
    depths := [];
    var count := ForeshockRays(magnitude);
    for i := 0 to count
      invariant |lens| == i && |depths| == i
      invariant forall k :: 0 <= k < i ==> 12 <= lens[k] <= 17 && 1 <= depths[k] <= 2
      invariant forall p :: BlockAt(ba.blocks, p) ==
                  if InHintRegion(p, center, rays, lens, depths, i) && Carvable(ba.registry, BlockAt(g0, p))
                  then 0 else BlockAt(g0, p)
    {
      var len := Rand.Next(12, 18);
      var depth := Rand.Next(1, 3);
      for t := 0 to len
        invariant forall p :: BlockAt(ba.blocks, p) ==
                    if (InHintRegion(p, center, rays, lens, depths, i) || InRay(p, center, rays[i], t, depth)) &&
                       Carvable(ba.registry, BlockAt(g0, p))
                    then 0 else BlockAt(g0, p)
      {
        ClearCarvableColumn(ba, center.x + rays[i][t].0, center.z + rays[i][t].1, center.y, center.y - depth + 1);
      }
      ghost var lens' := lens + [len];
      ghost var depths' := depths + [depth];
      assert forall p :: InHintRegion(p, center, rays, lens', depths', i + 1) <==>
                         InHintRegion(p, center, rays, lens, depths, i) || InRay(p, center, rays[i], len, depth) by {
        assert forall k :: 0 <= k < i ==> lens'[k] == lens[k] && depths'[k] == depths[k];
      }
      lens := lens';
      depths := depths';
    }
  }
}
