/** The two timed sequences a quake runs as: the foreshock, whose listener fires
    every five seconds and hands over to the main quake on its twelfth tick, and
    the main quake, whose listener fires once per configured tick for the
    computed number of steps. A listener is modelled as a class whose `Tick`
    stands for one call of the registered callback. */
module Sequences {
  import opened Wrappers
  import opened GameMath
  import opened World
  import opened Config
  import opened QuakeParams
  import opened Carving
  import opened Floaters
  import opened Surface
  import opened Shards
  import opened Trees
  import opened Loot
  import opened ModSystem

  /** The number of ticks the foreshock lasts. */
  const ForeshockSteps := 12

  /** A call of SpawnFromTable: the loot table, the place, the spread radius and
      the number of items. Spawning itself is not part of the model. */
  datatype SpawnRequest = SpawnRequest(table: string, center: Pos, radius: int, count: int, magnitude: int)

  /** The spawn request of every foreshock tick. */
  function ForeshockSpawn(cfg: EarthquakeConfig, center: Pos, magnitude: int): (s: SpawnRequest)
    ensures s.table in LootTables && s.table == "preshock_" + TierName(magnitude)
    ensures s.radius >= 12 && s.radius >= TruncDiv(cfg.eventNearPlayerRadius, 10)
    ensures cfg.goodiesPerEventMin >= 0 ==> 0 <= s.count && 2 * s.count <= cfg.goodiesPerEventMin
  {
    SpawnRequest(TableForPreshock(magnitude), center, Max(12, TruncDiv(cfg.eventNearPlayerRadius, 10)),
                 TruncDiv(cfg.goodiesPerEventMin, 2), magnitude)
  }

  class ForeshockSequence {
    const cfg: EarthquakeConfig
    const center: Pos
    const magnitude: int
    const broadcastOnFinish: bool
    /** Ticks run so far. */
    var step: int
    /** Whether the tick listener is still registered. */
    var registered: bool

    ghost predicate Valid()
      reads this
    {
      0 <= step <= ForeshockSteps && (registered <==> step < ForeshockSteps)
    }

    constructor (cfg: EarthquakeConfig, center: Pos, magnitude: int, broadcastOnFinish: bool)
      ensures Valid() && step == 0 && registered
      ensures this.cfg == cfg && this.center == center && this.magnitude == magnitude
      ensures this.broadcastOnFinish == broadcastOnFinish
    {
      this.cfg := cfg;
      this.center := center;
      this.magnitude := magnitude;
      this.broadcastOnFinish := broadcastOnFinish;
      step := 0;
      registered := true;
    }

    /** One listener call: the hint cut, the loot spawn, then the step count; the
        twelfth call unregisters the listener and triggers the main quake. The
        ray lengths and depths the cut drew are returned with it. */
    method Tick(ba: BlockAccessor, rays: seq<seq<(int, int)>>)
        returns (spawn: SpawnRequest, trigger: bool, ghost lens: seq<int>, ghost depths: seq<int>)
      requires Valid() && registered
      requires ZeroIsAir(ba.registry)
      requires |rays| == ForeshockRays(magnitude)
      requires forall i :: 0 <= i < |rays| ==> |rays[i]| >= 17
      modifies this`step, this`registered, ba`blocks
      ensures Valid()
      ensures step == old(step) + 1
      ensures trigger <==> step == ForeshockSteps
      ensures trigger <==> !registered
      ensures spawn == ForeshockSpawn(cfg, center, magnitude)
      ensures |lens| == |rays| && |depths| == |rays|
      ensures forall i :: 0 <= i < |rays| ==> 12 <= lens[i] <= 17 && 1 <= depths[i] <= 2
      ensures forall p :: BlockAt(ba.blocks, p) ==
                if InHintRegion(p, center, rays, lens, depths, |rays|) && Carvable(ba.registry, BlockAt(old(ba.blocks), p))
                then 0 else BlockAt(old(ba.blocks), p)
    {
      lens, depths := ForeshockHintCut(ba, center, magnitude, rays);
      spawn := ForeshockSpawn(cfg, center, magnitude);
      step := step + 1;
      trigger := step >= ForeshockSteps;
      if trigger {
        registered := false;
      }
    }
  }

  /** Running a fresh foreshock until its listener unregisters takes exactly
      twelve ticks, and only the last of them triggers the quake. */
  method RunForeshock(fs: ForeshockSequence, ba: BlockAccessor, raysPerTick: seq<seq<seq<(int, int)>>>)
      returns (ticks: nat, triggers: nat)
    requires fs.Valid() && fs.step == 0 && fs.registered
    requires ZeroIsAir(ba.registry)
    requires |raysPerTick| == ForeshockSteps
    requires forall k :: 0 <= k < |raysPerTick| ==> |raysPerTick[k]| == ForeshockRays(fs.magnitude)
    requires forall k, i :: 0 <= k < |raysPerTick| && 0 <= i < |raysPerTick[k]| ==> |raysPerTick[k][i]| >= 17
    modifies fs, ba`blocks
    ensures ticks == ForeshockSteps && triggers == 1 && !fs.registered
  {
    ticks, triggers := 0, 0;
    while fs.registered
      invariant fs.Valid() && ticks == fs.step
      invariant triggers == if fs.registered then 0 else 1
      decreases ForeshockSteps - fs.step
    {
      var spawn, trigger, lens, depths := fs.Tick(ba, raysPerTick[ticks]);
      ticks := ticks + 1;
      if trigger {
        triggers := triggers + 1;
      }
    }
  }

  /** Whether the grid maintenance (floater cleanup, gravel halo, shard lowering,
      tree collapse) runs on a quake step: it does on the even ones. */
  predicate MaintenanceStep(step: int) {
    step % 2 == 0
  }

  /** The number of steps among the first `n` on which the maintenance runs. */
  function MaintenanceRuns(n: nat): nat {
    if n == 0 then 0 else MaintenanceRuns(n - 1) + (if MaintenanceStep(n - 1) then 1 else 0)
  }

  /** A quake of `n` steps runs the maintenance on ceil(n / 2) of them, so at
      least once whenever it runs at all. */
  lemma {:induction false} MaintenanceRunsHalf(n: nat)
    ensures MaintenanceRuns(n) == (n + 1) / 2
    ensures n >= 1 ==> MaintenanceRuns(n) >= 1
  {
    if n > 0 {
      MaintenanceRunsHalf(n - 1);
    }
  }

  /** A cell after all plans of a step have carved: cleared when one of the
      plans' regions holds it and it was carvable before the step. */
  ghost predicate CarvedByAny(p: Pos, plans: seq<FaultPlan>, samples: seq<seq<(int, int)>>, n: int,
                              mapSizeY: int, seaLevel: int, depthClampBelowMag: int, depthClampToSeaOffset: int)
    requires n <= |plans| && n <= |samples|
  {
    exists i :: 0 <= i < n &&
      var w := CarveWindow(plans[i].center.y, plans[i].depth, plans[i].magnitude, mapSizeY, seaLevel,
                           depthClampBelowMag, depthClampToSeaOffset);
      InCarvedRegion(p, plans[i].center, plans[i].width, samples[i], w.0, w.1)
  }

  /** The sample counts a step's radius ranges call for. */
  predicate SamplesFit(plans: seq<FaultPlan>, samples: seq<seq<(int, int)>>, step: nat, totalSteps: nat) {
    totalSteps >= 1 && |samples| == |plans| &&
    forall i :: 0 <= i < |plans| ==>
      plans[i].radius >= 0 &&
      |samples[i]| == CarveRange(plans[i].radius, step, totalSteps).1 - CarveRange(plans[i].radius, step, totalSteps).0
  }

  /** `foreach (var plan in plans) CarveStep(plan, step, steps)`. Carving only
      writes air, which is not carvable, so the plans together clear exactly the
      cells that one of them reaches and that were carvable before. */
  method CarveAll(ba: BlockAccessor, plans: seq<FaultPlan>, step: nat, totalSteps: nat, samples: seq<seq<(int, int)>>,
                  depthClampBelowMag: int, depthClampToSeaOffset: int)
    requires ZeroIsAir(ba.registry)
    requires totalSteps >= 1 && SamplesFit(plans, samples, step, totalSteps)
    modifies ba`blocks
    ensures forall p :: BlockAt(ba.blocks, p) ==
              if CarvedByAny(p, plans, samples, |plans|, ba.mapSizeY, ba.seaLevel, depthClampBelowMag, depthClampToSeaOffset) &&
                 Carvable(ba.registry, BlockAt(old(ba.blocks), p))
              then 0 else BlockAt(old(ba.blocks), p)
  {
    ghost var g0 := ba.blocks;
    for i := 0 to |plans|
      invariant forall p :: BlockAt(ba.blocks, p) ==
                  if CarvedByAny(p, plans, samples, i, ba.mapSizeY, ba.seaLevel, depthClampBelowMag, depthClampToSeaOffset) &&
                     Carvable(ba.registry, BlockAt(g0, p))
                  then 0 else BlockAt(g0, p)
    {
      ghost var before := ba.blocks;
      CarveStep(ba, plans[i], step, totalSteps, samples[i], depthClampBelowMag, depthClampToSeaOffset);
      assert !Carvable(ba.registry, 0);
      assert forall p :: CarvedByAny(p, plans, samples, i + 1, ba.mapSizeY, ba.seaLevel, depthClampBelowMag, depthClampToSeaOffset) <==>
                         CarvedByAny(p, plans, samples, i, ba.mapSizeY, ba.seaLevel, depthClampBelowMag, depthClampToSeaOffset) ||
                         var w := CarveWindow(plans[i].center.y, plans[i].depth, plans[i].magnitude, ba.mapSizeY, ba.seaLevel,
                                              depthClampBelowMag, depthClampToSeaOffset);
                         InCarvedRegion(p, plans[i].center, plans[i].width, samples[i], w.0, w.1);
    }
  }

  /** The gravel halo's guard: no gravel, or a scatter radius that leaves `Next(6, r/3)` a range. */
  predicate HaloDrawable(gravel: Option<int>, haloRadius: int) {
    gravel.None? || Max(6, TruncDiv(haloRadius, 3)) <= haloRadius
  }

  /** What an even step's upkeep makes of the grid `start`: floater cleanup
      within 9/10 of the radius gives `cleaned`, the gravel halo `haloed`, the
      shard lowering (when enabled) `lowered`, and the tree collapse the final
      grid. A phase whose random draw throws (`ok` false) leaves the grid as it
      was after the phase before. */
  ghost predicate MaintenanceOutcome(reg: Registry, mapSizeY: int, center: Pos, radius: int, magnitude: int,
                                     cfg: EarthquakeConfig, haloRadius: int, gravel: Option<int>,
                                     haloOffsets: seq<(int, int)>, start: Grid, cleaned: Grid, haloed: Grid,
                                     lowered: Grid, patches: seq<ShardPatch>, final: Grid, ok: bool)
  {
    (forall p :: BlockAt(cleaned, p) == CleanedCell(reg, start, center, FloaterRadius(radius), mapSizeY, p)) &&
    (gravel.Some? && HaloDrawable(gravel, haloRadius) ==>
       haloed == HaloFold(cleaned, gravel.value, center, mapSizeY, haloOffsets)) &&
    (!(gravel.Some? && HaloDrawable(gravel, haloRadius)) ==> haloed == cleaned) &&
    (!HaloDrawable(gravel, haloRadius) ==> final == haloed) &&
    (!(cfg.shardLoweringEnabled && HaloDrawable(gravel, haloRadius)) ==> lowered == haloed && patches == []) &&
    (cfg.shardLoweringEnabled && HaloDrawable(gravel, haloRadius) ==>
       lowered == ApplyPatches(haloed, patches, ShardBottom(center), ShardTop(center, mapSizeY)) &&
       (forall i :: 0 <= i < |patches| ==>
          PatchDrawn(patches[i], center, radius, cfg.shardPatchRadiusMin, cfg.shardPatchRadiusMax,
                     cfg.shardLowerMin, cfg.shardLowerMax)) &&
       (!ok ==> final == lowered)) &&
    (ok <==> HaloDrawable(gravel, haloRadius) &&
             (cfg.shardLoweringEnabled ==> |patches| == ShardPatchTotal(cfg.shardPatchCount, magnitude))) &&
    (ok ==> forall p :: BlockAt(final, p) == FelledCell(reg, lowered, center, radius, mapSizeY, p))
  }

  /** The upkeep an even step of a quake runs after carving. */
  method Maintenance(ba: BlockAccessor, center: Pos, radius: int, magnitude: int, cfg: EarthquakeConfig,
                     haloRadius: int, gravel: Option<int>, haloOffsets: seq<(int, int)>)
      returns (ok: bool, ghost cleaned: Grid, ghost haloed: Grid, ghost lowered: Grid, ghost patches: seq<ShardPatch>)
    requires |haloOffsets| == Max(20, haloRadius)
    modifies ba`blocks
    ensures MaintenanceOutcome(ba.registry, ba.mapSizeY, center, radius, magnitude, cfg, haloRadius, gravel,
                               haloOffsets, old(ba.blocks), cleaned, haloed, lowered, patches, ba.blocks, ok)
  {
    patches := [];
    CleanupFloaters(ba, center, FloaterRadius(radius));
    cleaned := ba.blocks;
    ok := GravelHaloBurst(ba, center, haloRadius, gravel, haloOffsets);
    haloed := ba.blocks;
    lowered := haloed;
    if !ok {
      return;
    }
    if cfg.shardLoweringEnabled {
      ok, patches := LowerTerrainShards(ba, center, radius, magnitude, cfg.shardPatchCount,
                                        cfg.shardPatchRadiusMin, cfg.shardPatchRadiusMax,
                                        cfg.shardLowerMin, cfg.shardLowerMax);
      lowered := ba.blocks;
      if !ok {
        return;
      }
    }
    CollapseTreesInRadius(ba, center, radius);
  }

  /** The completion notice a finished quake broadcasts when asked to. */
  function CompletePacket(magnitude: int): (pkt: NotificationPacket)
    ensures pkt.kind == Complete && pkt.count == 1 && pkt.magnitude == magnitude
  {
    NotificationPacket(Complete, magnitude, 0, 1)
  }

  class QuakeRun {
    const cfg: EarthquakeConfig
    const center: Pos
    const magnitude: int
    const broadcastOnFinish: bool
    const radius: int
    const totalSteps: nat
    var plans: seq<FaultPlan>
    /** Ticks completed so far. */
    var step: nat
    var registered: bool

    ghost predicate Valid()
      reads this
    {
      totalSteps >= 1 && 16 <= radius <= 120 && step <= totalSteps && (registered <==> step < totalSteps) &&
      |plans| == FaultCount(magnitude) &&
      forall i :: 0 <= i < |plans| ==> plans[i].radius == radius && 1 <= plans[i].width <= 4
    }

    /** TriggerEarthquake's set-up: radius, fault plans and the step count, which
        is max(1, ceil(duration / TickSeconds)) for the given ceiling. */
    constructor (cfg: EarthquakeConfig, center: Pos, magnitude: int, broadcastOnFinish: bool, ceilDurationOverTick: int)
      ensures Valid() && step == 0 && registered
      ensures this.cfg == cfg && this.center == center && this.magnitude == magnitude
      ensures this.broadcastOnFinish == broadcastOnFinish
      ensures radius == QuakeRadius(magnitude) && totalSteps == QuakeSteps(ceilDurationOverTick)
      ensures forall i :: 0 <= i < |plans| ==>
                plans[i] == FaultPlan(center, QuakeRadius(magnitude), QuakeDepth(magnitude), FaultWidth(magnitude, i), magnitude)
    {
      this.cfg := cfg;
      this.center := center;
      this.magnitude := magnitude;
      this.broadcastOnFinish := broadcastOnFinish;
      radius := QuakeRadius(magnitude);
      totalSteps := QuakeSteps(ceilDurationOverTick);
      step := 0;
      registered := true;
      new;
      plans := BuildFaultPlans(center, magnitude);
    }

    /** One listener call. Every plan carves its share of the step; on an even
        step the floaters within 9/10 of the radius are cleaned up, the gravel
        halo drops, the shards are lowered when enabled and the trees in the
        radius collapse. A random draw that throws (`ok` false) ends the call
        there, before the step count moves. The last step unregisters the
        listener and, when asked to, yields the completion notice. The grids
        between the phases are returned so that each phase's effect can be stated
        by its own operation's specification. */
    method Tick(ba: BlockAccessor, samples: seq<seq<(int, int)>>, haloRadius: int, gravel: Option<int>,
                haloOffsets: seq<(int, int)>)
        returns (ok: bool, notice: Option<NotificationPacket>,
                 ghost carved: Grid, ghost cleaned: Grid, ghost haloed: Grid, ghost lowered: Grid,
                 ghost patches: seq<ShardPatch>)
      requires Valid() && registered
      requires ZeroIsAir(ba.registry)
      requires SamplesFit(plans, samples, step, totalSteps)
      requires |haloOffsets| == Max(20, haloRadius)
      modifies this`step, this`registered, ba`blocks
      ensures Valid() && plans == old(plans)
      ensures forall p :: BlockAt(carved, p) ==
                if CarvedByAny(p, plans, samples, |plans|, ba.mapSizeY, ba.seaLevel, cfg.depthClampBelowMag, cfg.depthClampToSeaOffset) &&
                   Carvable(ba.registry, BlockAt(old(ba.blocks), p))
                then 0 else BlockAt(old(ba.blocks), p)
      ensures !MaintenanceStep(old(step)) ==> ok && ba.blocks == carved
      ensures MaintenanceStep(old(step)) ==>
                MaintenanceOutcome(ba.registry, ba.mapSizeY, center, radius, magnitude, cfg, haloRadius, gravel,
                                   haloOffsets, carved, cleaned, haloed, lowered, patches, ba.blocks, ok)
      ensures ok <==> step == old(step) + 1
      ensures !ok ==> step == old(step) && registered
      ensures ok ==> (registered <==> step < totalSteps)
      ensures notice.Some? <==> ok && !registered && broadcastOnFinish
      ensures notice.Some? ==> notice.value == CompletePacket(magnitude)
    {
      CarveAll(ba, plans, step, totalSteps, samples, cfg.depthClampBelowMag, cfg.depthClampToSeaOffset);
      carved := ba.blocks;
      cleaned, haloed, lowered := carved, carved, carved;
      patches := [];
      notice := None;
      ok := true;
      if MaintenanceStep(step) {
        ok, cleaned, haloed, lowered, patches := Maintenance(ba, center, radius, magnitude, cfg, haloRadius, gravel, haloOffsets);
        if !ok {
          return;
        }
      }
      step := step + 1;
      if step >= totalSteps {
        registered := false;
        if broadcastOnFinish {
          notice := Some(CompletePacket(magnitude));
        }
      }
    }
  }
}
