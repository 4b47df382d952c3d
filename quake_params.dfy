/** The integer parameters TriggerEarthquake and StartForeshockSequence derive
    from a magnitude, the fault plans, and the radius annulus each carving step
    samples. */
module QuakeParams {
  import opened GameMath
  import opened World

  /** Quake radius: clamp(12 + 8m, 16, 120). */
  function QuakeRadius(m: int): (r: int)
    ensures 16 <= r <= 120
    ensures 1 <= m <= 9 ==> r == 12 + 8 * m
  {
    Clamp(12 + m * 8, 16, 120)
  }

  /** Carving depth: clamp(6 + 6m, 8, 60). */
  function QuakeDepth(m: int): (d: int)
    ensures 8 <= d <= 60
    ensures 1 <= m <= 9 ==> d == 6 + 6 * m
  {
    Clamp(6 + m * 6, 8, 60)
  }

  /** A stronger quake is never smaller or shallower. */
  lemma RadiusDepthMonotone(m1: int, m2: int)
    requires m1 <= m2
    ensures QuakeRadius(m1) <= QuakeRadius(m2)
    ensures QuakeDepth(m1) <= QuakeDepth(m2)
  {
    ClampMonotone(12 + m1 * 8, 12 + m2 * 8, 16, 120);
    ClampMonotone(6 + m1 * 6, 6 + m2 * 6, 8, 60);
  }

  /** The number of carving ticks: max(1, ceil(duration / TickSeconds)), the
      ceiling being computed in floating point and supplied here. */
  function QuakeSteps(ceilDurationOverTick: int): (n: int)
    ensures n >= 1
    ensures ceilDurationOverTick >= 1 ==> n == ceilDurationOverTick
  {
    Max(1, ceilDurationOverTick)
  }

  /** Fault count: clamp(1 + m/2, 1, 6), with C#'s truncating division. */
  function FaultCount(m: int): (n: int)
    ensures 1 <= n <= 6
    ensures 0 <= m <= 9 ==> n == 1 + m / 2
  {
    Clamp(1 + TruncDiv(m, 2), 1, 6)
  }

  /** Fault width of plan i: clamp((m >= 7 ? 2 : 1) + i % 2, 1, 4). */
  function FaultWidth(m: int, i: nat): (w: int)
    ensures 1 <= w <= 4
    ensures w == (if m >= 7 then 2 else 1) + i % 2
  {
    Clamp((if m >= 7 then 2 else 1) + i % 2, 1, 4)
  }

  /** Loot spawn points: max(3, radius/20). */
  function LootPoints(radius: int): (n: int)
    ensures n >= 3 && (radius >= 60 ==> n == TruncDiv(radius, 20))
  {
    Max(3, TruncDiv(radius, 20))
  }

  /** Items spawned per loot point: (GoodiesPerEventMin + 8m) / lootPoints. */
  function LootPerPoint(goodiesPerEventMin: int, m: int): (n: int)
    ensures goodiesPerEventMin + m * 8 >= 0 ==> 0 <= n <= goodiesPerEventMin + m * 8
  {
    TruncDiv(goodiesPerEventMin + m * 8, LootPoints(QuakeRadius(m)))
  }

  /** The loot points together never spawn more than the budget
      GoodiesPerEventMin + 8m, and fall short of it by less than one share. */
  lemma LootWithinBudget(goodiesPerEventMin: int, m: int)
    requires goodiesPerEventMin + m * 8 >= 0
    ensures var total := LootPoints(QuakeRadius(m)) * LootPerPoint(goodiesPerEventMin, m);
            goodiesPerEventMin + m * 8 - LootPoints(QuakeRadius(m)) < total <= goodiesPerEventMin + m * 8
  {
  }

  /** With the default 30 goodies a magnitude-9 quake spawns 4 * 25 = 100 items,
      not the 102 of its budget. */
  lemma LootShortfallAtNine()
    ensures LootPoints(QuakeRadius(9)) == 4 && LootPerPoint(30, 9) == 25
    ensures LootPoints(QuakeRadius(9)) * LootPerPoint(30, 9) == 100 < 30 + 9 * 8
  {
  }

  /** Foreshock hint rays: clamp(2 + m/3, 2, 6). */
  function ForeshockRays(m: int): (n: int)
    ensures 2 <= n <= 6
    ensures 0 <= m <= 12 ==> n == 2 + m / 3
  {
    Clamp(2 + TruncDiv(m, 3), 2, 6)
  }

  /** Radius of the floater cleanup: (int)(radius * 0.9). */
  function FloaterRadius(radius: int): (r: int)
    ensures radius >= 0 ==> 0 <= r <= radius
  {
    TruncDiv(radius * 9, 10)
  }

  /** One fault line to carve. The angle and its jitter are floating point and
      replaced by the sample positions each carving step is given. */
  datatype FaultPlan = FaultPlan(center: Pos, radius: int, depth: int, width: int, magnitude: int)

  /** The plan list TriggerEarthquake builds. */
  method BuildFaultPlans(center: Pos, m: int) returns (plans: seq<FaultPlan>)
    ensures |plans| == FaultCount(m)
    ensures forall i :: 0 <= i < |plans| ==>
              plans[i] == FaultPlan(center, QuakeRadius(m), QuakeDepth(m), FaultWidth(m, i), m)
    ensures forall i :: 0 <= i < |plans| ==> 1 <= plans[i].width <= 4 && 16 <= plans[i].radius <= 120
  {
    var faults := FaultCount(m);
    var radius := QuakeRadius(m);
    var depth := QuakeDepth(m);
    plans := [];
    for i := 0 to faults
      invariant |plans| == i
      invariant forall k :: 0 <= k < i ==> plans[k] == FaultPlan(center, radius, depth, FaultWidth(m, k), m)
    {
      plans := plans + [FaultPlan(center, radius, depth, FaultWidth(m, i), m)];
    }
  }

  /** Math.Round of num/den: the nearest integer, halves going to the even one. */
  function RoundHalfEven(num: int, den: int): (r: int)
    requires den > 0
    ensures -den <= 2 * (num - r * den) <= den
    ensures 2 * (num - r * den) == den || 2 * (num - r * den) == -den ==> r % 2 == 0
  {
    var q := num / den;
    var rem := num % den;
    if 2 * rem < den then q
    else if 2 * rem > den then q + 1
    else if q % 2 == 0 then q
    else q + 1
  }

  /** r1 * den exceeds r2 * den by at least den when r1 > r2. */
  lemma MulGap(r1: int, r2: int, den: int)
    requires r1 > r2 && den > 0
    ensures r1 * den >= r2 * den + den
  {
    var k := r1 - r2 - 1;
    assert r1 * den == r2 * den + k * den + den;
    assert k * den >= 0;
  }

  /** Rounding is monotone. */
  lemma RoundHalfEvenMonotone(a: int, b: int, den: int)
    requires den > 0 && a <= b
    ensures RoundHalfEven(a, den) <= RoundHalfEven(b, den)
  {
    var ra := RoundHalfEven(a, den);
    var rb := RoundHalfEven(b, den);
    if ra > rb {
      MulGap(ra, rb, den);
    }
  }

  /** Rounding an exact multiple gives the quotient. */
  lemma RoundExact(k: int, den: int)
    requires den > 0
    ensures RoundHalfEven(k * den, den) == k
  {
    var r := RoundHalfEven(k * den, den);
    var e := r * den;
    var n := k * den;
    assert -den <= 2 * (n - e) <= den;
    if r > k {
      MulGap(r, k, den);
    } else if r < k {
      MulGap(k, r, den);
    }
  }

  /** The radii [r0, r1) carving step `step` of `totalSteps` samples on a fault of
      radius R: r0 = round(R * step/N), r1 = round(R * (step+1)/N), bumped to
      r0 + 1 when not larger. */
  function CarveRange(radius: nat, step: nat, totalSteps: nat): (range: (int, int))
    requires totalSteps >= 1
    ensures range.0 < range.1
  {
    var r0 := RoundHalfEven(radius * step, totalSteps);
    var r1 := RoundHalfEven(radius * (step + 1), totalSteps);
    if r1 <= r0 then (r0, r0 + 1) else (r0, r1)
  }

  /** The start radius never decreases from one step to a later one. */
  lemma CarveStartMonotone(radius: nat, s1: nat, s2: nat, totalSteps: nat)
    requires totalSteps >= 1 && s1 <= s2
    ensures CarveRange(radius, s1, totalSteps).0 <= CarveRange(radius, s2, totalSteps).0
  {
    assert radius * s1 <= radius * s2 by {
      assert radius * s2 - radius * s1 == radius * (s2 - s1);
    }
    RoundHalfEvenMonotone(radius * s1, radius * s2, totalSteps);
  }

  /** The first step starts at the centre and step N would start at the rim. */
  lemma CarveEnds(radius: nat, totalSteps: nat)
    requires totalSteps >= 1
    ensures CarveRange(radius, 0, totalSteps).0 == 0
    ensures RoundHalfEven(radius * totalSteps, totalSteps) == radius
  {
    RoundExact(0, totalSteps);
    RoundExact(radius, totalSteps);
  }

  /** Each step ends at or beyond where the next one starts, so no radius is skipped. */
  lemma CarveChained(radius: nat, step: nat, totalSteps: nat)
    requires totalSteps >= 1
    ensures CarveRange(radius, step, totalSteps).1 >= CarveRange(radius, step + 1, totalSteps).0
  {
  }

  /** Every radius in [0, R) is sampled by one of the steps 0 .. N-1. */
  lemma CarveCovers(radius: nat, totalSteps: nat, r: int)
    requires totalSteps >= 1 && 0 <= r < radius
    ensures exists s :: 0 <= s < totalSteps && CarveRange(radius, s, totalSteps).0 <= r < CarveRange(radius, s, totalSteps).1
  {
    CarveEnds(radius, totalSteps);
    CoversFrom(radius, totalSteps, r, 0);
  }

  lemma {:induction false} CoversFrom(radius: nat, totalSteps: nat, r: int, s: nat)
    requires totalSteps >= 1 && s <= totalSteps
    requires CarveRange(radius, s, totalSteps).0 <= r < RoundHalfEven(radius * totalSteps, totalSteps)
    ensures exists t :: s <= t < totalSteps && CarveRange(radius, t, totalSteps).0 <= r < CarveRange(radius, t, totalSteps).1
    decreases totalSteps - s
  {
    if s == totalSteps {
      assert false;
    } else if r < CarveRange(radius, s, totalSteps).1 {
    } else {
      CarveChained(radius, s, totalSteps);
      CoversFrom(radius, totalSteps, r, s + 1);
    }
  }

  lemma MulLe(a: nat, b: nat, c: nat)
    requires b <= c
    ensures a * b <= a * c
  {
    assert a * c == a * b + a * (c - b);
  }

  /** No step samples beyond radius R: the end is at most R + 1, one past the
      rim, reached only by the bump. */
  lemma CarveBounded(radius: nat, step: nat, totalSteps: nat)
    requires totalSteps >= 1 && step < totalSteps
    ensures 0 <= CarveRange(radius, step, totalSteps).0 <= radius
    ensures CarveRange(radius, step, totalSteps).1 <= radius + 1
  {
    CarveEnds(radius, totalSteps);
    MulLe(radius, 0, step);
    MulLe(radius, step, step + 1);
    MulLe(radius, step + 1, totalSteps);
    var a0 := radius * 0;
    var a := radius * step;
    var b := radius * (step + 1);
    var c := radius * totalSteps;
    RoundHalfEvenMonotone(a0, a, totalSteps);
    RoundHalfEvenMonotone(a, b, totalSteps);
    RoundHalfEvenMonotone(b, c, totalSteps);
  }

  /** With more steps than radii a late step samples radius R itself: radius 1 over
      4 steps samples [1, 2) at step 3. */
  lemma CarveReachesRim()
    ensures CarveRange(1, 3, 4) == (1, 2)
  {
  }
}
